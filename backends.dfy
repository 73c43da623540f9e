/** The e-mail authentication backend (`backend/users/backends.py`) and the way
    Django runs the configured backends one after the other. */
module Backends {
  import opened Common
  import Settings
  import Framework
  import opened Models

  /** `filter(...).first()`: the position of the first row (in key order) that
      satisfies `p`. */
  function FirstWhere(users: seq<User>, p: User -> bool): (r: Option<nat>)
    ensures r.Some? ==> r.value < |users| && p(users[r.value])
    ensures r.Some? ==> forall j :: 0 <= j < r.value ==> !p(users[j])
    ensures r.None? ==> forall j :: 0 <= j < |users| ==> !p(users[j])
  {
    if users == [] then None
    else if p(users[0]) then Some(0)
    else match FirstWhere(users[1..], p)
      case None => None
      case Some(k) => Some(k + 1)
  }

  /** The first user whose email is `email`. A missing email matches no row,
      since the column is never null. */
  function FirstWithEmail(users: seq<User>, email: Option<string>): (r: Option<User>)
    ensures r.Some? ==> r.value in users && email == Some(r.value.email)
    ensures r.None? <==> email.None? || !EmailTaken(users, email.value)
  {
    match email
    case None => None
    case Some(e) =>
      match FirstWhere(users, (u: User) => u.email == e)
      case None => None
      case Some(k) => Some(users[k])
  }

  /** `EmailBackend.authenticate`: the first user with that email, provided the
      password checks out; never an error. */
  function EmailAuthenticate(env: Framework.Env, users: seq<User>, email: Option<string>, password: Option<string>)
    : (r: Option<User>)
    ensures r.Some? <==>
      FirstWithEmail(users, email).Some? &&
      Framework.CheckPassword(env, FirstWithEmail(users, email).value.passwordHash, password)
    ensures r.Some? ==> r == FirstWithEmail(users, email)
    ensures email.None? || !EmailTaken(users, email.value) ==> r.None?
  {
    match FirstWithEmail(users, email)
    case None => None
    case Some(u) => if Framework.CheckPassword(env, u.passwordHash, password) then Some(u) else None
  }

  /** `EmailBackend.get_user`: the user with that key, or nothing. */
  function GetUser(users: seq<User>, id: nat): (r: Option<User>)
    ensures r.Some? ==> r.value in users && r.value.id == id
    ensures r.None? <==> forall u :: u in users ==> u.id != id
  {
    match FirstWhere(users, (u: User) => u.id == id)
    case None => None
    case Some(k) => Some(users[k])
  }

  /** Django's `ModelBackend`, called with the same keyword arguments: it looks
      the user up by `USERNAME_FIELD` (the email) and, unlike the e-mail
      backend, also refuses inactive users. */
  function ModelAuthenticate(env: Framework.Env, users: seq<User>, email: Option<string>, password: Option<string>)
    : (r: Option<User>)
    ensures r.Some? ==> r.value.isActive && r == EmailAuthenticate(env, users, email, password)
    ensures r.None? ==> EmailAuthenticate(env, users, email, password).None? ||
                        !EmailAuthenticate(env, users, email, password).value.isActive
  {
    if email.None? || password.None? then None
    else match FirstWithEmail(users, email)
      case None => None
      case Some(u) =>
        if Framework.CheckPassword(env, u.passwordHash, password) && u.isActive then Some(u) else None
  }

  function Answer(env: Framework.Env, b: Settings.AuthBackend, users: seq<User>,
                  email: Option<string>, password: Option<string>): Option<User>
  {
    match b
    case EmailBackend => EmailAuthenticate(env, users, email, password)
    case ModelBackend => ModelAuthenticate(env, users, email, password)
  }

  /** `django.contrib.auth.authenticate`: the first backend that answers with a user. */
  function Authenticate(env: Framework.Env, backends: seq<Settings.AuthBackend>, users: seq<User>,
                        email: Option<string>, password: Option<string>): (r: Option<User>)
    ensures r.Some? ==>
      exists i :: 0 <= i < |backends| && Answer(env, backends[i], users, email, password) == r &&
        forall j :: 0 <= j < i ==> Answer(env, backends[j], users, email, password).None?
    ensures r.None? <==> forall i :: 0 <= i < |backends| ==> Answer(env, backends[i], users, email, password).None?
  {
    if backends == [] then None
    else
      var a := Answer(env, backends[0], users, email, password);
      if a.Some? then a else Authenticate(env, backends[1..], users, email, password)
  }

  /** With the configured order the e-mail backend decides every login: the
      model backend only runs when the e-mail backend found nothing, and then
      it finds nothing either. */
  lemma ConfiguredAuthenticateIsEmailBackend(env: Framework.Env, users: seq<User>,
                                             email: Option<string>, password: Option<string>)
    ensures Authenticate(env, Settings.AuthenticationBackends, users, email, password)
         == EmailAuthenticate(env, users, email, password)
  {
    var bs := Settings.AuthenticationBackends;
    assert bs[0] == Settings.EmailBackend && bs[1..] == [Settings.ModelBackend];
    if EmailAuthenticate(env, users, email, password).None? {
      assert Authenticate(env, bs[1..][1..], users, email, password).None?;
    }
  }
}

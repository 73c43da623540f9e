/** The custom user model and its manager (`backend/users/models.py`): the user
    record, the table of users with its uniqueness constraints, `create_user`,
    `create_superuser`, deletion and update of a row, `__str__` and
    `get_avatar_url`. */
module Models {
  import opened Common
  import Settings
  import Framework

  /** A row of the `users` table. `avatar` is the stored file name, "" when no
      avatar is set; `passwordHash` is what `set_password` stored. */
  datatype User = User(
    id: nat,
    email: string,
    username: string,
    firstName: string,
    lastName: string,
    avatar: string,
    passwordHash: string,
    isActive: bool,
    isStaff: bool,
    isSuperuser: bool)

  /** The keyword arguments `create_user` passes on to the model. */
  datatype ExtraFields = ExtraFields(
    username: string,
    firstName: string,
    lastName: string,
    isStaff: bool,
    isSuperuser: bool)

  datatype ManagerError =
    | EmailRequired     // "The Email field must be set"
    | PasswordRequired  // "Password must be provided"
    | StaffRequired     // "Superuser must have is_staff=True."
    | SuperuserRequired // "Superuser must have is_superuser=True."
    | UniqueViolation   // the database refuses a second row with the same email or username

  /** `USERNAME_FIELD`: users sign in with their e-mail address. */
  const UsernameField: string := "email"
  const RequiredFields: seq<string> := ["username"]
  const DefaultAvatar: string := "/default-avatar.png"

  predicate EmailTaken(users: seq<User>, email: string) {
    exists u :: u in users && u.email == email
  }

  predicate UsernameTaken(users: seq<User>, username: string) {
    exists u :: u in users && u.username == username
  }

  /** The table's constraints: primary keys ascending (rows are kept in key
      order), `email` unique, `username` unique. */
  predicate Unique(users: seq<User>) {
    forall i, j :: 0 <= i < j < |users| ==>
      users[i].id < users[j].id &&
      users[i].email != users[j].email &&
      users[i].username != users[j].username
  }

  /** Every key handed out so far is below the next one. */
  predicate Below(users: seq<User>, nextId: nat) {
    forall u :: u in users ==> u.id < nextId
  }

  /** What `create_user` returns or raises, given the table before the call. */
  function CreateUserOutcome(
    users: seq<User>, nextId: nat, email: string, password: Option<string>,
    fields: ExtraFields, env: Framework.Env): (r: Result<User, ManagerError>)
    ensures r == Err(EmailRequired) <==> email == ""
    ensures r == Err(PasswordRequired) <==> email != "" && !Filled(password)
    ensures r.Ok? <==>
      email != "" && Filled(password) &&
      !EmailTaken(users, env.normalizeEmail(email)) && !UsernameTaken(users, fields.username)
    ensures r.Ok? ==>
      r.value.id == nextId &&
      r.value.email == env.normalizeEmail(email) &&
      Framework.CheckPassword(env, r.value.passwordHash, password) &&
      r.value.username == fields.username &&
      r.value.firstName == fields.firstName && r.value.lastName == fields.lastName &&
      r.value.isStaff == fields.isStaff && r.value.isSuperuser == fields.isSuperuser &&
      r.value.isActive && r.value.avatar == ""
  {
    if email == "" then Err(EmailRequired)
    else if !Filled(password) then Err(PasswordRequired)
    else
      var normalized := env.normalizeEmail(email);
      if EmailTaken(users, normalized) || UsernameTaken(users, fields.username) then Err(UniqueViolation)
      else Ok(User(nextId, normalized, fields.username, fields.firstName, fields.lastName, "",
                   env.hashPassword(password.value), true, fields.isStaff, fields.isSuperuser))
  }

  /** What `create_superuser` returns or raises. A flag given as `Some(false)`
      stands for any supplied value other than `True`. */
  function CreateSuperuserOutcome(
    users: seq<User>, nextId: nat, email: string, password: Option<string>,
    isStaff: Option<bool>, isSuperuser: Option<bool>,
    username: string, firstName: string, lastName: string,
    env: Framework.Env): (r: Result<User, ManagerError>)
    // the flag checks come first, so they win over a missing email or password
    ensures r == Err(StaffRequired) <==> isStaff == Some(false)
    ensures r == Err(SuperuserRequired) <==> isStaff != Some(false) && isSuperuser == Some(false)
    // otherwise everything is decided by create_user, with both flags set
    ensures isStaff != Some(false) && isSuperuser != Some(false) ==>
      r == CreateUserOutcome(users, nextId, email, password,
                             ExtraFields(username, firstName, lastName, true, true), env)
    ensures r.Ok? ==> r.value.isStaff && r.value.isSuperuser
  {
    var staff := if isStaff.None? then true else isStaff.value;
    var superuser := if isSuperuser.None? then true else isSuperuser.value;
    if !staff then Err(StaffRequired)
    else if !superuser then Err(SuperuserRequired)
    else CreateUserOutcome(users, nextId, email, password,
                           ExtraFields(username, firstName, lastName, staff, superuser), env)
  }

  /** A successful `create_user` keeps the table's constraints. */
  lemma CreateUserKeepsUnique(
    users: seq<User>, nextId: nat, email: string, password: Option<string>,
    fields: ExtraFields, env: Framework.Env)
    requires Unique(users) && Below(users, nextId)
    requires CreateUserOutcome(users, nextId, email, password, fields, env).Ok?
    ensures var u := CreateUserOutcome(users, nextId, email, password, fields, env).value;
      Unique(users + [u]) && Below(users + [u], nextId + 1)
  {
    var u := CreateUserOutcome(users, nextId, email, password, fields, env).value;
    var s := users + [u];
    forall i, j | 0 <= i < j < |s|
      ensures s[i].id < s[j].id && s[i].email != s[j].email && s[i].username != s[j].username
    {
      if j == |users| {
        assert s[i] in users;
      }
    }
  }

  /** The table after `user.delete()`: the row with key `id` is gone, the rest keep their order. */
  function Without(users: seq<User>, id: nat): (r: seq<User>)
    ensures forall u :: u in r <==> u in users && u.id != id
    ensures |r| <= |users|
  {
    if users == [] then []
    else if users[0].id == id then Without(users[1..], id)
    else [users[0]] + Without(users[1..], id)
  }

  /** Deleting a row keeps the constraints. */
  lemma {:induction false} WithoutKeepsUnique(users: seq<User>, id: nat)
    requires Unique(users)
    ensures Unique(Without(users, id))
  {
    if users != [] {
      WithoutKeepsUnique(users[1..], id);
      var rest := Without(users[1..], id);
      if users[0].id != id {
        var s := [users[0]] + rest;
        forall i, j | 0 <= i < j < |s|
          ensures s[i].id < s[j].id && s[i].email != s[j].email && s[i].username != s[j].username
        {
          if i == 0 {
            assert s[j] in users[1..];
          }
        }
      }
    }
  }

  /** The table after `serializer.save()` on an existing user: the row with the
      same key is replaced by `user`. */
  function Replace(users: seq<User>, user: User): (r: seq<User>)
    ensures |r| == |users|
    ensures forall i :: 0 <= i < |users| ==>
      r[i] == if users[i].id == user.id then user else users[i]
  {
    if users == [] then []
    else [if users[0].id == user.id then user else users[0]] + Replace(users[1..], user)
  }

  /** `user` may take the place of the row with its key: no other row has its
      email or username. */
  predicate FitsAmong(users: seq<User>, user: User) {
    forall v :: v in users && v.id != user.id ==> v.email != user.email && v.username != user.username
  }

  lemma ReplaceKeepsUnique(users: seq<User>, user: User)
    requires Unique(users) && FitsAmong(users, user)
    ensures Unique(Replace(users, user))
  {
    var r := Replace(users, user);
    forall i, j | 0 <= i < j < |r|
      ensures r[i].id < r[j].id && r[i].email != r[j].email && r[i].username != r[j].username
    {
      assert users[i] in users && users[j] in users;
    }
  }

  /** Replacing a row by one with a key already handed out keeps every key
      below the next one. */
  lemma ReplaceKeepsBelow(users: seq<User>, user: User, nextId: nat)
    requires Below(users, nextId) && user.id < nextId
    ensures Below(Replace(users, user), nextId)
  {
    var r := Replace(users, user);
    forall u | u in r ensures u.id < nextId {
      var i :| 0 <= i < |r| && r[i] == u;
      assert users[i] in users;
    }
  }

  /** The `users` table as the manager and the views change it. */
  class UserStore {
    var users: seq<User>
    var nextId: nat

    ghost predicate Valid()
      reads this
    {
      Unique(users) && Below(users, nextId)
    }

    constructor ()
      ensures Valid() && users == [] && nextId == 1
    {
      users := [];
      nextId := 1;
    }

    /** `CustomUsersManager.create_user`: guard the email, normalise it, build
        the user, guard and hash the password, then save the row. */
    method CreateUser(email: string, password: Option<string>, fields: ExtraFields, env: Framework.Env)
      returns (r: Result<User, ManagerError>)
      requires Valid()
      modifies this
      ensures Valid()
      ensures r == CreateUserOutcome(old(users), old(nextId), email, password, fields, env)
      ensures users == if r.Ok? then old(users) + [r.value] else old(users)
      ensures nextId == if r.Ok? then old(nextId) + 1 else old(nextId)
    {
      if email == "" {
        return Err(EmailRequired);
      }
      var normalized := env.normalizeEmail(email);
      var user := User(nextId, normalized, fields.username, fields.firstName, fields.lastName, "",
                       "", true, fields.isStaff, fields.isSuperuser);
      if Filled(password) {
        user := user.(passwordHash := env.hashPassword(password.value));
      } else {
        return Err(PasswordRequired);
      }
      if EmailTaken(users, normalized) || UsernameTaken(users, user.username) {
        return Err(UniqueViolation);
      }
      CreateUserKeepsUnique(users, nextId, email, password, fields, env);
      users := users + [user];
      nextId := nextId + 1;
      r := Ok(user);
    }

    /** `CustomUsersManager.create_superuser`: default both flags to True,
        refuse anything else, then delegate to `create_user`. */
    method CreateSuperuser(email: string, password: Option<string>,
                           isStaff: Option<bool>, isSuperuser: Option<bool>,
                           username: string, firstName: string, lastName: string, env: Framework.Env)
      returns (r: Result<User, ManagerError>)
      requires Valid()
      modifies this
      ensures Valid()
      ensures r == CreateSuperuserOutcome(old(users), old(nextId), email, password,
                                          isStaff, isSuperuser, username, firstName, lastName, env)
      ensures users == if r.Ok? then old(users) + [r.value] else old(users)
      ensures nextId == if r.Ok? then old(nextId) + 1 else old(nextId)
    {
      var staff := if isStaff.None? then true else isStaff.value;
      var superuser := if isSuperuser.None? then true else isSuperuser.value;
      if !staff {
        return Err(StaffRequired);
      }
      if !superuser {
        return Err(SuperuserRequired);
      }
      r := CreateUser(email, password, ExtraFields(username, firstName, lastName, staff, superuser), env);
    }

    /** `user.delete()`. */
    method Delete(id: nat)
      requires Valid()
      modifies this
      ensures Valid()
      ensures users == Without(old(users), id) && nextId == old(nextId)
    {
      WithoutKeepsUnique(users, id);
      users := Without(users, id);
    }

    /** `serializer.save()` of an update: the row keyed `user.id` becomes `user`. */
    method Update(user: User)
      requires Valid()
      requires FitsAmong(users, user)
      modifies this
      ensures Valid()
      ensures users == Replace(old(users), user) && nextId == old(nextId)
    {
      ReplaceKeepsUnique(users, user);
      users := Replace(users, user);
    }
  }

  /** `__str__`: a user shows as its email. */
  function Str(u: User): (s: string)
    ensures s == u.email
  {
    u.email
  }

  /** The email is the login field and is unique, so the display string tells
      users of one table apart. */
  lemma StrIdentifiesUser(users: seq<User>, i: nat, j: nat)
    requires Unique(users) && i < |users| && j < |users|
    ensures Str(users[i]) == Str(users[j]) <==> i == j
  {
    if i < j {
      assert users[i].email != users[j].email;
    } else if j < i {
      assert users[j].email != users[i].email;
    }
  }

  /** `get_avatar_url`: the media URL of the avatar, or the default picture. */
  function AvatarUrl(u: User): (url: string)
    ensures StartsWith(url, "/")
    ensures url == DefaultAvatar <==> u.avatar == ""
    ensures u.avatar != "" ==> url == Settings.MediaUrl + u.avatar
    ensures u.avatar != "" ==> StartsWith(url, Settings.MediaUrl) && EndsWith(url, u.avatar)
  {
    if u.avatar != "" then
      var url := Settings.MediaUrl + u.avatar;
      assert url[..|Settings.MediaUrl|] == Settings.MediaUrl;
      assert url[|url| - |u.avatar|..] == u.avatar;
      assert url[1] == 'm' != DefaultAvatar[1];
      url
    else DefaultAvatar
  }
}

/** The client's session state (`frontend/src/context/AuthProvider.tsx`): the
    three state cells `user`, `isAuthenticated` and `loading`, the two
    transitions `refreshUser` and `clearAuth`, the refresh the provider runs
    when it mounts, and the `useAuth` guard. Each awaited call is one atomic
    step; React's scheduling is not part of this model. */
module AuthProvider {
  import opened Common
  import AuthApi

  /** The state cells; `user` is `JNull` for `null`. */
  datatype Session = Session(user: Json, isAuthenticated: bool, loading: bool)

  /** The `useState` initial values. */
  const Initial: Session := Session(JNull, false, true)

  /** `refreshUser`, given how its `getUser` call settles: the payload and
      `isAuthenticated` on success, a cleared session on any failure, and
      `loading` off either way. */
  function AfterRefresh(s: Session, t: AuthApi.Transport): (r: Session)
    ensures r.isAuthenticated <==> t.Delivered?
    ensures t.Delivered? ==> r.user == t.data
    ensures !t.Delivered? ==> r.user == JNull
    ensures !r.loading
  {
    match AuthApi.Settle(AuthApi.GetUserOp, t)
    case Resolved(v) => Session(if v.Some? then v.value else JNull, true, false)
    case Threw(_) => Session(JNull, false, false)
  }

  /** `clearAuth`: signed out, `loading` untouched. */
  function AfterClear(s: Session): (r: Session)
    ensures r.user == JNull && !r.isAuthenticated && r.loading == s.loading
  {
    s.(user := JNull, isAuthenticated := false)
  }

  /** Clearing twice is clearing once. */
  lemma ClearIsIdempotent(s: Session)
    ensures AfterClear(AfterClear(s)) == AfterClear(s)
  {
  }

  /** Something the application does to the provider. */
  datatype Event = Refresh(outcome: AuthApi.Transport) | Clear

  function Step(s: Session, e: Event): Session {
    match e
    case Refresh(t) => AfterRefresh(s, t)
    case Clear => AfterClear(s)
  }

  /** The session after a sequence of events, first to last. */
  function Run(s: Session, events: seq<Event>): Session
    decreases |events|
  {
    if events == [] then s else Run(Step(s, events[0]), events[1..])
  }

  /** Nothing turns `loading` back on. */
  lemma {:induction false} LoadingStaysOff(s: Session, events: seq<Event>)
    requires !s.loading
    ensures !Run(s, events).loading
    decreases |events|
  {
    if events != [] {
      LoadingStaysOff(Step(s, events[0]), events[1..]);
    }
  }

  /** From the initial state, `loading` is on exactly until the first refresh. */
  lemma {:induction false} LoadingUntilFirstRefresh(s: Session, events: seq<Event>)
    requires s.loading
    ensures Run(s, events).loading <==> forall i :: 0 <= i < |events| ==> events[i].Clear?
    decreases |events|
  {
    if events != [] {
      var next := Step(s, events[0]);
      if events[0].Clear? {
        LoadingUntilFirstRefresh(next, events[1..]);
        assert forall i :: 1 <= i < |events| ==> events[i] == events[1..][i - 1];
      } else {
        LoadingStaysOff(next, events[1..]);
      }
    }
  }

  /** A signed-out session holds no user. */
  predicate Consistent(s: Session) {
    !s.isAuthenticated ==> s.user == JNull
  }

  lemma {:induction false} RunKeepsConsistent(s: Session, events: seq<Event>)
    requires Consistent(s)
    ensures Consistent(Run(s, events))
    decreases |events|
  {
    if events != [] {
      RunKeepsConsistent(Step(s, events[0]), events[1..]);
    }
  }

  /** The session reflects the last refresh: after a refresh followed only by
      clears, it is signed in exactly when that refresh succeeded and no
      clear came after it. */
  lemma {:induction false} LastRefreshDecides(s: Session, t: AuthApi.Transport, clears: nat)
    ensures var r := Run(s, [Refresh(t)] + seq(clears, _ => Clear));
      !r.loading && (r.isAuthenticated <==> t.Delivered? && clears == 0)
    decreases clears
  {
    if clears > 0 {
      var es := [Refresh(t)] + seq(clears, _ => Clear);
      assert es[1..] == seq(clears, _ => Clear);
      ClearsKeepSignedOut(AfterClear(AfterRefresh(s, t)), clears - 1);
      assert seq(clears, _ => Clear)[1..] == seq(clears - 1, _ => Clear);
      LoadingStaysOff(AfterRefresh(s, t), seq(clears, _ => Clear));
    }
  }

  lemma {:induction false} ClearsKeepSignedOut(s: Session, n: nat)
    requires !s.isAuthenticated
    ensures !Run(s, seq(n, _ => Clear)).isAuthenticated
    decreases n
  {
    if n > 0 {
      assert seq(n, _ => Clear)[1..] == seq(n - 1, _ => Clear);
      ClearsKeepSignedOut(AfterClear(s), n - 1);
    }
  }

  /** `useAuth`: the context value, or the error it throws outside a provider. */
  const OutsideProvider: string := "useAuth must be used within an AuthProvider"

  function UseAuth(context: Option<Session>): (r: Result<Session, string>)
    ensures r.Err? <==> context.None?
    ensures r.Err? ==> r.error == OutsideProvider
    ensures r.Ok? ==> r.value == context.value
  {
    match context
    case None => Err(OutsideProvider)
    case Some(session) => Ok(session)
  }

  /** The mounted provider component and its state cells. */
  class Provider {
    var user: Json
    var isAuthenticated: bool
    var loading: bool
    // whether the mount effect has run
    var mounted: bool
    // how many times `refreshUser` has run
    ghost var refreshes: nat

    function State(): Session
      reads this
    {
      Session(user, isAuthenticated, loading)
    }

    constructor ()
      ensures State() == Initial && !mounted && refreshes == 0
    {
      user := JNull;
      isAuthenticated := false;
      loading := true;
      mounted := false;
      refreshes := 0;
    }

    /** `refreshUser`: `getUser`, then the setters of the branch taken, then
        `setLoading(false)` in `finally`. */
    method RefreshUser(t: AuthApi.Transport)
      modifies this
      ensures State() == AfterRefresh(old(State()), t)
      ensures mounted == old(mounted) && refreshes == old(refreshes) + 1
    {
      var settled := AuthApi.Settle(AuthApi.GetUserOp, t);
      if settled.Resolved? {
        user := if settled.value.Some? then settled.value.value else JNull;
        isAuthenticated := true;
      } else {
        user := JNull;
        isAuthenticated := false;
      }
      loading := false;
      refreshes := refreshes + 1;
    }

    /** `clearAuth`. */
    method ClearAuth()
      modifies this
      ensures State() == AfterClear(old(State()))
      ensures mounted == old(mounted) && refreshes == old(refreshes)
    {
      user := JNull;
      isAuthenticated := false;
    }

    /** The mount effect: its dependency list is empty, so it runs once, and
        it runs `refreshUser`. */
    method Mount(t: AuthApi.Transport)
      requires !mounted
      modifies this
      ensures mounted
      ensures State() == AfterRefresh(old(State()), t)
      ensures refreshes == old(refreshes) + 1
    {
      RefreshUser(t);
      mounted := true;
    }
  }

  /** A freshly mounted provider has run `refreshUser` exactly once and holds
      what that refresh found. */
  method MountProvider(t: AuthApi.Transport) returns (p: Provider)
    ensures fresh(p) && p.mounted && p.refreshes == 1
    ensures p.State() == AfterRefresh(Initial, t)
  {
    p := new Provider();
    p.Mount(t);
  }
}

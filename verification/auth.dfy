/** How the four front-end surfaces keep their signed-in user in step with the auth
    service: the Dashboard and Profile pages (a `UserProfile` record built from the
    session user), the Chat component (the session user itself) and the BlindSpot
    landing component (no user state, only a decision to go to `/Dashboard`). Every
    handler is one atomic transition; the auth service's answers are inputs. */
module Auth {
  import opened Wrappers

  /** `user_metadata`, reduced to the two fields the pages read. */
  datatype Metadata = Metadata(fullName: Option<string>, avatarUrl: Option<string>)

  /** `{}`: metadata with no fields. */
  const EmptyMetadata := Metadata(None, None)

  /** The auth service's user object. */
  datatype SessionUser = SessionUser(id: string, email: Option<string>, metadata: Option<Metadata>)

  /** A session, which may or may not carry a user. */
  datatype Session = Session(user: Option<SessionUser>)

  /** The `UserProfile` record Dashboard and Profile keep. */
  datatype UserRecord = UserRecord(id: string, email: string, metadata: Metadata)

  /** The events `onAuthStateChange` reports. */
  datatype AuthEvent =
    | InitialSession | SignedIn | SignedOut | TokenRefreshed | UserUpdated | PasswordRecovery | MfaChallengeVerified

  /** What `getSession()` did: resolved with a session or `null`, or threw. */
  datatype Probe = ProbeResolved(session: Option<Session>) | ProbeThrew

  /** What `signOut()` did: resolved, or threw. */
  datatype SignOutOutcome = SignOutResolved | SignOutThrew

  /** `session?.user`. */
  function UserOf(session: Option<Session>): Option<SessionUser> {
    if session.Some? then session.value.user else None
  }

  /** `{id, email: user.email || '', user_metadata: user.user_metadata || {}}`. */
  function ToRecord(u: SessionUser): (r: UserRecord)
    ensures r.id == u.id
    ensures r.email == (if u.email.Some? then u.email.value else "")
    ensures r.metadata == (if u.metadata.Some? then u.metadata.value else EmptyMetadata)
  {
    UserRecord(u.id, u.email.GetOr(""), u.metadata.GetOr(EmptyMetadata))
  }

  function MapOption<T, U>(f: T -> U, o: Option<T>): Option<U> {
    match o
    case None => None
    case Some(v) => Some(f(v))
  }

  // ---------------------------------------------------------------------------
  // Dashboard and Profile

  /** `fetchUser` on mount: a session user replaces the state; a missing user and a
      thrown error leave it as it was. */
  function PageProbe(st: Option<UserRecord>, p: Probe): (r: Option<UserRecord>)
    ensures st.Some? ==> r.Some?
    ensures p.ProbeResolved? && UserOf(p.session).Some? ==> r == Some(ToRecord(UserOf(p.session).value))
    ensures p.ProbeThrew? || UserOf(p.session).None? ==> r == st
  {
    match p
    case ProbeThrew => st
    case ProbeResolved(s) => if UserOf(s).Some? then Some(ToRecord(UserOf(s).value)) else st
  }

  /** The `onAuthStateChange` handler: whatever the event, a session user becomes the
      state and anything else clears it. */
  function PageEvent(st: Option<UserRecord>, e: AuthEvent, session: Option<Session>): (r: Option<UserRecord>)
    ensures r.Some? <==> UserOf(session).Some?
    ensures r.Some? ==> r.value == ToRecord(UserOf(session).value)
  {
    MapOption(ToRecord, UserOf(session))
  }

  /** Outcome of `handleSignOut`: the new state and where the router is sent. */
  datatype SignOutResult<T> = SignOutResult(user: Option<T>, navigateTo: Option<string>)

  /** `handleSignOut`: only a resolved `signOut()` clears the user and goes to `/`; a
      throw leaves everything unchanged. */
  function PageSignOut(st: Option<UserRecord>, o: SignOutOutcome): (r: SignOutResult<UserRecord>)
    ensures r.user == None <==> (o.SignOutResolved? || st == None)
    ensures r.navigateTo.Some? <==> o.SignOutResolved?
    ensures r.navigateTo.Some? ==> r.navigateTo.value == "/"
    ensures o.SignOutThrew? ==> r.user == st
  {
    SignOutResult(SignOutUser(st, o), if o.SignOutResolved? then Some("/") else None)
  }

  /** The user after a sign-out, shared by Dashboard `handleLogout` and Chat
      `handleSignOut`: only a resolved `signOut()` clears it. `handleLogout` has no
      `catch`, so a throw abandons it before the user is cleared; Chat's handler
      catches the throw and likewise leaves the user. */
  function SignOutUser<T>(st: Option<T>, o: SignOutOutcome): (r: Option<T>)
    ensures r == None <==> (o.SignOutResolved? || st == None)
    ensures o.SignOutThrew? ==> r == st
  {
    match o
    case SignOutResolved => None
    case SignOutThrew => st
  }

  /** One input to a page: the mount probe, an auth event, or a sign-out. */
  datatype PageInput =
    | MountProbe(probe: Probe)
    | Event(event: AuthEvent, session: Option<Session>)
    | SignOut(outcome: SignOutOutcome)

  function PageStep(st: Option<UserRecord>, i: PageInput): Option<UserRecord> {
    match i
    case MountProbe(p) => PageProbe(st, p)
    case Event(e, s) => PageEvent(st, e, s)
    case SignOut(o) => PageSignOut(st, o).user
  }

  function PageRun(st: Option<UserRecord>, ins: seq<PageInput>): Option<UserRecord>
    decreases |ins|
  {
    if ins == [] then st else PageRun(PageStep(st, ins[0]), ins[1..])
  }

  /** The session user an input delivers, if any. */
  function Delivered(i: PageInput): Option<SessionUser> {
    match i
    case MountProbe(p) => if p.ProbeResolved? then UserOf(p.session) else None
    case Event(_, s) => UserOf(s)
    case SignOut(_) => None
  }

  /** A page never makes up a user: after any inputs the state is the initial one or
      the record of a session user some input delivered. */
  lemma {:induction false} PageUserProvenance(st: Option<UserRecord>, ins: seq<PageInput>)
    ensures var r := PageRun(st, ins);
      r.None? || r == st || exists k :: 0 <= k < |ins| && Delivered(ins[k]).Some? && r.value == ToRecord(Delivered(ins[k]).value)
    decreases |ins|
  {
    if ins != [] {
      var next := PageStep(st, ins[0]);
      PageUserProvenance(next, ins[1..]);
      var r := PageRun(st, ins);
      assert r == PageRun(next, ins[1..]);
      if r.Some? && r != st {
        if r == next {
          assert Delivered(ins[0]).Some? && r.value == ToRecord(Delivered(ins[0]).value);
        } else {
          var k :| 0 <= k < |ins[1..]| && Delivered(ins[1..][k]).Some? && r.value == ToRecord(Delivered(ins[1..][k]).value);
          assert ins[k + 1] == ins[1..][k];
        }
      }
    }
  }

  // ---------------------------------------------------------------------------
  // Chat

  /** What `getUser()` did: resolved with a user (or `null`) and an error flag, or threw. */
  datatype GetUserOutcome = GotUser(user: Option<SessionUser>, error: bool) | GetUserThrew

  /** Chat `fetchUser`: no session clears the user without asking `getUser`; an error,
      a missing user or a throw clears it; otherwise the fetched user is kept. The
      previous state never matters. */
  function ChatProbe(p: Probe, g: GetUserOutcome): (r: Option<SessionUser>)
    ensures p.ProbeThrew? || p.session.None? ==> r == None
    ensures p.ProbeResolved? && p.session.Some? ==>
      r == (if g.GotUser? && !g.error then g.user else None)
  {
    match p
    case ProbeThrew => None
    case ProbeResolved(s) =>
      if s.None? then None
      else
        match g
        case GetUserThrew => None
        case GotUser(u, err) => if err || u.None? then None else u
  }

  /** `getUser` is not consulted when there is no session. */
  lemma ChatProbeSkipsGetUser(p: Probe, g1: GetUserOutcome, g2: GetUserOutcome)
    requires p.ProbeThrew? || p.session.None?
    ensures ChatProbe(p, g1) == ChatProbe(p, g2) == None
  {
  }

  /** The Chat `onAuthStateChange` handler: the session user, or `null`. */
  function ChatEvent(st: Option<SessionUser>, e: AuthEvent, session: Option<Session>): (r: Option<SessionUser>)
    ensures r == UserOf(session)
  {
    if UserOf(session).Some? then UserOf(session) else None
  }

  /** What `signInWithOAuth` did: no error, an error result, or a throw. */
  datatype SignInOutcome = SignInOk | SignInError(message: string) | SignInThrew

  /** Chat `handleGoogleSignIn`: the successive values of `isLoading`, and whether an
      error was logged. The `finally` block resets the flag on every outcome. */
  function ChatSignIn(o: SignInOutcome): (r: (seq<bool>, bool))
    ensures |r.0| >= 2 && r.0[0] && !r.0[|r.0| - 1]
    ensures r.1 <==> !o.SignInOk?
  {
    var logged := match o
      case SignInOk => false
      case SignInError(_) => true
      case SignInThrew => true;
    ([true, false], logged)
  }

  /** A run of auth events on a surface. */
  function PageEvents(st: Option<UserRecord>, evs: seq<(AuthEvent, Option<Session>)>): Option<UserRecord>
    decreases |evs|
  {
    if evs == [] then st else PageEvents(PageEvent(st, evs[0].0, evs[0].1), evs[1..])
  }

  function ChatEvents(st: Option<SessionUser>, evs: seq<(AuthEvent, Option<Session>)>): Option<SessionUser>
    decreases |evs|
  {
    if evs == [] then st else ChatEvents(ChatEvent(st, evs[0].0, evs[0].1), evs[1..])
  }

  /** Once at least one auth event has arrived, Dashboard's user is exactly the record of
      Chat's user, whatever either held before. */
  lemma {:induction false} EventsAgree(sp: Option<UserRecord>, sc: Option<SessionUser>, evs: seq<(AuthEvent, Option<Session>)>)
    requires evs != []
    ensures PageEvents(sp, evs) == MapOption(ToRecord, ChatEvents(sc, evs))
    ensures PageEvents(sp, evs) == MapOption(ToRecord, UserOf(evs[|evs| - 1].1))
    decreases |evs|
  {
    var sp' := PageEvent(sp, evs[0].0, evs[0].1);
    var sc' := ChatEvent(sc, evs[0].0, evs[0].1);
    if |evs| > 1 {
      EventsAgree(sp', sc', evs[1..]);
      assert evs[1..][|evs[1..]| - 1] == evs[|evs| - 1];
    }
  }

  /** The surfaces disagree on a failed probe: a thrown `getSession()` leaves the
      Dashboard's user in place but clears Chat's. */
  lemma ProbeDisagreement(rec: UserRecord, g: GetUserOutcome)
    ensures PageProbe(Some(rec), ProbeThrew) == Some(rec)
    ensures ChatProbe(ProbeThrew, g) == None
  {
  }

  // ---------------------------------------------------------------------------
  // BlindSpot

  const DashboardPath := "/Dashboard"

  /** `checkSession`: go to the Dashboard iff the probed session has a user. A throw is
      not caught, so the handler stops without navigating. */
  function CheckSession(p: Probe): (r: Option<string>)
    ensures r.Some? <==> p.ProbeResolved? && UserOf(p.session).Some?
    ensures r.Some? ==> r.value == DashboardPath
  {
    if p.ProbeResolved? && UserOf(p.session).Some? then Some(DashboardPath) else None
  }

  /** The BlindSpot `onAuthStateChange` handler: go to the Dashboard iff the event is
      `SIGNED_IN` and the session has a user. */
  function BlindSpotEvent(e: AuthEvent, session: Option<Session>): (r: Option<string>)
    ensures r.Some? <==> e == SignedIn && UserOf(session).Some?
    ensures r.Some? ==> r.value == DashboardPath
  {
    if e == SignedIn && UserOf(session).Some? then Some(DashboardPath) else None
  }

  /** BlindSpot `handleGoogleSignIn`: the component holds no state, so the only effect
      is the line logged on failure. */
  function BlindSpotSignIn(o: SignInOutcome): (logged: Option<string>)
    ensures logged.None? <==> o.SignInOk?
    ensures o.SignInError? ==> logged == Some("Google Sign-In Error: " + o.message)
  {
    match o
    case SignInOk => None
    case SignInError(msg) => Some("Google Sign-In Error: " + msg)
    case SignInThrew => Some("Unexpected Sign-In Error:")
  }

  /** Whenever BlindSpot sends the user to the Dashboard on an event, the Dashboard's own
      handler for that event sets a user; events other than `SIGNED_IN` that carry a
      user update the Dashboard but never navigate. */
  lemma NavigationImpliesUser(st: Option<UserRecord>, e: AuthEvent, session: Option<Session>)
    ensures BlindSpotEvent(e, session).Some? ==> PageEvent(st, e, session).Some?
    ensures e != SignedIn ==> BlindSpotEvent(e, session).None?
    ensures e != SignedIn && UserOf(session).Some? ==> PageEvent(st, e, session).Some? && BlindSpotEvent(e, session).None?
  {
  }
}

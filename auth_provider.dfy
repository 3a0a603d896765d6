/**
 * The authorization context: six state fields that the session-change listener and the
 * initial session check overwrite. A lookup round (the two role procedure calls and the
 * profile lookup) is one atomic step whose outcome is an input; the deferral to a later
 * turn of the event loop is represented by the entry points reporting that a round is due.
 */
module Auth {
  import opened Optional
  import opened Backend

  /** The context value every consumer reads. */
  datatype AuthState = AuthState(
    user: Option<AuthUser>,
    session: Option<Session>,
    isAdmin: bool,
    isOverseer: bool,
    loading: bool,
    displayName: Option<string>)

  /** The state before any entry point has run. */
  const Initial := AuthState(None, None, false, false, true, None)

  /** `session?.user ?? null`. */
  function UserOf(session: Option<Session>): Option<AuthUser> {
    if session.Some? then session.value.user else None
  }

  /**
   * How a lookup round ends: the three settled `{ data, error }` replies of `is_admin`,
   * `is_overseer` and the display-name lookup, or an exception thrown while awaiting them.
   */
  datatype Lookups =
    | Settled(admin: Reply<bool>, overseer: Reply<bool>, profile: Reply<DisplayNameRow>)
    | Threw

  /** The synchronous part of the session-change listener. */
  function SessionChanged(a: AuthState, session: Option<Session>): (r: AuthState)
    ensures r.session == session && r.user == UserOf(session)
    ensures UserOf(session).None? ==> !r.isAdmin && !r.isOverseer && r.displayName == None && !r.loading
    ensures UserOf(session).Some? ==>
      r.isAdmin == a.isAdmin && r.isOverseer == a.isOverseer && r.displayName == a.displayName && r.loading == a.loading
  {
    var a := a.(session := session, user := UserOf(session));
    if UserOf(session).Some? then a
    else a.(isAdmin := false, isOverseer := false, displayName := None, loading := false)
  }

  /** The synchronous part of the initial session check: with no user it only clears `loading`. */
  function InitialSession(a: AuthState, session: Option<Session>): (r: AuthState)
    ensures r.session == session && r.user == UserOf(session)
    ensures r.isAdmin == a.isAdmin && r.isOverseer == a.isOverseer && r.displayName == a.displayName
    ensures r.loading == (a.loading && UserOf(session).Some?)
  {
    var a := a.(session := session, user := UserOf(session));
    if UserOf(session).Some? then a else a.(loading := false)
  }

  /** `reply.data || false` for a procedure answering a boolean or `null`. */
  function Flag(reply: Reply<bool>): bool {
    reply.data == Some(true)
  }

  /** A lookup round's effect, shared by both entry points. */
  function Resolve(a: AuthState, lookups: Lookups): (r: AuthState)
    ensures !r.loading && r.user == a.user && r.session == a.session
    ensures lookups.Threw? ==> !r.isAdmin && !r.isOverseer && r.displayName == None
    ensures lookups.Settled? ==>
      r.isAdmin == (if lookups.admin.error.None? then lookups.admin.data == Some(true) else a.isAdmin) &&
      r.isOverseer == (if lookups.overseer.error.None? then lookups.overseer.data == Some(true) else a.isOverseer)
    ensures lookups.Settled? ==>
      r.displayName ==
        (if lookups.profile.error.None? && lookups.profile.data.Some?
         then lookups.profile.data.value.display_name else a.displayName)
  {
    match lookups
    case Threw => a.(isAdmin := false, isOverseer := false, displayName := None, loading := false)
    case Settled(admin, overseer, profile) =>
      var a := if admin.error.None? then a.(isAdmin := Flag(admin)) else a;
      var a := if overseer.error.None? then a.(isOverseer := Flag(overseer)) else a;
      var a := if profile.error.None? && profile.data.Some? then a.(displayName := profile.data.value.display_name) else a;
      a.(loading := false)
  }

  class AuthProvider {
    var user: Option<AuthUser>
    var session: Option<Session>
    var isAdmin: bool
    var isOverseer: bool
    var loading: bool
    var displayName: Option<string>

    function State(): AuthState
      reads this
    {
      AuthState(user, session, isAdmin, isOverseer, loading, displayName)
    }

    constructor ()
      ensures State() == Initial
    {
      user, session := None, None;
      isAdmin, isOverseer := false, false;
      loading := true;
      displayName := None;
    }

    /** The session-change listener; `resolving` says a lookup round has been scheduled. */
    method OnAuthStateChange(newSession: Option<Session>) returns (resolving: bool)
      modifies this
      ensures State() == SessionChanged(old(State()), newSession)
      ensures resolving <==> UserOf(newSession).Some?
    {
      session := newSession;
      user := UserOf(newSession);
      resolving := user.Some?;
      if !resolving {
        isAdmin := false;
        isOverseer := false;
        displayName := None;
        loading := false;
      }
    }

    /** The handler of the initial session check; `resolving` says a lookup round has been scheduled. */
    method OnInitialSession(found: Option<Session>) returns (resolving: bool)
      modifies this
      ensures State() == InitialSession(old(State()), found)
      ensures resolving <==> UserOf(found).Some?
    {
      session := found;
      user := UserOf(found);
      resolving := user.Some?;
      if !resolving {
        loading := false;
      }
    }

    /** The deferred lookup round: each flag is taken from its reply unless that reply carries an error. */
    method ApplyLookups(lookups: Lookups)
      modifies this
      ensures State() == Resolve(old(State()), lookups)
    {
      match lookups {
        case Settled(admin, overseer, profile) =>
          if admin.error.None? {
            isAdmin := Flag(admin);
          }
          if overseer.error.None? {
            isOverseer := Flag(overseer);
          }
          if profile.error.None? && profile.data.Some? {
            displayName := profile.data.value.display_name;
          }
        case Threw =>
          isAdmin := false;
          isOverseer := false;
          displayName := None;
      }
      loading := false;
    }
  }

  // ---------------------------------------------------------------------------------------
  // Runs of the state machine
  // ---------------------------------------------------------------------------------------

  /** One thing that can happen to the context. */
  datatype Step =
    | AuthStateChange(session: Option<Session>)
    | InitialSessionFound(session: Option<Session>)
    | LookupsDone(lookups: Lookups)

  function Apply(a: AuthState, step: Step): AuthState {
    match step
    case AuthStateChange(s) => SessionChanged(a, s)
    case InitialSessionFound(s) => InitialSession(a, s)
    case LookupsDone(l) => Resolve(a, l)
  }

  function Run(a: AuthState, steps: seq<Step>): AuthState
    decreases |steps|
  {
    if steps == [] then a else Run(Apply(a, steps[0]), steps[1..])
  }

  /** A step that ends loading: a finished lookup round, or an entry point that found no user. */
  predicate EndsLoading(step: Step) {
    step.LookupsDone? || UserOf(step.session).None?
  }

  /** `loading` is still true after a run exactly when it was true before and no step of the run ends loading. */
  lemma {:induction false} LoadingUntilSettled(a: AuthState, steps: seq<Step>)
    ensures Run(a, steps).loading <==> a.loading && forall i :: 0 <= i < |steps| ==> !EndsLoading(steps[i])
    decreases |steps|
  {
    if steps != [] {
      LoadingUntilSettled(Apply(a, steps[0]), steps[1..]);
      assert forall i :: 1 <= i < |steps| ==> steps[i] == steps[1..][i - 1];
    }
  }

  /** No step sets `loading` back to true. */
  lemma {:induction false} LoadingNeverResumes(a: AuthState, steps: seq<Step>)
    requires !a.loading
    ensures !Run(a, steps).loading
    decreases |steps|
  {
    if steps != [] {
      LoadingNeverResumes(Apply(a, steps[0]), steps[1..]);
    }
  }

  /** `user` always mirrors the user of `session`. */
  predicate Coherent(a: AuthState) {
    a.user == UserOf(a.session)
  }

  lemma {:induction false} RunKeepsCoherent(a: AuthState, steps: seq<Step>)
    requires Coherent(a)
    ensures Coherent(Run(a, steps))
    decreases |steps|
  {
    if steps != [] {
      RunKeepsCoherent(Apply(a, steps[0]), steps[1..]);
    }
  }

  /** With a user present the two entry points have the same synchronous effect; with none, only the listener resets the capabilities. */
  lemma EntryPointsCompared(a: AuthState, session: Option<Session>)
    ensures UserOf(session).Some? ==> SessionChanged(a, session) == InitialSession(a, session)
    ensures UserOf(session).None? && (a.isAdmin || a.isOverseer) ==> SessionChanged(a, session) != InitialSession(a, session)
  {
  }

  /** A lookup round whose admin call fails while the other two succeed keeps the overseer answer and the name, and leaves `isAdmin` as it was. */
  lemma PartialFailureTolerated(a: AuthState, err: DbError, overseer: bool, name: Option<string>)
    ensures var r := Resolve(a, Settled(Reply(None, Some(err)), Reply(Some(overseer), None), Reply(Some(DisplayNameRow(name)), None)));
      r.isAdmin == a.isAdmin && r.isOverseer == overseer && r.displayName == name && !r.loading
  {
  }
}

/**
 * The client-side authentication store of the recipe web app, as values.
 *
 * The store keeps a username -> password dictionary and a session (a login
 * flag and the current username) in memory, and writes them through to the
 * browser's string-keyed durable store under the keys `users`, `loggedIn`
 * and `currentUser`. This module describes one store state and each
 * operation as a function on it, so that properties of whole sequences of
 * operations can be stated as lemmas; module UseAuth holds the imperative
 * store that is proved to follow these functions.
 */
module AuthModel {
  import opened Wrappers

  /** Registered users: username -> plaintext password. */
  type Users = map<string, string>

  /** The three keys of the durable store that the auth store reads and writes;
      `None` means the key is absent. The `users` key holds a JSON object of
      strings, kept here as the map it encodes. */
  datatype Storage = Storage(users: Option<Users>, loggedIn: Option<string>, currentUser: Option<string>)

  /** The in-memory cells: the users dictionary and the session. */
  datatype Session = Session(users: Users, isLoggedIn: bool, currentUser: string)

  /** The whole store: in-memory cells and their durable copy. */
  datatype State = State(mem: Session, disk: Storage)

  /** What a mutator that answers with a boolean returns, with the state it leaves. */
  datatype Outcome = Outcome(ok: bool, state: State)

  /** The operations the store exposes to the UI. */
  datatype Op = Register(username: string, password: string) | Login(username: string, password: string) | Logout

  /** A durable store that holds none of the three keys (a first visit). */
  const EmptyStorage := Storage(None, None, None)

  /** The duplicate test of registration, JavaScript truthiness of `users[u]`:
      the key is present and its password is not the empty string. */
  predicate Taken(users: Users, u: string) {
    u in users && users[u] != ""
  }

  /** The credential test of login, `users[u] === p`: an absent key reads as
      `undefined`, which is strictly equal to no string. */
  predicate Matches(users: Users, u: string, p: string) {
    u in users && users[u] == p
  }

  /** The in-memory cells that initialisation builds from the durable store:
      logged in only when `loggedIn` holds exactly "true", the stored username
      or "", the stored dictionary or an empty one. */
  function Load(disk: Storage): Session {
    Session(disk.users.GetOr(map[]), disk.loggedIn == Some("true"), disk.currentUser.GetOr(""))
  }

  /** The memory agrees with its durable copy: reloading would rebuild it. */
  predicate Synced(st: State) {
    Load(st.disk) == st.mem
  }

  /** The session describes either nobody or a registered user. */
  predicate Coherent(m: Session) {
    (m.isLoggedIn ==> m.currentUser in m.users) && (!m.isLoggedIn ==> m.currentUser == "")
  }

  /** The store as initialisation leaves it, reading `disk`. */
  function Init(disk: Storage): (st: State)
    ensures st.disk == disk && Synced(st)
  {
    State(Load(disk), disk)
  }

  /** Writing the dictionary through to the `users` key. */
  function SaveUsers(disk: Storage, users: Users): Storage {
    disk.(users := Some(users))
  }

  function RegisterStep(st: State, u: string, p: string): Outcome {
    if Taken(st.mem.users, u) then Outcome(false, st)
    else
      var users := st.mem.users[u := p];
      Outcome(true, State(st.mem.(users := users), SaveUsers(st.disk, users)))
  }

  function LoginStep(st: State, u: string, p: string): Outcome {
    if Matches(st.mem.users, u, p) then
      Outcome(true, State(st.mem.(isLoggedIn := true, currentUser := u),
                          st.disk.(loggedIn := Some("true"), currentUser := Some(u))))
    else Outcome(false, st)
  }

  function LogoutStep(st: State): State {
    State(st.mem.(isLoggedIn := false, currentUser := ""), st.disk.(loggedIn := None, currentUser := None))
  }

  function Apply(st: State, op: Op): State {
    match op
    case Register(u, p) => RegisterStep(st, u, p).state
    case Login(u, p) => LoginStep(st, u, p).state
    case Logout => LogoutStep(st)
  }

  /** The state after performing `ops` in order, starting from `st`. */
  function Run(st: State, ops: seq<Op>): State
    decreases |ops|
  {
    if ops == [] then st else Run(Apply(st, ops[0]), ops[1..])
  }

  // ---------------------------------------------------------------------
  // Properties of single operations and of pairs of calls

  /** Logging out twice is logging out once. */
  lemma LogoutIdempotent(st: State)
    ensures LogoutStep(LogoutStep(st)) == LogoutStep(st)
  {
  }

  /** A username registered with a non-empty password cannot be registered
      again, and keeps its first password. */
  lemma RegisterTwiceKeepsFirst(st: State, u: string, p1: string, p2: string)
    requires RegisterStep(st, u, p1).ok && p1 != ""
    ensures !RegisterStep(RegisterStep(st, u, p1).state, u, p2).ok
    ensures RegisterStep(RegisterStep(st, u, p1).state, u, p2).state.mem.users[u] == p1
  {
  }

  /** A username registered with the empty password is not taken: a second
      registration succeeds and replaces the password. */
  lemma EmptyPasswordIsReplaced(st: State, u: string, p2: string)
    requires RegisterStep(st, u, "").ok
    ensures RegisterStep(RegisterStep(st, u, "").state, u, p2).ok
    ensures RegisterStep(RegisterStep(st, u, "").state, u, p2).state.mem.users[u] == p2
  {
  }

  /** Every operation keeps the memory in agreement with its durable copy. */
  lemma StepPreservesSynced(st: State, op: Op)
    requires Synced(st)
    ensures Synced(Apply(st, op))
  {
  }

  /** Every operation keeps the session coherent, and never forgets a username. */
  lemma StepPreservesCoherent(st: State, op: Op)
    requires Coherent(st.mem)
    ensures Coherent(Apply(st, op).mem)
    ensures st.mem.users.Keys <= Apply(st, op).mem.users.Keys
  {
  }

  // ---------------------------------------------------------------------
  // Properties of any sequence of operations

  /** Agreement of memory and durable copy holds after any sequence of operations. */
  lemma {:induction false} RunPreservesSynced(st: State, ops: seq<Op>)
    requires Synced(st)
    ensures Synced(Run(st, ops))
    decreases |ops|
  {
    if ops != [] {
      StepPreservesSynced(st, ops[0]);
      RunPreservesSynced(Apply(st, ops[0]), ops[1..]);
    }
  }

  /** Persistence round trip: from any durable store, after any sequence of
      operations, re-initialising from the durable store rebuilds exactly the
      in-memory users, login flag and current user. */
  lemma {:induction false} ReloadAfterRun(disk: Storage, ops: seq<Op>)
    ensures Init(Run(Init(disk), ops).disk) == Run(Init(disk), ops)
  {
    RunPreservesSynced(Init(disk), ops);
  }

  /** A coherent session stays coherent under any sequence of operations. */
  lemma {:induction false} RunPreservesCoherent(st: State, ops: seq<Op>)
    requires Coherent(st.mem)
    ensures Coherent(Run(st, ops).mem)
    decreases |ops|
  {
    if ops != [] {
      StepPreservesCoherent(st, ops[0]);
      RunPreservesCoherent(Apply(st, ops[0]), ops[1..]);
    }
  }

  /** No operation removes a user: the registered usernames only grow. */
  lemma {:induction false} RunKeepsUsernames(st: State, ops: seq<Op>)
    ensures st.mem.users.Keys <= Run(st, ops).mem.users.Keys
    decreases |ops|
  {
    if ops != [] {
      RunKeepsUsernames(Apply(st, ops[0]), ops[1..]);
    }
  }

  /** A username that holds a non-empty password keeps that password under
      any sequence of operations. */
  lemma {:induction false} RunKeepsTakenPassword(st: State, ops: seq<Op>, u: string)
    requires Taken(st.mem.users, u)
    ensures u in Run(st, ops).mem.users && Run(st, ops).mem.users[u] == st.mem.users[u]
    decreases |ops|
  {
    if ops != [] {
      RunKeepsTakenPassword(Apply(st, ops[0]), ops[1..], u);
    }
  }

  /** A user who registered with a non-empty password can log in with it after
      any later operations and a reload from the durable store. */
  lemma RegisteredUserLogsInAfterReload(st: State, u: string, p: string, ops: seq<Op>)
    requires Synced(st) && RegisterStep(st, u, p).ok && p != ""
    ensures LoginStep(Init(Run(RegisterStep(st, u, p).state, ops).disk), u, p).ok
  {
    var after := RegisterStep(st, u, p).state;
    RunKeepsTakenPassword(after, ops, u);
    StepPreservesSynced(st, Register(u, p));
    RunPreservesSynced(after, ops);
  }

  /** The empty username is an ordinary key: it can be registered and logged in. */
  lemma EmptyUsernameLogsIn(p: string)
    ensures RegisterStep(Init(EmptyStorage), "", p).ok
    ensures LoginStep(RegisterStep(Init(EmptyStorage), "", p).state, "", p).state.mem
         == Session(map["" := p], true, "")
  {
  }
}

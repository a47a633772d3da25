/**
 * The authentication store as the composable keeps it: mutable cells for the
 * users dictionary, the login flag and the current user, plus the durable
 * store's copy, updated in place by Register, Login and Logout. Each method
 * states its effect on every field and is tied to the step function of
 * AuthModel that it follows, so the lemmas there apply to all its runs.
 */
module UseAuth {
  import opened Wrappers
  import opened AuthModel

  class AuthStore {
    var users: Users
    var isLoggedIn: bool
    var currentUser: string
    /** The durable store's `users`, `loggedIn` and `currentUser` keys. */
    var storage: Storage

    /** The store's fields as an AuthModel state. */
    ghost function Snapshot(): State
      reads this
    {
      State(Session(users, isLoggedIn, currentUser), storage)
    }

    /** Memory and durable copy agree. */
    ghost predicate Valid()
      reads this
    {
      Synced(Snapshot())
    }

    /** Module initialisation: every cell is read from the durable store. */
    constructor InitFromStorage(stored: Storage)
      ensures storage == stored
      ensures isLoggedIn <==> stored.loggedIn == Some("true")
      ensures currentUser == if stored.currentUser.Some? then stored.currentUser.value else ""
      ensures users == if stored.users.Some? then stored.users.value else map[]
      ensures Snapshot() == Init(stored) && Valid()
    {
      isLoggedIn := stored.loggedIn == Some("true");
      currentUser := stored.currentUser.GetOr("");
      users := stored.users.GetOr(map[]);
      storage := stored;
    }

    /** Writes the whole dictionary to the `users` key. */
    method SaveUsers()
      modifies this`storage
      ensures storage == old(storage).(users := Some(users))
      ensures storage == AuthModel.SaveUsers(old(storage), users)
    {
      storage := storage.(users := Some(users));
    }

    /** Adds `username` unless it already holds a non-empty password. */
    method Register(username: string, password: string) returns (ok: bool)
      modifies this`users, this`storage
      ensures ok <==> !Taken(old(users), username)
      ensures !ok ==> users == old(users) && storage == old(storage)
      ensures ok ==> users == old(users)[username := password]
      ensures ok ==> storage == old(storage).(users := Some(users))
      ensures isLoggedIn == old(isLoggedIn) && currentUser == old(currentUser)
      ensures storage.loggedIn == old(storage.loggedIn) && storage.currentUser == old(storage.currentUser)
      ensures ok == RegisterStep(old(Snapshot()), username, password).ok
      ensures Snapshot() == RegisterStep(old(Snapshot()), username, password).state
      ensures old(Valid()) ==> Valid()
      ensures old(Coherent(Snapshot().mem)) ==> Coherent(Snapshot().mem)
    {
      if username in users && users[username] != "" {
        return false;
      }
      users := users[username := password];
      SaveUsers();
      return true;
    }

    /** Starts a session for `username` when `password` is exactly its stored password. */
    method Login(username: string, password: string) returns (ok: bool)
      modifies this`isLoggedIn, this`currentUser, this`storage
      ensures ok <==> username in users && users[username] == password
      ensures ok ==> isLoggedIn && currentUser == username
      ensures ok ==> storage == old(storage).(loggedIn := Some("true"), currentUser := Some(username))
      ensures !ok ==> isLoggedIn == old(isLoggedIn) && currentUser == old(currentUser) && storage == old(storage)
      ensures users == old(users)
      ensures ok == LoginStep(old(Snapshot()), username, password).ok
      ensures Snapshot() == LoginStep(old(Snapshot()), username, password).state
      ensures old(Valid()) ==> Valid()
      ensures old(Coherent(Snapshot().mem)) ==> Coherent(Snapshot().mem)
    {
      if username in users && users[username] == password {
        isLoggedIn := true;
        currentUser := username;
        storage := storage.(loggedIn := Some("true"));
        storage := storage.(currentUser := Some(username));
        return true;
      }
      return false;
    }

    /** Ends the session, whatever it was, and removes both session keys. */
    method Logout()
      modifies this`isLoggedIn, this`currentUser, this`storage
      ensures !isLoggedIn && currentUser == ""
      ensures storage == old(storage).(loggedIn := None, currentUser := None)
      ensures users == old(users)
      ensures Snapshot() == LogoutStep(old(Snapshot()))
      ensures old(Valid()) ==> Valid()
      ensures Coherent(Snapshot().mem)
    {
      isLoggedIn := false;
      currentUser := "";
      storage := storage.(loggedIn := None);
      storage := storage.(currentUser := None);
    }
  }

  /** A registration survives a page reload: a fresh store initialised from
      the durable copy accepts the same credentials. */
  method RegisterReloadLogin(stored: Storage, username: string, password: string)
    returns (registered: bool, loggedIn: bool)
    ensures registered ==> loggedIn
  {
    var before := new AuthStore.InitFromStorage(stored);
    registered := before.Register(username, password);
    var after := new AuthStore.InitFromStorage(before.storage);
    loggedIn := after.Login(username, password);
  }

  /** The class follows the trace semantics: a register / login / logout run
      on a store object ends in the state `Run` gives for the same operations. */
  method RegisterLoginLogoutFollowsRun(stored: Storage, username: string, password: string)
    returns (users: Users, isLoggedIn: bool, currentUser: string, storage: Storage)
    ensures State(Session(users, isLoggedIn, currentUser), storage)
         == Run(Init(stored), [Register(username, password), Login(username, password), Logout])
  {
    var ops := [Register(username, password), Login(username, password), Logout];
    var auth := new AuthStore.InitFromStorage(stored);
    var _ := auth.Register(username, password);
    assert Run(Init(stored), ops) == Run(auth.Snapshot(), ops[1..]);
    var _ := auth.Login(username, password);
    assert Run(Init(stored), ops) == Run(auth.Snapshot(), ops[2..]);
    auth.Logout();
    assert ops[2..] == [Logout] && ops[2..][1..] == [];
    assert Run(Init(stored), ops) == Run(auth.Snapshot(), []);
    users, isLoggedIn, currentUser, storage := auth.users, auth.isLoggedIn, auth.currentUser, auth.storage;
  }

  /** The register / login / logout walk-through on a first visit. */
  method FirstVisitScenario()
    returns (r1: bool, r2: bool, l1: bool, l2: bool, session: bool, user: string, sessionAfter: bool, userAfter: string)
    ensures r1 && !r2 && !l1 && l2
    ensures session && user == "alice"
    ensures !sessionAfter && userAfter == ""
  {
    var auth := new AuthStore.InitFromStorage(EmptyStorage);
    r1 := auth.Register("alice", "pw1");
    r2 := auth.Register("alice", "pw2");
    l1 := auth.Login("alice", "pw2");
    l2 := auth.Login("alice", "pw1");
    session, user := auth.isLoggedIn, auth.currentUser;
    auth.Logout();
    sessionAfter, userAfter := auth.isLoggedIn, auth.currentUser;
  }
}

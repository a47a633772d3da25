# Client-side authentication store, modelled in Dafny

The recipe web app keeps a toy authentication layer in the browser. This
layer is the composable `useAuth`. It holds three things:

- a username → password dictionary (plaintext);
- a session: a login flag `isLoggedIn` and the name `currentUser`;
- a write-through copy of both in the origin's durable key-value store,
  under the keys `users` (a JSON object), `loggedIn` (the literal `"true"`)
  and `currentUser`.

The UI calls three mutators:

- `register(username, password)` adds a user unless the name is already taken;
- `login(username, password)` opens a session when the password matches exactly;
- `logout()` always clears the session.

At module load the in-memory cells are read back from the durable store.

The project has three files:

- `wrappers.dfy`: module `Wrappers`, an `Option` type for a storage key that may be absent.
- `auth_model.dfy`: module `AuthModel`. It describes the store as values:
  - the durable keys (`Storage`) and the in-memory cells (`Session`);
  - initialisation (`Load`, `Init`);
  - one step function per operation;
  - `Run` for any sequence of operations;
  - lemmas about single calls, pairs of calls and whole runs.
- `use_auth.dfy`: module `UseAuth`. Class `AuthStore` has the composable's
  cells as fields, plus `storage` for the durable keys. Its constructor
  and methods update those fields in place. Each method states its effect
  on every field. `Register`, `Login` and `Logout` also state that their new
  state is what the matching `AuthModel` step function gives, and `SaveUsers`
  that its storage is what `AuthModel.SaveUsers` gives. So the trace lemmas apply to every run of the class.

Where the code's behaviour differs from what its comments say, the model follows the code:

- The duplicate test in `register` is JavaScript truthiness of `users[username]`.
  A name whose stored password is `""` is therefore not taken. Registering
  it again succeeds and replaces the password (`AuthModel.EmptyPasswordIsReplaced`).
  The comments at src/composables/useAuth.js:31 and :35 say instead that
  registration fails whenever the user exists.
- The empty username is an ordinary key: it can be registered and logged in
  (`AuthModel.EmptyUsernameLogsIn`). Nothing requires a logged-in user's
  name to be non-empty.
- Initialisation does not check the stored session against the stored users.
  So "logged in implies a known user" (`AuthModel.Coherent`) is an invariant
  that the operations preserve, not something true of every stored state.

## Model

| member | source | states |
|---|---|---|
| `UseAuth.AuthStore.InitFromStorage` | src/composables/useAuth.js:16-20 | logged in iff the stored `loggedIn` is exactly "true"; current user is the stored one or ""; users is the stored map or empty; memory then agrees with storage |
| `UseAuth.AuthStore.SaveUsers` | src/composables/useAuth.js:23-25 | the `users` key becomes exactly the in-memory dictionary, as `AuthModel.SaveUsers` gives; the other keys and all cells are untouched |
| `UseAuth.AuthStore.Register` | src/composables/useAuth.js:33-40 | returns false iff the name holds a non-empty password, and then nothing changes; otherwise sets `users[u] := p`, leaves every other entry alone and persists exactly the new map; never changes the session or its keys; keeps memory and storage in agreement |
| `UseAuth.AuthStore.Login` | src/composables/useAuth.js:48-57 | returns true iff the name is a key whose password equals `p` exactly; on success sets the session to (true, u) and persists `loggedIn = "true"` and `currentUser = u`; on failure nothing changes; users never change |
| `UseAuth.AuthStore.Logout` | src/composables/useAuth.js:62-67 | always ends logged out as "" with both session keys removed; users untouched; the session is then coherent |
| `AuthModel.Init` | src/composables/useAuth.js:16-20 | the initial state keeps the durable store it was read from and agrees with it |
| `AuthModel.LogoutIdempotent` | src/composables/useAuth.js:62-67 | logging out twice gives the same memory and storage as logging out once |
| `AuthModel.RegisterTwiceKeepsFirst` | src/composables/useAuth.js:33-39 | after a successful registration with a non-empty password, registering the same name again fails and the first password stays |
| `AuthModel.EmptyPasswordIsReplaced` | src/composables/useAuth.js:34-37 | a name registered with the empty password can be registered again, and the new password replaces it |
| `AuthModel.StepPreservesSynced` | src/composables/useAuth.js:16-67 | every operation keeps memory equal to what a reload from storage would build |
| `AuthModel.StepPreservesCoherent` | src/composables/useAuth.js:33-67 | every operation keeps "logged in implies a registered user, logged out implies empty user", and never removes a username |
| `AuthModel.RunPreservesSynced` | src/composables/useAuth.js:16-67 | agreement of memory and storage holds after any sequence of register/login/logout calls |
| `AuthModel.ReloadAfterRun` | src/composables/useAuth.js:16-20 | from any durable store and after any sequence of operations, re-initialising from storage rebuilds exactly the same users, login flag and current user |
| `AuthModel.RunPreservesCoherent` | src/composables/useAuth.js:33-67 | a coherent session stays coherent under any sequence of operations |
| `AuthModel.RunKeepsUsernames` | src/composables/useAuth.js:33-67 | no sequence of operations removes a registered username |
| `AuthModel.RunKeepsTakenPassword` | src/composables/useAuth.js:34-39 | a name with a non-empty password keeps that exact password under any sequence of operations |
| `AuthModel.RegisteredUserLogsInAfterReload` | src/composables/useAuth.js:16-54 | after registering with a non-empty password, any later operations and a reload, logging in with that password succeeds |
| `AuthModel.EmptyUsernameLogsIn` | src/composables/useAuth.js:33-54 | on a first visit the empty username can be registered and then logged in, leaving the session (true, "") |
| `UseAuth.RegisterReloadLogin` | src/composables/useAuth.js:16-54 | on real store objects: if registration succeeds, a fresh store initialised from the durable copy accepts the same credentials |
| `UseAuth.RegisterLoginLogoutFollowsRun` | src/composables/useAuth.js:16-67 | a register, login, logout sequence on a store object ends in exactly the memory and storage that `AuthModel.Run` gives for those operations from the initial state |
| `UseAuth.FirstVisitScenario` | src/composables/useAuth.js:33-67 | the walk-through register("alice","pw1") true, register("alice","pw2") false, login("alice","pw2") false, login("alice","pw1") true with session (true, "alice"), then logout gives (false, "") |

## Left out

- JSON encoding and decoding of the `users` key is not modelled: the stored value is the map it encodes. The throw on malformed stored JSON at src/composables/useAuth.js:20 is also not modelled. Neither is the `'' || '{}'` fallback for an empty stored string.
- Keys inherited by plain JavaScript objects are not modelled (for example `users["toString"]` is truthy). The dictionary is a map of strings.
- The durable store's other keys, and storage quota or unavailability errors, are not modelled. The code does not handle those errors: every write is taken to succeed.
- Vue's `ref` change notification is not modelled: the reactive cells are plain fields.
- The model assumes that one auth store is the only writer of the `users`, `loggedIn` and `currentUser` keys and of the cells it exposes. It therefore does not capture lost updates between two open tabs of the same origin: `saveUsers` writes the whole in-memory dictionary (src/composables/useAuth.js:24), so a tab loaded earlier can overwrite a user that another tab registered since. Nor does it capture callers assigning the writable `isLoggedIn` and `currentUser` refs handed out at src/composables/useAuth.js:74-75 without touching storage. `AuthModel.Synced`, `AuthModel.ReloadAfterRun` and `AuthModel.RegisteredUserLogsInAfterReload` hold under this assumption.
- `useAuth()` (src/composables/useAuth.js:72-80) only hands out the shared cells and functions. The module-level singleton is modelled as one `AuthStore` object. A page reload is a new object built from the same durable copy.
- The `loggedIn` and `currentUser` keys are written one after the other. The model gives only the state after both writes, because no other code can run in between.
- src/router/index.js and src/router/demoindex.js are not part of this model. They are declarative route tables for the routing library. The lazy-loading delay and timeout belong to the UI framework's timers.
- vite.config.js and src/main.js are not part of this model. They hold build configuration and application bootstrap.

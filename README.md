# World-state store of the RPG Maker MV networking server

This project is a Dafny model of the in-memory state behind the Go HTTP server
in `Server/API.go`. Four package-level maps hold that state:

- `Maps`: map id → player uuid → player. A player holds its uuid, a bounded
  list of symbolic actions and the time of its last request.
- `MetaBlob`: a five-level metadata store, nested as owner → purpose →
  client → primary key → secondary key → string.
- `GameSwitches` and `GameVariable`: the global `string → bool` and
  `string → int` flags.

The model is one class, `World.WorldState`, with those four maps as fields.
Each state-changing handler becomes a method with its request parsing and
JSON output stripped off; the five `Blob*` reads are functions of
`MetaBlobStore`. The methods are specified against pure functions in four
modules:

- `Sessions` (`sessions.dfy`): the `Action` and `Player` records. It also
  holds the action-list update that `AQ` performs (`NextActions`) and the
  registry invariant `WellFormed`. Every stored list is non-empty, holds at
  most 11 entries, is numbered consecutively and belongs to its map.
- `Reaper` (`reaper.dfy`): one sweep of `TimeOut`. This covers the expiry
  test, the collecting loop (`CollectExpired`), the deleting loop
  (`RemoveKeys`) and the registry a sweep leaves behind (`Sweep`).
- `MetaBlobStore` (`metablob.dfy`): the five `Blob*` reads, with Go's rule
  that a missing key reads as an empty map or `""`. It also holds `Put` and
  the five deletes, each stated against those reads.
- `GlobalFlags` (`flags.dfy`): the key-scanning loop of `SetSwitch` and
  `SetVariable`, and what each of them does to its map.

Time is an integer count of nanoseconds, and `Reaper.Minute` is
60 000 000 000. The current time is the parameter `now`.

Some behaviours of the code are easy to misread; the model follows the code:

- `AQ` drops the oldest entry only when the list already holds more than 10,
  and then appends. A list therefore settles at 11 entries, not 10. After a
  login and eleven actions only the login entry is gone, and the newest entry
  is numbered 11 (`Sessions.ElevenActionsAfterLogin`).
- A player counts as idle when the elapsed time, truncated to whole minutes,
  is greater than 5. That means at least six full minutes, not "more than
  five minutes" (`Reaper.Expired`).
- The sweep deletes every collected uuid from every map. A uuid that has gone
  stale on one map is also removed from a map where it is active
  (`Reaper.SweepRemovesAcrossMaps`).
- `SetSwitch` on an unknown key changes nothing and reports nothing.
  `SetVariable` adds the key anyway (see Findings).
- `Map` creates a missing table as a side effect of reading it.
- The `MetaBlobDelete*` handlers remove only the addressed key. An owner,
  purpose, client or primary key left empty by a delete stays in the blob as
  an empty map.

## Model

| member | source | states |
|---|---|---|
| `World.WorldState.constructor` | Server/API.go:283-310 | the server starts with no maps and no blobs; the switches and variables hold the contents loaded from their files |
| `World.WorldState.Map` | Server/API.go:36-44 | afterwards the map id is a key of `Maps` and the returned table is its table; an existing table is left as it was, a missing one becomes empty; the registry invariant is kept |
| `World.WorldState.PlayerLogin` | Server/API.go:66-73 | the map gets a table if it had none; the uuid then holds a fresh player (one action numbered 0 at the login position, time stamp `now`), replacing any earlier one; every other uuid and every other map is unchanged |
| `World.WorldState.AQ` | Server/API.go:101-111 | with the player present: only that player changes, its actions become `NextActions` of the old ones and its time stamp becomes `now`; with the player absent: nothing changes; the invariant (non-empty, at most 11, consecutive) is kept |
| `World.WorldState.PlayerLogout` | Server/API.go:128 | removes only that uuid from that map's table; an absent map or uuid leaves the state unchanged |
| `World.WorldState.TimeOut` | Server/API.go:143-167 | one sweep leaves exactly `Reaper.Sweep` of the old registry, and the invariant is kept |
| `World.WorldState.MetaBlobEntry` | Server/API.go:184-188 | the blob becomes `MetaBlobStore.Put` of the old blob |
| `World.WorldState.MetaBlobDeleteEntry` | Server/API.go:201-203 | the blob becomes `MetaBlobStore.DeleteEntry` of the old blob |
| `World.WorldState.MetaBlobDeletePrimary` | Server/API.go:204-206 | the blob becomes `MetaBlobStore.DeletePrimary` of the old blob |
| `World.WorldState.MetaBlobDeleteClient` | Server/API.go:207-209 | the blob becomes `MetaBlobStore.DeleteClient` of the old blob |
| `World.WorldState.MetaBlobDeletePurpose` | Server/API.go:210-212 | the blob becomes `MetaBlobStore.DeletePurpose` of the old blob |
| `World.WorldState.MetaBlobDeleteOwner` | Server/API.go:213-215 | the blob becomes `MetaBlobStore.DeleteOwner` of the old blob |
| `World.WorldState.SetSwitch` | Server/API.go:290-295 | the switches become `SetExisting` of the old ones, so their key set is unchanged |
| `World.WorldState.SetVariable` | Server/API.go:313-319 | afterwards `id` is a key holding `value`, whether or not it was a key before |
| `World.LoginLogoutThenAction` | Server/API.go:66-128 | a login, then a logout, then an `AQ` for the same uuid and map: the `AQ` finds no player |
| `Sessions.MakeActionList` | Server/API.go:71 | a login list holds exactly one action, numbered 0, with the spawn action id, at the login position and map (assumed; the function's source is not shown) |
| `Sessions.NextActions` | Server/API.go:101-108 | the new last action carries the old last number plus one and exactly the given action id, x, y and map id; the list grows by one when it held at most 10 entries and keeps its length otherwise; the other entries are the newest entries of the old list; a list of at most 11 stays at most 11 |
| `Sessions.NextActionsConsecutive` | Server/API.go:104-108 | consecutive numbering is preserved by the trim and the append |
| `Sessions.NextEnumIsFresh` | Server/API.go:104 | the new number is larger than every number still in the list, so numbers are never reused |
| `Sessions.NextActionsWellFormed` | Server/API.go:101-108 | a list that is non-empty, at most 11 long, consecutive and on map `m` stays so after an action on map `m` |
| `Sessions.Replay` | Server/API.go:101-108 | repeating the update any number of times never empties a non-empty list |
| `Sessions.LoginThenActions` | Server/API.go:66-111 | after a login and `n` actions the list holds `min(n + 1, 11)` entries, the newest numbered `n` and the oldest `max(0, n - 10)`, numbered consecutively |
| `Sessions.ElevenActionsAfterLogin` | Server/API.go:105-108 | after a login and eleven actions the list holds 11 entries numbered 1 to 11 |
| `Reaper.ElapsedMinutes` | Server/API.go:153 | whole minutes between two times, truncated toward zero for both signs of the difference |
| `Reaper.Expired` | Server/API.go:151-155 | a player is expired exactly when at least six full minutes have passed since its time stamp |
| `Reaper.CollectExpired` | Server/API.go:143-160 | the collected uuids are exactly those expired on some map |
| `Reaper.CollectFromTable` | Server/API.go:149-159 | one map's pass adds exactly the uuids of its expired players to the collection |
| `Reaper.RemoveKeys` | Server/API.go:164-166 | one map's table loses exactly the collected uuids; every other player is unchanged |
| `Reaper.Sweep` | Server/API.go:162-167 | every map is kept; a player survives exactly when its uuid is expired on no map at all, and survivors are unchanged |
| `Reaper.SweepWellFormed` | Server/API.go:162-167 | a sweep keeps the registry invariant |
| `Reaper.SweepRemovesAcrossMaps` | Server/API.go:162-167 | a uuid that is active on map `b` but expired on map `a` is removed from map `b` as well |
| `MetaBlobStore.BlobOwners` | Server/API.go:224-227 | an absent owner reads as the empty map; a present one as its purposes |
| `MetaBlobStore.BlobPurpose` | Server/API.go:228-231 | an absent owner or purpose reads as the empty map; a present path as its clients |
| `MetaBlobStore.BlobPrimaryKey` | Server/API.go:232-235 | an absent path reads as the empty map; a present path as the client's primary keys |
| `MetaBlobStore.BlobClient` | Server/API.go:236-239 | an absent path reads as the empty map; a present path as the primary key's entries |
| `MetaBlobStore.BlobSecondaryKey` | Server/API.go:240-243 | an absent leaf reads as `""`; a present one as its value |
| `MetaBlobStore.Put` | Server/API.go:184-188 | reading the written path yields the value; every other leaf keeps its presence and its value; the owner becomes a key; every other owner's subtree is unchanged |
| `MetaBlobStore.DeleteOwner` | Server/API.go:213-215 | the owner reads as empty and has no leaves; every other owner's subtree is unchanged; an absent owner changes nothing |
| `MetaBlobStore.DeletePurpose` | Server/API.go:210-212 | the purpose key leaves its owner (the owner reads as before minus that purpose) and the purpose reads as empty with no leaves; every other owner and purpose subtree is unchanged; no owner is added or removed; an absent prefix changes nothing |
| `MetaBlobStore.DeleteClient` | Server/API.go:207-209 | the client key leaves its purpose (the purpose reads as before minus that client) and the client reads as empty with no leaves; every other owner, sibling purpose and client subtree is unchanged; the owner and purpose levels keep their keys; an absent prefix changes nothing |
| `MetaBlobStore.DeletePrimary` | Server/API.go:204-206 | the primary key leaves its client (the client reads as before minus that key) and reads as empty with no leaves; every other owner, sibling purpose, sibling client and primary-key subtree is unchanged; the owner keys, every owner's purpose keys and every purpose's client keys are unchanged, so no empty level appears or vanishes; an absent prefix changes nothing |
| `MetaBlobStore.DeleteEntry` | Server/API.go:201-203 | the leaf is gone and reads as `""` (its primary key reads as before minus that secondary key); every other owner and every sibling subtree along the path is unchanged; every other leaf keeps its presence and value; the owner keys, every owner's purpose keys, every purpose's client keys and every client's primary keys are unchanged, so no empty level appears or vanishes; an absent leaf changes nothing |
| `MetaBlobStore.PutThenGet` | Server/API.go:184-188 | after a write, the read at each depth of the path is the old read with the one child replaced |
| `MetaBlobStore.DeletedPrefixReadsEmpty` | Server/API.go:201-243 | after a delete at any depth, every read under the deleted prefix is empty |
| `GlobalFlags.ScanForKey` | Server/API.go:290-294 | the key loop with its `break` finds `id` exactly when `id` is a key |
| `GlobalFlags.SetExisting` | Server/API.go:290-295 | the key set never changes; an existing `id` gets the value; every other key keeps its value; an unknown `id` changes nothing |
| `GlobalFlags.SetVariableAsWritten` | Server/API.go:313-319 | the key set becomes the old one plus `id`; `id` holds the value; every other key keeps its value |
| `GlobalFlags.SetVariableIsPlainWrite` | Server/API.go:313-319 | the guarded write is redundant: the result is a plain insert-or-overwrite |
| `GlobalFlags.SetVariableAddsUnknownKey` | Server/API.go:302-319 | on an unknown key `SetVariable` changes the key set, while `SetExisting` would not |

## Left out

- HTTP routing, `httprouter.Params` and `strconv` parsing: operations take
  parsed arguments. On a syntax error `strconv` yields 0 or `false`; on an
  out-of-range number `strconv.ParseInt` yields the largest or smallest
  64-bit value. Either way the handler goes on with that value, which is
  simply one more possible argument here.
- `json.Marshal`, `fmt.Fprint` and `HandleError`: output only. The reads
  return values in place of JSON text, so the difference between a nil map
  (`null`) and an empty one (`{}`) is not modelled.
- `UUID`: uuid generation. The uuid is an opaque string argument.
- `GetSwitches` and `GetVariables`, along with the lazy loading of
  `files/Switches.ini` and `files/Variables.ini` inside them and inside
  `SetSwitch` and `SetVariable`. These handlers only read a file and
  serialize. The loaded contents are the constructor's arguments.
- `time.Now`, `time.Sleep` and the endless loop of `TimeOut`: one sweep is
  modelled, with the current time as a parameter.
- Concurrency: the source uses unsynchronized globals and no locks. The
  model is sequential.
- The 64-bit arithmetic of the source: integers are unbounded. This means
  `time.Duration` saturation in `now.Sub(then)`, and wrap-around of `Enum`
  after 2^63 actions, are not modelled.
- `MakeActionList`: its source is not shown. `Sessions.MakeActionList`
  assumes it returns one action numbered 0, with action id
  `Sessions.SpawnActionId` (0), at the login position and map.
- Pointer sharing: each `Player` holds pointers to its action list and time
  stamp, which `AQ` writes through. Players are values here, and `AQ` stores
  a new one in their place; no two players share those pointers.
- `World.WorldState.AQ`: for a missing map or player the Go handler
  dereferences a nil pointer and panics before changing anything, and
  `net/http` recovers the panic. The model returns `found == false` and
  leaves the state unchanged; it does not model the panic itself.
- `World.WorldState.Map`: the JSON text of the table is not produced; the
  table itself is returned.

## Findings

| source | as written | input that shows it | evidently intended | confidence | as-written member | corrected member |
|---|---|---|---|---|---|---|
| Server/API.go:302-319 | after the loop that writes only to an existing key, line 319 writes `GameVariable[id] = value` unconditionally | any `id` that is not a key of `GameVariable` | the doc-comment says "Can only write to existing keys", so an unknown `id` should leave the map unchanged, as in `SetSwitch` | high (not executed) | `GlobalFlags.SetVariableAsWritten` (lemma `GlobalFlags.SetVariableAddsUnknownKey`) | `GlobalFlags.SetExisting` (key set unchanged), which `World.WorldState.SetSwitch` uses; `World.WorldState.SetVariable` keeps the code's behaviour |

# StorageService of ngx-storage, modelled in Dafny

`StorageService` (library/src/storage.service.ts) is a reactive cache over the
browser's `localStorage`. It keeps one RxJS `BehaviorSubject` ("cell") per key
and four operations:

- `get(key)` returns the key's cell. On first access it creates the cell from the
  stored string, or from `null` when nothing is stored. A stored string that
  does not parse yields an error stream and creates no cell.
- `set(key, data)` always stores `JSON.stringify(data)`. It publishes `data`
  only to a cell that already exists and holds a different value.
- `clear(key)` removes the key from the storage. It publishes `null` to an
  existing cell unless that cell already holds `null`.
- `clearAll()` empties the storage. It publishes `null` to every existing cell
  that does not hold `null` already.

The storage may be missing: the service decides once, at construction, whether
the platform has a `localStorage`. Without one, the service is an in-memory
cache only.

Files:

- `wrappers.dfy`: `Option`.
- `json.dfy`: the `Json` value type. It also holds the `Codec` pair standing for
  `JSON.stringify` / `JSON.parse`, and the round-trip law `RoundTrips`.
- `storage_spec.dfy` (module `StorageSpec`): a cell is its current value plus
  the log of values it has emitted, seed first. A `Snapshot` holds the
  service's two fields. The four operations are functions from the snapshot
  before a call to the snapshot after it.
- `storage_service.dfy` (module `Storage`): the class `StorageService` with
  fields `storage` and `state` and methods `Get`, `Set`, `Clear` and `ClearAll`.
  Each method is proved to change the fields exactly as its `StorageSpec`
  function says. `ClearAll` keeps the source's loop over the keys of `state`.
- `storage_properties.dfy` (module `StorageProperties`): properties of
  sequences of calls. No cell is ever removed, and the logs only grow and never
  repeat a value twice in a row. The cells agree with the stored strings. The
  stored string is always the last value written. Also: round trips,
  idempotence, and how parse errors behave.
- `storage_scenarios.dfy` (module `StorageScenarios`): client methods that use
  the class only through its contracts. They cover dedup, a double clear,
  clearAll, malformed stored data, and a missing storage.

Two behaviours of the service that a caller might not expect:

- Without a storage, `set(key, v)` before the key's first `get` is lost.
  `set` creates no cell and persists nothing (storage.service.ts:66-73), so the
  following `get` yields `null`, not `v`. `AbsentStorageSetBeforeGetIsLost` and
  `AbsentStorageScenario` state this.
- The single-key and all-keys operations are named `clear(key)` and
  `clearAll()`, as in the service. The demo component's calls to `remove` and a
  zero-argument `clear()` do not match any method of the service.

## Model

| member | source | states |
|---|---|---|
| Storage.StorageService.constructor | library/src/storage.service.ts:13-26 | the storage is present exactly when the platform has one and holds what was persisted; there are no cells yet |
| Storage.StorageService.Get | library/src/storage.service.ts:28-59 | the new fields and the returned stream are those `StorageSpec.Get` gives for the old fields; cells stay well formed |
| Storage.StorageService.Set | library/src/storage.service.ts:61-84 | the new fields are those `StorageSpec.Set` gives for the old fields |
| Storage.StorageService.Clear | library/src/storage.service.ts:86-106 | the new fields are those `StorageSpec.Clear` gives for the old fields |
| Storage.StorageService.ClearAll | library/src/storage.service.ts:108-126 | after the loop over every key of `state`, the fields are those `StorageSpec.ClearAll` gives for the old fields |
| StorageSpec.NewCell | library/src/storage.service.ts:55 | a new subject holds its seed, its log is that one value, and it is well formed |
| StorageSpec.PublishIfChanged | library/src/storage.service.ts:75-83 | the cell ends up holding the new value; exactly one emission is appended when the value differs, none when equal; earlier emissions are kept; well-formedness is preserved |
| StorageSpec.Get | library/src/storage.service.ts:28-59 | the storage is never changed. An existing cell is returned and nothing changes. The error stream, with the source's message, is returned exactly when there is no cell and the stored string does not parse, and then nothing changes. Otherwise exactly one cell, for the key, is added, seeded with the parsed value or with null when nothing is stored, and no other cell changes |
| StorageSpec.Set | library/src/storage.service.ts:61-84 | a present storage holds the serialised value at the key and all other entries unchanged; no cell is created or removed; other cells are unchanged; an equal current value emits nothing; a different one is appended once and becomes current |
| StorageSpec.Clear | library/src/storage.service.ts:86-106 | a present storage loses the key and keeps all other entries; no cell is created or removed; an existing cell ends at null, with one null emission exactly when it was not null already |
| StorageSpec.ClearAll | library/src/storage.service.ts:108-126 | a present storage becomes empty; the keys of `state` are unchanged; every cell ends at null; cells already null are untouched; every other cell gains exactly one null emission |
| StorageSpec.GetAsWritten | library/src/storage.service.ts:28-59 | `get` as written: for a name inherited from Object.prototype without an own cell, it returns that inherited member and changes nothing; for every other key it behaves as `StorageSpec.Get` |
| StorageSpec.SetAsWritten | library/src/storage.service.ts:61-84 | `set` as written: the storage write always happens; for an inherited name without an own cell it then throws the `getValue` TypeError with `state` unchanged; otherwise it behaves as `StorageSpec.Set` |
| StorageSpec.ClearAsWritten | library/src/storage.service.ts:86-106 | `clear` as written: the storage removal always happens; for an inherited name without an own cell it then throws the `getValue` TypeError with `state` unchanged; otherwise it behaves as `StorageSpec.Clear` |
| StorageSpec.PrototypeNameFinding | library/src/storage.service.ts:19-98 | on a new service, `get("toString")` as written returns the inherited member and creates no cell (lines 19-32), and `set`/`clear("toString")` throw at `getValue()` (lines 71-76 and 93-98); the model's `Get` creates that key's own cell, to which `Set` then publishes |
| StorageProperties.Step | library/src/storage.service.ts:14-19 | no call changes whether a storage is present, and no call removes a key from `state` |
| StorageProperties.Run | library/src/storage.service.ts:14-19 | over any sequence of calls, the storage's presence is unchanged and no key leaves `state` |
| StorageProperties.StepExtends | library/src/storage.service.ts:55-126 | one call keeps every cell and only appends to its log |
| StorageProperties.RunKeepsCells | library/src/storage.service.ts:55-126 | over any sequence of calls, every cell survives and its log only grows; each log ends in the current value and never shows one value twice in a row |
| StorageProperties.StepKeepsCoherent | library/src/storage.service.ts:28-126 | given the JSON round trip, one call keeps every cell equal to what its key's stored string parses to, or null when unset |
| StorageProperties.RunKeepsCoherent | library/src/storage.service.ts:28-126 | the same agreement holds after any sequence of calls |
| StorageProperties.CoherentGetReadsThrough | library/src/storage.service.ts:28-59 | in an agreeing state, `get` succeeds exactly when a direct read of the storage parses, and then yields that value |
| StorageProperties.CacheIsTransparent | library/src/storage.service.ts:13-126 | from a new service with a storage, after any calls, `get` answers what a direct read of the storage would |
| StorageProperties.RunPersistsLastWrite | library/src/storage.service.ts:61-112 | with a storage, a key's stored string is the serialisation of its last `set`. It is absent after a later `clear` or `clearAll`. It is the persisted string when no call wrote the key |
| StorageProperties.SetThenGet | library/src/storage.service.ts:28-84 | given a storage or an existing cell, `get` after `set(key, v)` yields the key's cell holding `v` |
| StorageProperties.AbsentStorageSetBeforeGetIsLost | library/src/storage.service.ts:61-73 | without a storage and without a cell, `get` after `set(key, v)` yields a cell holding null |
| StorageProperties.SetIsIdempotent | library/src/storage.service.ts:61-84 | a second identical `set` changes nothing, so it emits nothing |
| StorageProperties.ClearIsIdempotent | library/src/storage.service.ts:86-106 | a second `clear(key)` changes nothing, and the key is no longer stored |
| StorageProperties.ClearAllIsIdempotent | library/src/storage.service.ts:108-126 | a second `clearAll` changes nothing |
| StorageProperties.ClearAllThenGetIsNull | library/src/storage.service.ts:108-126 | after `clearAll`, `get` yields a cell holding null for every key, whether or not it was materialised before |
| StorageProperties.ParseErrorIsNotCached | library/src/storage.service.ts:44-51 | a failed `get` leaves the state as it was and fails again on the same string; it succeeds after `set`, or after the stored string is replaced by one that parses |
| StorageScenarios.DedupScenario | library/src/storage.service.ts:75-79 | get, then two identical sets: subscribers see the seed and the value once |
| StorageScenarios.ClearTwiceScenario | library/src/storage.service.ts:97-102 | set, then two clears: one null emission, and the key is no longer stored |
| StorageScenarios.ClearAllScenario | library/src/storage.service.ts:108-126 | two sets and clearAll: both keys then read null, and the storage has no keys |
| StorageScenarios.MalformedDataScenario | library/src/storage.service.ts:44-51 | a malformed stored string fails the first get with the source's message; after set, get yields the value |
| StorageScenarios.AbsentStorageScenario | library/src/storage.service.ts:14-16 | without a storage, a value set after the first get is kept in the cell, and one set before it is lost |

## Left out

- `JSON.stringify` / `JSON.parse` are the two functions of a `Codec`, which is a
  constructor parameter. The JSON grammar is not modelled. The round trip
  `parse(stringify(v)) == Some(v)` is a hypothesis (`RoundTrips`) of the lemmas
  that need it. JSON numbers are integers here, not floating point.
  `JSON.stringify(undefined)` and other non-serialisable values are not modelled.
- PublishIfChanged: the dedup test `current === data` is JavaScript reference or
  primitive equality. The model uses structural equality on immutable `Json`
  values, so it differs in both directions. Two structurally equal but distinct
  objects count as equal here, where JavaScript publishes the second one. And
  in-place mutation and aliasing are not captured: a caller that mutates the
  object held by a cell (or passed to an earlier `set`) and sets it again gets a
  storage write but no emission in JavaScript, since `current === data`, while
  the model publishes. Such mutation also lets a cell drift from its stored
  string, which `CacheIsTransparent` rules out for immutable values only.
- Cell identity: a cell is a value named by its key, and `get` returns
  `CellStream(key)`. Since a cell is never removed or replaced, the key stands
  for the one `BehaviorSubject` the source returns. RxJS subscription,
  unsubscription, and the moment a subscriber joins are not modelled. The
  emission log is what a subscriber from the cell's creation observes,
  provided no subscriber calls back into the service from its `next` callback.
  A nested `set` made from inside a notification is not modelled: with it,
  later subscribers would see the nested value before the outer one.
- ClearAll: `Object.keys` lists integer-like keys ("2", "10") first, in
  ascending numeric order, and then the other keys in creation order; `forEach`
  visits them in that order. The model visits them in an unspecified order,
  which covers that one. That order only affects how notifications to
  different cells interleave, and the model does not capture that.
- Environment detection through `window` and the one-time `console.warn` are
  reduced to the constructor's `available` parameter.
- Writes to `localStorage` from outside the service are not an operation. Their
  effect on `get` is stated over a storage with a replaced entry, in
  `ParseErrorIsNotCached`.
- Exceptions raised by the host's `setItem`, such as quota exceeded, are not
  modelled.
- Keys that name members of `Object.prototype` follow the corrected, own-key
  behaviour. This is the finding below.
- The Angular module and the demo application (library/src/storage.module.ts,
  example/app/*) hold no service logic and are not part of this model.

## Findings

| source | as written | input that shows it | evidently intended | confidence | as-written member | corrected member |
|---|---|---|---|---|---|---|
| library/src/storage.service.ts:19-32 | `state` is a plain object literal, and `if (this.state[key])` is also truthy for names inherited from `Object.prototype` | `get("toString")` on a new service returns `Object.prototype.toString` instead of a cell. `set("toString", v)` then calls `getValue` on that function and throws | every string key gets its own cell (an own-property test, or a prototype-less map) | high by reading the code; not executed | StorageSpec.PrototypeNameFinding | StorageSpec.Get |

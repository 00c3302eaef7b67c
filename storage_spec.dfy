/**
 * The state of a StorageService (its optional localStorage and its map of
 * cells) and its four public operations, get, set, clear and clearAll, as
 * functions from the state before a call to the state after it.
 */
module StorageSpec {
  import opened Wrappers
  import opened Json

  /** The message of the error that `get` throws when the stored string does not parse. */
  const ParseErrorMessage: string := "The raw data cannot be parsed; Invalid data in the storage."

  /**
   * A BehaviorSubject: the value `getValue()` returns, and every value it has
   * held in order, the seed first, as a subscriber from the start observed them.
   */
  datatype Cell = Cell(current: Json, emissions: seq<Json>)

  /**
   * What subscribers of a cell can rely on: the log is never empty, ends in the
   * current value, and never shows the same value twice in a row.
   */
  predicate WellFormed(c: Cell) {
    && |c.emissions| > 0
    && c.emissions[|c.emissions| - 1] == c.current
    && forall i :: 0 < i < |c.emissions| ==> c.emissions[i - 1] != c.emissions[i]
  }

  /** `new BehaviorSubject(seed)`. */
  function NewCell(seed: Json): (c: Cell)
    ensures WellFormed(c) && c.current == seed && |c.emissions| == 1
  {
    Cell(seed, [seed])
  }

  /** `subject.next(v)`: the value becomes `v` and every subscriber is sent `v`. */
  function Next(c: Cell, v: Json): (r: Cell) {
    Cell(v, c.emissions + [v])
  }

  /**
   * The guarded `next` of set, clear and clearAll: `v` is published unless the
   * cell already holds it (`current === next`).
   */
  function PublishIfChanged(c: Cell, v: Json): (r: Cell)
    ensures r.current == v
    ensures c.current == v ==> r == c
    ensures c.current != v ==> r.emissions == c.emissions + [v]
    ensures |c.emissions| <= |r.emissions| <= |c.emissions| + 1
    ensures r.emissions[..|c.emissions|] == c.emissions
    ensures |r.emissions| == |c.emissions| + 1 <==> c.current != v
    ensures WellFormed(c) ==> WellFormed(r)
  {
    if c.current == v then c else Next(c, v)
  }

  /**
   * The fields of a StorageService: `storage`, the contents of localStorage or
   * None where the platform has none, and `state`, the cell of each key.
   */
  datatype Snapshot = Snapshot(storage: Option<map<string, string>>, state: map<string, Cell>)

  /** Every cell of the state is well formed. */
  ghost predicate Valid(s: Snapshot) {
    forall k :: k in s.state ==> WellFormed(s.state[k])
  }

  /** `storage.getItem(key)`, or null when there is no storage. */
  function RawItem(storage: Option<map<string, string>>, key: string): (raw: Option<string>) {
    if storage.Some? && key in storage.value then Some(storage.value[key]) else None
  }

  /** What `get` returns: the observable of the key's cell, or `_throw(error)`. */
  datatype Stream = CellStream(key: string) | ThrowStream(message: string)

  /** The result of `get` together with the state it leaves behind. */
  datatype GetOutcome = GetOutcome(after: Snapshot, stream: Stream)

  /**
   * `get(key)`: return the key's cell, creating it on first access from the
   * stored string; a string that does not parse yields an error stream and
   * creates nothing.
   */
  function Get(s: Snapshot, codec: Codec, key: string): (r: GetOutcome)
    ensures r.after.storage == s.storage
    ensures key in s.state ==> r == GetOutcome(s, CellStream(key))
    ensures r.stream.ThrowStream? <==>
              key !in s.state && RawItem(s.storage, key).Some? && codec.parse(RawItem(s.storage, key).value).None?
    ensures r.stream.ThrowStream? ==> r.after == s && r.stream.message == ParseErrorMessage
    ensures r.stream.CellStream? ==>
              && r.stream.key == key
              && r.after.state.Keys == s.state.Keys + {key}
              && forall k :: k in s.state ==> r.after.state[k] == s.state[k]
    ensures key !in s.state && RawItem(s.storage, key).None? ==> r.after.state == s.state[key := NewCell(Null)]
    ensures forall p :: key !in s.state && RawItem(s.storage, key).Some? && codec.parse(RawItem(s.storage, key).value) == Some(p) ==>
              r.after.state == s.state[key := NewCell(p)]
    ensures Valid(s) ==> Valid(r.after)
  {
    if key in s.state then
      GetOutcome(s, CellStream(key))
    else
      var rawData := RawItem(s.storage, key);
      if rawData.None? then
        GetOutcome(Snapshot(s.storage, s.state[key := NewCell(Null)]), CellStream(key))
      else
        match codec.parse(rawData.value)
        case None => GetOutcome(s, ThrowStream(ParseErrorMessage))
        case Some(parsedData) => GetOutcome(Snapshot(s.storage, s.state[key := NewCell(parsedData)]), CellStream(key))
  }

  /**
   * `set(key, data)`: store the serialised value whenever there is a storage,
   * and publish it to the key's cell only when the cell exists and holds
   * another value.
   */
  function Set(s: Snapshot, codec: Codec, key: string, data: Json): (r: Snapshot)
    ensures r.storage.Some? == s.storage.Some?
    ensures r.storage.Some? ==>
              && key in r.storage.value
              && r.storage.value[key] == codec.stringify(data)
              && r.storage.value - {key} == s.storage.value - {key}
    ensures r.state.Keys == s.state.Keys
    ensures r.state - {key} == s.state - {key}
    ensures key in s.state && s.state[key].current == data ==> r.state == s.state
    ensures key in s.state && s.state[key].current != data ==>
              r.state[key] == Cell(data, s.state[key].emissions + [data])
    ensures Valid(s) ==> Valid(r)
  {
    var storage := if s.storage.Some? then Some(s.storage.value[key := codec.stringify(data)]) else None;
    if key !in s.state then Snapshot(storage, s.state)
    else Snapshot(storage, s.state[key := PublishIfChanged(s.state[key], data)])
  }

  /**
   * `clear(key)`: remove the key from the storage, and publish null to its cell
   * when the cell exists and does not hold null already.
   */
  function Clear(s: Snapshot, key: string): (r: Snapshot)
    ensures r.storage.Some? == s.storage.Some?
    ensures r.storage.Some? ==> key !in r.storage.value && r.storage.value - {key} == s.storage.value - {key}
    ensures r.state.Keys == s.state.Keys
    ensures r.state - {key} == s.state - {key}
    ensures key in s.state ==> r.state[key].current == Null
    ensures key in s.state && s.state[key].current == Null ==> r.state == s.state
    ensures key in s.state && s.state[key].current != Null ==>
              r.state[key].emissions == s.state[key].emissions + [Null]
    ensures Valid(s) ==> Valid(r)
  {
    var storage := if s.storage.Some? then Some(s.storage.value - {key}) else None;
    if key !in s.state then Snapshot(storage, s.state)
    else Snapshot(storage, s.state[key := PublishIfChanged(s.state[key], Null)])
  }

  /**
   * `clearAll()`: empty the storage and publish null to every existing cell
   * that does not hold null already.
   */
  function ClearAll(s: Snapshot): (r: Snapshot)
    ensures r.storage.Some? == s.storage.Some?
    ensures r.storage.Some? ==> r.storage.value == map[]
    ensures r.state.Keys == s.state.Keys
    ensures forall k :: k in r.state ==> r.state[k].current == Null
    ensures forall k :: k in s.state && s.state[k].current == Null ==> r.state[k] == s.state[k]
    ensures forall k :: k in s.state && s.state[k].current != Null ==>
              r.state[k].emissions == s.state[k].emissions + [Null]
    ensures Valid(s) ==> Valid(r)
  {
    var storage := if s.storage.Some? then Some(map[]) else None;
    Snapshot(storage, map k | k in s.state :: PublishIfChanged(s.state[k], Null))
  }

  /** The names every plain JavaScript object inherits from Object.prototype. */
  const ObjectPrototypeMembers: set<string> := {
    "constructor", "hasOwnProperty", "isPrototypeOf", "propertyIsEnumerable",
    "toLocaleString", "toString", "valueOf", "__proto__",
    "__defineGetter__", "__defineSetter__", "__lookupGetter__", "__lookupSetter__"
  }

  /**
   * The guard `if (this.state[key])` of get, set and clear as written: `state`
   * is a plain object, so the lookup is also truthy for an inherited member.
   */
  predicate HasCellAsWritten(state: map<string, Cell>, key: string) {
    key in state || key in ObjectPrototypeMembers
  }

  /** The TypeError that `this.state[key].getValue()` raises when the lookup found an inherited member. */
  const GetValueTypeError: string := "this.state[key].getValue is not a function"

  /** What `get` as written can return: a cell, an inherited member of Object.prototype, or `_throw(error)`. */
  datatype StreamAsWritten = SubjectStream(key: string) | InheritedMember(name: string) | ErrorStream(message: string)

  datatype GetAsWrittenOutcome = GetAsWrittenOutcome(after: Snapshot, stream: StreamAsWritten)

  /** How `set` and `clear` as written end: normally, or with an exception after the storage write. */
  datatype Completion = Completed(after: Snapshot) | Raised(after: Snapshot, error: string)

  /**
   * `get(key)` as written: the guard returns `this.state[key]` whenever the
   * lookup is truthy, which for an inherited name is a member of
   * Object.prototype and not a cell.
   */
  function GetAsWritten(s: Snapshot, codec: Codec, key: string): (r: GetAsWrittenOutcome)
    ensures key !in ObjectPrototypeMembers || key in s.state ==>
              && r.after == Get(s, codec, key).after
              && (r.stream.SubjectStream? <==> Get(s, codec, key).stream.CellStream?)
              && (r.stream.ErrorStream? <==> Get(s, codec, key).stream.ThrowStream?)
    ensures key in ObjectPrototypeMembers && key !in s.state ==>
              r == GetAsWrittenOutcome(s, InheritedMember(key))
    ensures r.stream.SubjectStream? ==> r.stream.key == key
    ensures r.stream.ErrorStream? ==> r.stream.message == ParseErrorMessage
    ensures key in ObjectPrototypeMembers ==> r.after == s
  {
    if HasCellAsWritten(s.state, key) then
      GetAsWrittenOutcome(s, if key in s.state then SubjectStream(key) else InheritedMember(key))
    else
      var g := Get(s, codec, key);
      GetAsWrittenOutcome(g.after, match g.stream
                                   case CellStream(k) => SubjectStream(k)
                                   case ThrowStream(m) => ErrorStream(m))
  }

  /**
   * `set(key, data)` as written: after the storage write, a truthy lookup that
   * is not a cell reaches `getValue()` and throws.
   */
  function SetAsWritten(s: Snapshot, codec: Codec, key: string, data: Json): (r: Completion)
    ensures r.after.storage == Set(s, codec, key, data).storage
    ensures key !in ObjectPrototypeMembers || key in s.state ==> r == Completed(Set(s, codec, key, data))
    ensures key in ObjectPrototypeMembers && key !in s.state ==>
              r.Raised? && r.error == GetValueTypeError && r.after.state == s.state
  {
    var storage := if s.storage.Some? then Some(s.storage.value[key := codec.stringify(data)]) else None;
    if !HasCellAsWritten(s.state, key) then Completed(Snapshot(storage, s.state))
    else if key !in s.state then Raised(Snapshot(storage, s.state), GetValueTypeError)
    else Completed(Set(s, codec, key, data))
  }

  /**
   * `clear(key)` as written: after the storage removal, a truthy lookup that
   * is not a cell reaches `getValue()` and throws.
   */
  function ClearAsWritten(s: Snapshot, key: string): (r: Completion)
    ensures r.after.storage == Clear(s, key).storage
    ensures key !in ObjectPrototypeMembers || key in s.state ==> r == Completed(Clear(s, key))
    ensures key in ObjectPrototypeMembers && key !in s.state ==>
              r.Raised? && r.error == GetValueTypeError && r.after.state == s.state
  {
    var storage := if s.storage.Some? then Some(s.storage.value - {key}) else None;
    if !HasCellAsWritten(s.state, key) then Completed(Snapshot(storage, s.state))
    else if key !in s.state then Raised(Snapshot(storage, s.state), GetValueTypeError)
    else Completed(Clear(s, key))
  }

  /**
   * On a new service, "toString" as written never gets a cell: `get` returns the
   * inherited function and leaves the state alone, and `set` and `clear` throw
   * at `getValue()`. The model's Get creates the key's own cell, after which the
   * model's Set publishes to it.
   */
  lemma PrototypeNameFinding(storage: Option<map<string, string>>, codec: Codec, v: Json)
    requires RawItem(storage, "toString").None?
    requires v != Null
    ensures var initial := Snapshot(storage, map[]);
            && GetAsWritten(initial, codec, "toString") == GetAsWrittenOutcome(initial, InheritedMember("toString"))
            && SetAsWritten(initial, codec, "toString", v).Raised?
            && ClearAsWritten(initial, "toString").Raised?
    ensures var initial := Snapshot(storage, map[]);
            var got := Get(initial, codec, "toString");
            && got == GetOutcome(Snapshot(storage, map["toString" := NewCell(Null)]), CellStream("toString"))
            && Set(got.after, codec, "toString", v).state["toString"].emissions == [Null, v]
  {
  }
}

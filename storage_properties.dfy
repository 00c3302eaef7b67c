/**
 * Properties of StorageService that relate several calls: the invariants every
 * sequence of calls keeps, the agreement between the cells and localStorage,
 * and the round trips and idempotence of the individual operations.
 */
module StorageProperties {
  import opened Wrappers
  import opened Json
  import opened StorageSpec

  /** One call of the public API. */
  datatype Op = GetOp(key: string) | SetOp(key: string, data: Json) | ClearOp(key: string) | ClearAllOp

  /** The state after one call. */
  function Step(s: Snapshot, codec: Codec, op: Op): (r: Snapshot)
    ensures r.storage.Some? == s.storage.Some?
    ensures s.state.Keys <= r.state.Keys
  {
    match op
    case GetOp(k) => Get(s, codec, k).after
    case SetOp(k, d) => Set(s, codec, k, d)
    case ClearOp(k) => Clear(s, k)
    case ClearAllOp => ClearAll(s)
  }

  /** The state after the calls `ops`, in order. */
  function Run(s: Snapshot, codec: Codec, ops: seq<Op>): (r: Snapshot)
    ensures r.storage.Some? == s.storage.Some?
    ensures s.state.Keys <= r.state.Keys
    decreases |ops|
  {
    if ops == [] then s else Step(Run(s, codec, ops[..|ops| - 1]), codec, ops[|ops| - 1])
  }

  /** A freshly constructed service. */
  function Fresh(available: bool, persisted: map<string, string>): (s: Snapshot) {
    Snapshot(if available then Some(persisted) else None, map[])
  }

  /** No cell loses an emission: each cell of `s` is still in `r`, its log extended. */
  ghost predicate Extends(s: Snapshot, r: Snapshot) {
    forall k :: k in s.state ==> k in r.state && s.state[k].emissions <= r.state[k].emissions
  }

  lemma StepExtends(s: Snapshot, codec: Codec, op: Op)
    ensures Extends(s, Step(s, codec, op))
  {
    var r := Step(s, codec, op);
    forall k | k in s.state
      ensures s.state[k].emissions <= r.state[k].emissions
    {
      var e := s.state[k].emissions;
      assert r.state[k].emissions[..|e|] == e;
    }
  }

  /**
   * Over any sequence of calls, no cell is removed, no emission is taken back,
   * and every cell stays well formed (its log ends in its current value and
   * never repeats a value twice in a row).
   */
  lemma {:induction false} RunKeepsCells(s: Snapshot, codec: Codec, ops: seq<Op>)
    requires Valid(s)
    ensures Valid(Run(s, codec, ops))
    ensures Extends(s, Run(s, codec, ops))
    decreases |ops|
  {
    if ops != [] {
      var before := Run(s, codec, ops[..|ops| - 1]);
      RunKeepsCells(s, codec, ops[..|ops| - 1]);
      StepExtends(before, codec, ops[|ops| - 1]);
      var after := Run(s, codec, ops);
      forall k | k in s.state
        ensures k in after.state && s.state[k].emissions <= after.state[k].emissions
      {
        assert s.state[k].emissions <= before.state[k].emissions;
      }
    }
  }

  /** What a direct read of localStorage gives for `key`: the parsed string, null when unset. */
  function ReadThrough(m: map<string, string>, codec: Codec, key: string): (v: Option<Json>) {
    if key in m then codec.parse(m[key]) else Some(Null)
  }

  /** Every cell holds what its key's stored string parses to, or null when its key is unset. */
  ghost predicate Coherent(s: Snapshot, codec: Codec) {
    s.storage.Some? ==> forall k :: k in s.state ==> Some(s.state[k].current) == ReadThrough(s.storage.value, codec, k)
  }

  lemma StepKeepsCoherent(s: Snapshot, codec: Codec, op: Op)
    requires RoundTrips(codec)
    requires Coherent(s, codec)
    ensures Coherent(Step(s, codec, op), codec)
  {
    match op
    case GetOp(k) =>
    case SetOp(k, d) =>
      assert codec.parse(codec.stringify(d)) == Some(d);
    case ClearOp(k) =>
    case ClearAllOp =>
  }

  lemma {:induction false} RunKeepsCoherent(s: Snapshot, codec: Codec, ops: seq<Op>)
    requires RoundTrips(codec)
    requires Coherent(s, codec)
    ensures Coherent(Run(s, codec, ops), codec)
    decreases |ops|
  {
    if ops != [] {
      RunKeepsCoherent(s, codec, ops[..|ops| - 1]);
      StepKeepsCoherent(Run(s, codec, ops[..|ops| - 1]), codec, ops[|ops| - 1]);
    }
  }

  /** In a coherent state, `get` answers exactly what a direct read of the storage would. */
  lemma CoherentGetReadsThrough(s: Snapshot, codec: Codec, key: string)
    requires Coherent(s, codec)
    requires s.storage.Some?
    ensures Get(s, codec, key).stream.CellStream? <==> ReadThrough(s.storage.value, codec, key).Some?
    ensures Get(s, codec, key).stream.CellStream? ==>
              Some(Get(s, codec, key).after.state[key].current) == ReadThrough(s.storage.value, codec, key)
  {
  }

  /**
   * From a new service on a platform with localStorage, after any sequence of
   * calls through the service, `get` answers what a direct read of the storage
   * would: with values that no caller mutates in place, the service's own
   * writes never leave a cell stale.
   */
  lemma CacheIsTransparent(persisted: map<string, string>, codec: Codec, ops: seq<Op>, key: string)
    requires RoundTrips(codec)
    ensures var s := Run(Fresh(true, persisted), codec, ops);
            && s.storage.Some?
            && (Get(s, codec, key).stream.CellStream? <==> ReadThrough(s.storage.value, codec, key).Some?)
            && (Get(s, codec, key).stream.CellStream? ==>
                  Some(Get(s, codec, key).after.state[key].current) == ReadThrough(s.storage.value, codec, key))
  {
    RunKeepsCoherent(Fresh(true, persisted), codec, ops);
    CoherentGetReadsThrough(Run(Fresh(true, persisted), codec, ops), codec, key);
  }

  /** The last call in `ops` that writes `key` to the storage. */
  datatype Written = Untouched | Removed | Stored(data: Json)

  function LastWrite(ops: seq<Op>, key: string): (w: Written)
    decreases |ops|
  {
    if ops == [] then Untouched
    else
      match ops[|ops| - 1]
      case GetOp(_) => LastWrite(ops[..|ops| - 1], key)
      case SetOp(k, d) => if k == key then Stored(d) else LastWrite(ops[..|ops| - 1], key)
      case ClearOp(k) => if k == key then Removed else LastWrite(ops[..|ops| - 1], key)
      case ClearAllOp => Removed
  }

  /**
   * With a storage present, the stored string for a key is the serialisation of
   * the last value `set` for it, absent after a later `clear` or `clearAll`, and
   * whatever was persisted before when no call wrote it.
   */
  lemma {:induction false} RunPersistsLastWrite(s: Snapshot, codec: Codec, ops: seq<Op>, key: string)
    requires s.storage.Some?
    ensures Run(s, codec, ops).storage.Some?
    ensures var m := Run(s, codec, ops).storage.value;
            match LastWrite(ops, key)
            case Untouched => (key in m <==> key in s.storage.value) && (key in m ==> m[key] == s.storage.value[key])
            case Removed => key !in m
            case Stored(d) => key in m && m[key] == codec.stringify(d)
    decreases |ops|
  {
    if ops != [] {
      RunPersistsLastWrite(s, codec, ops[..|ops| - 1], key);
      var before := Run(s, codec, ops[..|ops| - 1]).storage.value;
      var m := Run(s, codec, ops).storage.value;
      match ops[|ops| - 1]
      case GetOp(_) =>
      case SetOp(k, d) =>
        if k != key {
          assert key in m <==> key in before by {
            assert key in m <==> key in (m - {k});
            assert key in before <==> key in (before - {k});
          }
          if key in m {
            assert m[key] == (m - {k})[key];
            assert before[key] == (before - {k})[key];
          }
        }
      case ClearOp(k) =>
        if k != key {
          assert key in m <==> key in before by {
            assert key in m <==> key in (m - {k});
            assert key in before <==> key in (before - {k});
          }
          if key in m {
            assert m[key] == (m - {k})[key];
            assert before[key] == (before - {k})[key];
          }
        }
      case ClearAllOp =>
    }
  }

  /** After `set(key, v)`, `get(key)` yields a cell holding `v`, given a storage or an existing cell. */
  lemma SetThenGet(s: Snapshot, codec: Codec, key: string, v: Json)
    requires RoundTrips(codec)
    requires s.storage.Some? || key in s.state
    ensures Get(Set(s, codec, key, v), codec, key).stream == CellStream(key)
    ensures Get(Set(s, codec, key, v), codec, key).after.state[key].current == v
  {
    if key !in s.state {
      assert codec.parse(codec.stringify(v)) == Some(v);
    }
  }

  /**
   * Without a storage, a `set` before the key's first `get` is lost: `set`
   * creates no cell and persists nothing, so `get` then yields null.
   */
  lemma AbsentStorageSetBeforeGetIsLost(s: Snapshot, codec: Codec, key: string, v: Json)
    requires s.storage.None? && key !in s.state
    ensures Get(Set(s, codec, key, v), codec, key).stream == CellStream(key)
    ensures Get(Set(s, codec, key, v), codec, key).after.state[key].current == Null
  {
  }

  /** A second identical `set` changes nothing and emits nothing. */
  lemma SetIsIdempotent(s: Snapshot, codec: Codec, key: string, v: Json)
    ensures Set(Set(s, codec, key, v), codec, key, v) == Set(s, codec, key, v)
  {
    var once := Set(s, codec, key, v);
    var twice := Set(once, codec, key, v);
    if s.storage.Some? {
      assert twice.storage.value == once.storage.value;
    }
    assert twice.state == once.state;
  }

  /** A second `clear(key)` changes nothing and emits nothing, and the key stays unset. */
  lemma ClearIsIdempotent(s: Snapshot, key: string)
    ensures Clear(Clear(s, key), key) == Clear(s, key)
    ensures Clear(s, key).storage.Some? ==> key !in Clear(s, key).storage.value
  {
  }

  /** A second `clearAll` changes nothing and emits nothing. */
  lemma ClearAllIsIdempotent(s: Snapshot)
    ensures ClearAll(ClearAll(s)) == ClearAll(s)
  {
  }

  /** After `clearAll`, `get` yields null for every key, materialised or not. */
  lemma ClearAllThenGetIsNull(s: Snapshot, codec: Codec, key: string)
    ensures Get(ClearAll(s), codec, key).stream == CellStream(key)
    ensures Get(ClearAll(s), codec, key).after.state[key].current == Null
  {
  }

  /**
   * A parse error is not cached: it leaves the state as it was, the same
   * `get` fails again while the string is unchanged, and `get` succeeds once the
   * stored string is replaced by one that parses, whether by `set` or from outside.
   */
  lemma ParseErrorIsNotCached(s: Snapshot, codec: Codec, key: string, v: Json, fixed: string)
    requires RoundTrips(codec)
    requires Get(s, codec, key).stream.ThrowStream?
    requires codec.parse(fixed).Some?
    ensures Get(s, codec, key).after == s
    ensures Get(Get(s, codec, key).after, codec, key).stream.ThrowStream?
    ensures Get(Set(s, codec, key, v), codec, key).after.state[key].current == v
    ensures var repaired := Snapshot(Some(s.storage.value[key := fixed]), s.state);
            Get(repaired, codec, key).stream == CellStream(key) &&
            Some(Get(repaired, codec, key).after.state[key].current) == codec.parse(fixed)
  {
    SetThenGet(s, codec, key, v);
  }
}

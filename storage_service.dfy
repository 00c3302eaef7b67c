/**
 * StorageService: a reactive cache of one BehaviorSubject per key over the
 * browser's localStorage. Each method changes the service's fields exactly as
 * the matching function of StorageSpec describes.
 */
module Storage {
  import opened Wrappers
  import opened Json
  import opened StorageSpec

  class StorageService {
    /** JSON.stringify and JSON.parse. */
    const codec: Codec

    /** The contents of localStorage, or None on a platform without it. */
    var storage: Option<map<string, string>>

    /** The cell of every key materialised so far. */
    var state: map<string, Cell>

    /** The service's fields as a value. */
    function Snap(): (s: Snapshot)
      reads this
    {
      Snapshot(storage, state)
    }

    ghost predicate Valid()
      reads this
    {
      StorageSpec.Valid(Snap())
    }

    /**
     * Whether the platform has a localStorage, and what it holds, are
     * parameters; the one-time console warning for a missing one is not modelled.
     */
    constructor (available: bool, persisted: map<string, string>, codec: Codec)
      ensures Valid()
      ensures this.codec == codec
      ensures storage == (if available then Some(persisted) else None)
      ensures state == map[]
    {
      this.codec := codec;
      storage := if available then Some(persisted) else None;
      state := map[];
    }

    method Get(key: string) returns (r: Stream)
      requires Valid()
      modifies this
      ensures Valid()
      ensures StorageSpec.Get(old(Snap()), codec, key) == GetOutcome(Snap(), r)
    {
      if key in state {
        return CellStream(key);
      }
      var rawData: Option<string> := None;
      if storage.Some? && key in storage.value {
        rawData := Some(storage.value[key]);
      }
      var parsedData := Null;
      if rawData.Some? {
        var parsed := codec.parse(rawData.value);
        if parsed.None? {
          return ThrowStream(ParseErrorMessage);
        }
        parsedData := parsed.value;
      }
      state := state[key := NewCell(parsedData)];
      r := CellStream(key);
    }

    method Set(key: string, data: Json)
      requires Valid()
      modifies this
      ensures Valid()
      ensures Snap() == StorageSpec.Set(old(Snap()), codec, key, data)
    {
      var rawData := codec.stringify(data);
      if storage.Some? {
        storage := Some(storage.value[key := rawData]);
      }
      if key !in state {
        return;
      }
      var current := state[key].current;
      if current == data {
        return;
      }
      state := state[key := Next(state[key], data)];
    }

    method Clear(key: string)
      requires Valid()
      modifies this
      ensures Valid()
      ensures Snap() == StorageSpec.Clear(old(Snap()), key)
    {
      if storage.Some? {
        storage := Some(storage.value - {key});
      }
      if key !in state {
        return;
      }
      var current := state[key].current;
      if current == Null {
        return;
      }
      state := state[key := Next(state[key], Null)];
    }

    method ClearAll()
      requires Valid()
      modifies this
      ensures Valid()
      ensures Snap() == StorageSpec.ClearAll(old(Snap()))
    {
      if storage.Some? {
        storage := Some(map[]);
      }
      // `Object.keys(this.state).forEach(...)`: each key once, in any order.
      var keys := state.Keys;
      while keys != {}
        invariant keys <= old(state).Keys
        invariant state.Keys == old(state).Keys
        invariant storage == StorageSpec.ClearAll(old(Snap())).storage
        invariant forall k :: k in keys ==> state[k] == old(state)[k]
        invariant forall k :: k in state && k !in keys ==> state[k] == PublishIfChanged(old(state)[k], Null)
        decreases keys
      {
        var key :| key in keys;
        var current := state[key].current;
        if current != Null {
          state := state[key := Next(state[key], Null)];
        }
        keys := keys - {key};
      }
    }
  }
}

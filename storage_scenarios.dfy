/**
 * Clients of StorageService that use nothing but its method contracts: the
 * call sequences the service is meant to support, with what subscribers see.
 */
module StorageScenarios {
  import opened Json
  import opened StorageSpec
  import opened Storage

  /** Setting the same value twice reaches subscribers once. */
  method DedupScenario(codec: Codec, v: Json) returns (observed: seq<Json>)
    requires v != Null
    ensures observed == [Null, v]
  {
    var service := new StorageService(true, map[], codec);
    var stream := service.Get("token");
    service.Set("token", v);
    service.Set("token", v);
    observed := service.state["token"].emissions;
  }

  /** Clearing one key twice emits null once and leaves the key unset. */
  method ClearTwiceScenario(codec: Codec, v: Json) returns (observed: seq<Json>, stored: bool)
    requires v != Null
    ensures observed == [Null, v, Null]
    ensures !stored
  {
    var service := new StorageService(true, map[], codec);
    var stream := service.Get("token");
    service.Set("token", v);
    service.Clear("token");
    service.Clear("token");
    observed := service.state["token"].emissions;
    stored := "token" in service.storage.value;
  }

  /** After two sets and clearAll, both keys read null and the storage is empty. */
  method ClearAllScenario(codec: Codec, a: Json, b: Json) returns (first: Json, second: Json, storedKeys: set<string>)
    ensures first == Null && second == Null
    ensures storedKeys == {}
  {
    var service := new StorageService(true, map[], codec);
    service.Set("language", a);
    service.Set("token", b);
    service.ClearAll();
    var s1 := service.Get("language");
    var s2 := service.Get("token");
    first := service.state["language"].current;
    second := service.state["token"].current;
    storedKeys := service.storage.value.Keys;
  }

  /**
   * A malformed stored string makes the first get fail; once set has stored a
   * valid string, the next get yields its value.
   */
  method MalformedDataScenario(codec: Codec, bad: string, v: Json) returns (first: Stream, second: Stream, value: Json)
    requires RoundTrips(codec)
    requires codec.parse(bad).None?
    ensures first == ThrowStream(ParseErrorMessage)
    ensures second == CellStream("token")
    ensures value == v
  {
    var service := new StorageService(true, map["token" := bad], codec);
    first := service.Get("token");
    service.Set("token", v);
    second := service.Get("token");
    value := service.state["token"].current;
  }

  /**
   * Without localStorage, a value set after the key's first get lives on in
   * the cell, but one set before it is lost.
   */
  method AbsentStorageScenario(codec: Codec, v: Json) returns (kept: Json, lost: Json)
    ensures kept == v
    ensures lost == Null
  {
    var service := new StorageService(false, map[], codec);
    var s1 := service.Get("language");
    service.Set("language", v);
    var s2 := service.Get("language");
    kept := service.state["language"].current;
    service.Set("token", v);
    var s3 := service.Get("token");
    lost := service.state["token"].current;
  }
}

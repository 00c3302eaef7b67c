/** The values the service stores and the serialisation it applies to them. */
module Json {
  import opened Wrappers

  /** A value as JSON.parse produces it; only `Null` has a meaning of its own to the service. */
  datatype Json =
    | Null
    | Bool(b: bool)
    | Num(n: int)
    | Str(s: string)
    | Arr(items: seq<Json>)
    | Obj(members: seq<(string, Json)>)

  /** JSON.stringify and JSON.parse. `parse` yields None where JSON.parse throws. */
  datatype Codec = Codec(stringify: Json -> string, parse: string -> Option<Json>)

  /** The serialisation law: whatever stringify writes, parse reads back unchanged. */
  ghost predicate RoundTrips(c: Codec) {
    forall v: Json :: c.parse(c.stringify(v)) == Some(v)
  }
}

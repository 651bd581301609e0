/** JSON documents as JSON.parse returns them. */
module Json {

  /** A number is its `String(...)` rendering; an object keeps its own keys in enumeration order. */
  datatype Json =
    | Null
    | Bool(b: bool)
    | Num(repr: string)
    | Str(s: string)
    | Arr(items: seq<Json>)
    | Obj(fields: seq<Field>)

  datatype Field = Field(key: string, value: Json)

  predicate IsScalar(j: Json) {
    !j.Arr? && !j.Obj?
  }
}

/** JSON values as the renderer parses them. An object keeps its fields in order. */
module Json {

  datatype Json =
    | JNull
    | JBool(b: bool)
    | JInt(n: int)
    | JFloat(f: real)
    | JString(s: string)
    | JList(items: seq<Json>)
    | JObject(fields: seq<Field>)

  datatype Field = Field(name: string, value: Json)

  predicate IsScalar(j: Json) { !j.JList? && !j.JObject? }

  /** No object, at any depth, has two fields of the same name. */
  ghost predicate UniqueKeys(j: Json) {
    match j
    case JList(items) => forall x | x in items :: UniqueKeys(x)
    case JObject(fields) =>
      && (forall i, k | 0 <= i < k < |fields| :: fields[i].name != fields[k].name)
      && (forall f | f in fields :: UniqueKeys(f.value))
    case _ => true
  }
}

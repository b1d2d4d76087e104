/** JSON values as a schema validator sees them once a template has been parsed. */
module Json {

  /** A parsed JSON value. An object is a mapping from member names to values,
      so a name occurs at most once, as in a JavaScript object. */
  datatype Json =
    | JNull
    | JBool(b: bool)
    | JNumber(n: real)
    | JString(s: string)
    | JArray(elems: seq<Json>)
    | JObject(fields: map<string, Json>)

  /** The primitive types the `type` keyword of JSON Schema draft-07 can name
      (the derived type "integer" is not used by the schema modelled here). */
  datatype JsonType = NullType | BooleanType | NumberType | StringType | ArrayType | ObjectType

  /** The primitive type of a value. */
  function TypeOf(j: Json): JsonType {
    match j
    case JNull => NullType
    case JBool(_) => BooleanType
    case JNumber(_) => NumberType
    case JString(_) => StringType
    case JArray(_) => ArrayType
    case JObject(_) => ObjectType
  }

  /** Every element of an array is a string. */
  predicate IsStringArray(j: Json) {
    j.JArray? && forall i | 0 <= i < |j.elems| :: j.elems[i].JString?
  }
}

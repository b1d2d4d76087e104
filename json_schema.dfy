/** The part of the JSON Schema draft-07 vocabulary that the service resource
    schema uses, and the accept/reject relation it defines (JSON Schema
    Validation draft-07, sections 6.1.1 `type`, 6.1.3 `const`, 6.4.1 `items`,
    6.5.3 `required`, 6.5.4 `properties`, 6.5.5 `patternProperties`,
    6.7.3 `oneOf`; `$ref` from section 8 of JSON Schema Core draft-07). */
module JsonSchema {
  import opened Json
  import opened Pattern

  /** A schema: either a reference, whose sibling keywords draft-07 ignores, or a
      set of keywords that must all hold. */
  datatype Schema =
    | Ref(target: string)
    | Keywords(keywords: seq<Keyword>)

  datatype Keyword =
    | Id(uri: string)                                   // `$id`: annotation only
    | Description(text: string)                         // `description`: annotation only
    | Type(t: JsonType)
    | Const(value: Json)
    | Properties(props: seq<(string, Schema)>)
    | PatternProperties(patterns: seq<(Regex, Schema)>)
    | Required(names: seq<string>)
    | Items(item: Schema)                               // the single-schema form of `items`
    | OneOf(branches: seq<Schema>)

  /** The validator's answer: does `j` validate against `s`? `resolve` stands for the
      schemas that `$ref` names, which are registered elsewhere with the validator. */
  predicate Valid(s: Schema, j: Json, resolve: (string, Json) -> bool)
    decreases s
  {
    match s
    case Ref(target) => resolve(target, j)
    case Keywords(ks) => forall i | 0 <= i < |ks| :: Holds(ks[i], j, resolve)
  }

  /** One keyword's assertion about `j`. Object and array keywords are satisfied
      by instances of other types, as draft-07 prescribes. */
  predicate Holds(k: Keyword, j: Json, resolve: (string, Json) -> bool)
    decreases k
  {
    match k
    case Id(_) => true
    case Description(_) => true
    case Type(t) => TypeOf(j) == t
    case Const(v) => j == v
    case Properties(props) =>
      j.JObject? ==>
        forall i | 0 <= i < |props| && props[i].0 in j.fields ::
          Valid(props[i].1, j.fields[props[i].0], resolve)
    case PatternProperties(patterns) =>
      j.JObject? ==>
        forall i, name | 0 <= i < |patterns| && name in j.fields && Search(patterns[i].0, name) ::
          Valid(patterns[i].1, j.fields[name], resolve)
    case Required(names) =>
      j.JObject? ==> forall i | 0 <= i < |names| :: names[i] in j.fields
    case Items(item) =>
      j.JArray? ==> forall i | 0 <= i < |j.elems| :: Valid(item, j.elems[i], resolve)
    case OneOf(branches) => CountValid(branches, j, resolve) == 1
  }

  /** How many of the schemas `j` validates against: none exactly when no branch
      validates, all exactly when every branch does. */
  function CountValid(branches: seq<Schema>, j: Json, resolve: (string, Json) -> bool): (n: nat)
    ensures n <= |branches|
    ensures n == 0 <==> forall i | 0 <= i < |branches| :: !Valid(branches[i], j, resolve)
    ensures n == |branches| <==> forall i | 0 <= i < |branches| :: Valid(branches[i], j, resolve)
    decreases branches
  {
    if branches == [] then 0
    else (if Valid(branches[0], j, resolve) then 1 else 0) + CountValid(branches[1..], j, resolve)
  }

  /** Exactly one of three conditions holds. */
  predicate ExactlyOne(a: bool, b: bool, c: bool) {
    (a && !b && !c) || (!a && b && !c) || (!a && !b && c)
  }

  /** A schema of one keyword is that keyword. */
  lemma OneKeyword(a: Keyword, j: Json, resolve: (string, Json) -> bool)
    ensures Valid(Keywords([a]), j, resolve) <==> Holds(a, j, resolve)
  {
    assert [a][0] == a;
  }

  /** A schema of two keywords is their conjunction. */
  lemma TwoKeywords(a: Keyword, b: Keyword, j: Json, resolve: (string, Json) -> bool)
    ensures Valid(Keywords([a, b]), j, resolve) <==> Holds(a, j, resolve) && Holds(b, j, resolve)
  {
    var ks := [a, b];
    assert ks[0] == a && ks[1] == b;
  }

  /** A schema of three keywords is their conjunction. */
  lemma ThreeKeywords(a: Keyword, b: Keyword, c: Keyword, j: Json, resolve: (string, Json) -> bool)
    ensures Valid(Keywords([a, b, c]), j, resolve)
        <==> Holds(a, j, resolve) && Holds(b, j, resolve) && Holds(c, j, resolve)
  {
    var ks := [a, b, c];
    assert ks[0] == a && ks[1] == b && ks[2] == c;
  }

  /** `oneOf` with two branches is an exclusive or. */
  lemma OneOfTwo(a: Schema, b: Schema, j: Json, resolve: (string, Json) -> bool)
    ensures Holds(OneOf([a, b]), j, resolve) <==> (Valid(a, j, resolve) != Valid(b, j, resolve))
  {
    var x, y := Valid(a, j, resolve), Valid(b, j, resolve);
    assert [a, b][1..] == [b] && [b][1..] == [];
    assert CountValid([b], j, resolve) == if y then 1 else 0;
    assert CountValid([a, b], j, resolve) == (if x then 1 else 0) + (if y then 1 else 0);
  }

  /** `oneOf` with three branches: exactly one branch validates. */
  lemma OneOfThree(a: Schema, b: Schema, c: Schema, j: Json, resolve: (string, Json) -> bool)
    ensures Holds(OneOf([a, b, c]), j, resolve)
        <==> ExactlyOne(Valid(a, j, resolve), Valid(b, j, resolve), Valid(c, j, resolve))
  {
    var x, y, z := Valid(a, j, resolve), Valid(b, j, resolve), Valid(c, j, resolve);
    assert [a, b, c][1..] == [b, c] && [b, c][1..] == [c] && [c][1..] == [];
    assert CountValid([c], j, resolve) == if z then 1 else 0;
    assert CountValid([b, c], j, resolve) == (if y then 1 else 0) + (if z then 1 else 0);
    assert CountValid([a, b, c], j, resolve)
        == (if x then 1 else 0) + (if y then 1 else 0) + (if z then 1 else 0);
  }
}

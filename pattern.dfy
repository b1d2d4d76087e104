/** The fragment of ECMA-262 regular expressions that JSON Schema `patternProperties`
    keys use here: anchors, a negative lookahead over literal alternatives, and
    bracketed character classes with a bounded quantifier. A pattern is a sequence
    of terms; `Search` is the unanchored search JSON Schema prescribes (section
    4.3 of JSON Schema Validation draft-07: patterns are not implicitly anchored). */
module Pattern {

  /** A bracketed character class as a list of inclusive ranges:
      `[a-zA-Z_]` is [('a','z'), ('A','Z'), ('_','_')]. */
  datatype CharClass = CharClass(ranges: seq<(char, char)>)

  predicate InClass(c: char, cls: CharClass) {
    exists i | 0 <= i < |cls.ranges| :: cls.ranges[i].0 <= c <= cls.ranges[i].1
  }

  datatype Term =
    | StartAnchor                                 // `^`, without the multiline flag
    | EndAnchor                                   // `$`, without the multiline flag
    | NegLookahead(alternatives: seq<string>)     // `(?!a|b|…)` over literal alternatives
    | Repeat(cls: CharClass, min: nat, max: nat)  // `[…]{min,max}`; a lone class is `{1,1}`

  type Regex = seq<Term>

  /** Some alternative is a prefix of `s`: the lookahead's disjunction matches. */
  predicate StartsWithAny(s: string, alternatives: seq<string>) {
    exists i | 0 <= i < |alternatives| :: alternatives[i] <= s
  }

  /** The terms `re` match `s` starting at position `pos` (with any continuation:
      success of a backtracking matcher does not depend on greedy order). */
  predicate MatchAt(re: Regex, s: string, pos: nat)
    requires pos <= |s|
    decreases |re|, 0
  {
    if re == [] then true
    else match re[0]
      case StartAnchor => pos == 0 && MatchAt(re[1..], s, pos)
      case EndAnchor => pos == |s| && MatchAt(re[1..], s, pos)
      case NegLookahead(alternatives) =>
        !StartsWithAny(s[pos..], alternatives) && MatchAt(re[1..], s, pos)
      case Repeat(cls, min, max) => RepeatThen(cls, min, max, re[1..], s, pos)
  }

  /** `cls{min,max}` followed by `rest` matches at `pos`: either the class may stop
      here and `rest` matches, or one more character of the class is consumed. */
  predicate RepeatThen(cls: CharClass, min: nat, max: nat, rest: Regex, s: string, pos: nat)
    requires pos <= |s|
    decreases |rest|, max + 1
  {
    || (min == 0 && MatchAt(rest, s, pos))
    || (0 < max && pos < |s| && InClass(s[pos], cls)
        && RepeatThen(cls, if min == 0 then 0 else min - 1, max - 1, rest, s, pos + 1))
  }

  /** Some start position at or after `start` lets `re` match. */
  predicate SearchFrom(re: Regex, s: string, start: nat)
    requires start <= |s|
    decreases |s| - start
  {
    MatchAt(re, s, start) || (start < |s| && SearchFrom(re, s, start + 1))
  }

  /** `RegExp.prototype.test` without flags: some position of `s` starts a match. */
  predicate Search(re: Regex, s: string) {
    SearchFrom(re, s, 0)
  }

  /** A pattern that begins with `^` can match only at position 0. */
  lemma {:induction false} AnchoredSearchLater(re: Regex, s: string, start: nat)
    requires re != [] && re[0] == StartAnchor
    requires 0 < start <= |s|
    ensures !SearchFrom(re, s, start)
    decreases |s| - start
  {
    if start < |s| {
      AnchoredSearchLater(re, s, start + 1);
    }
  }

  /** Searching with a `^`-anchored pattern is matching at the start. */
  lemma AnchoredSearch(re: Regex, s: string)
    requires re != [] && re[0] == StartAnchor
    ensures Search(re, s) <==> MatchAt(re, s, 0)
  {
    if 0 < |s| {
      AnchoredSearchLater(re, s, 1);
    }
  }

  /** `cls{min,max}$` matches the rest of `s` from `pos` exactly when that rest
      has between `min` and `max` characters, all in the class. */
  lemma {:induction false} RepeatToEnd(cls: CharClass, min: nat, max: nat, s: string, pos: nat)
    requires pos <= |s|
    ensures RepeatThen(cls, min, max, [EndAnchor], s, pos)
        <==> min <= |s| - pos <= max && forall i | pos <= i < |s| :: InClass(s[i], cls)
    decreases max
  {
    assert MatchAt([EndAnchor], s, pos) <==> pos == |s| by {
      assert [EndAnchor][1..] == [];
    }
    if 0 < max && pos < |s| {
      RepeatToEnd(cls, if min == 0 then 0 else min - 1, max - 1, s, pos + 1);
    }
  }
}

/** Plan selections and interaction labels: a name followed by `[key=value]` groups. */
module VariantSelection {
  import opened Bytes
  import opened Text

  type Pair = (string, string)
  type Variant = map<string, string>

  predicate IsAlnum(c: char) {
    'A' <= c <= 'Z' || 'a' <= c <= 'z' || '0' <= c <= '9'
  }

  predicate IsKeyChar(c: char) {
    IsAlnum(c) || c == '_'
  }

  predicate IsValueChar(c: char) {
    IsAlnum(c) || c in "_.:-"
  }

  /** Names are letters and digits; keys may have underscores, and values more. */
  lemma CharacterClasses(c: char)
    ensures IsAlnum(c) <==> c in UPPER + LOWER + DIGITS
    ensures IsKeyChar(c) <==> c in UPPER + LOWER + DIGITS + "_"
    ensures IsValueChar(c) <==> c in UPPER + LOWER + DIGITS + "_" + "." + ":" + "-"
  {
    Alphabet(c);
  }

  predicate All(s: string, p: char -> bool) {
    forall i :: 0 <= i < |s| ==> p(s[i])
  }

  predicate WellFormed(pair: Pair) {
    pair.0 != "" && All(pair.0, IsKeyChar) && pair.1 != "" && All(pair.1, IsValueChar)
  }

  function Group(pair: Pair): (s: string) {
    "[" + pair.0 + "=" + pair.1 + "]"
  }

  function Groups(pairs: seq<Pair>): string {
    if pairs == [] then "" else Group(pairs[0]) + Groups(pairs[1..])
  }

  /** `dict(pairs)`: a repeated key keeps its last value. */
  function ToMap(pairs: seq<Pair>): Variant {
    if pairs == [] then map[] else ToMap(pairs[..|pairs| - 1])[pairs[|pairs| - 1].0 := pairs[|pairs| - 1].1]
  }

  ghost predicate DistinctKeys(pairs: seq<Pair>) {
    forall i, j :: 0 <= i < j < |pairs| ==> pairs[i].0 != pairs[j].0
  }

  // ---------------------------------------------------------------- findall

  /** Length of the longest prefix of `s` made of `p` characters. */
  function Span(s: string, p: char -> bool): (n: nat)
    ensures n <= |s| && All(s[..n], p)
    ensures n < |s| ==> !p(s[n])
  {
    if s == "" || !p(s[0]) then 0 else 1 + Span(s[1..], p)
  }

  /** A run stops at the first other character. */
  lemma SpanRun(run: string, after: string, p: char -> bool)
    requires All(run, p) && after != "" && !p(after[0])
    ensures Span(run + after, p) == |run| && (run + after)[..|run|] == run && (run + after)[|run|..] == after
  {
    var s := run + after;
    assert forall i :: 0 <= i < |run| ==> p(s[i]);
    assert forall i :: 0 <= i < Span(s, p) ==> s[..Span(s, p)][i] == s[i];
    assert s[|run|] == after[0];
  }

  /** The group at the very front of `s`, as the pattern's greedy runs match it. */
  function MatchAt(s: string): (m: Option<Pair>)
    ensures m.Some? ==> WellFormed(m.value) && Group(m.value) <= s
  {
    if s == "" || s[0] != '[' then None
    else
      var k := Span(s[1..], IsKeyChar);
      if k == 0 || 1 + k == |s| || s[1 + k] != '=' then None
      else
        var rest := s[2 + k..];
        var v := Span(rest, IsValueChar);
        if v == 0 || v == |rest| || rest[v] != ']' then None
        else
          var pair := (s[1..][..k], rest[..v]);
          assert s == ['['] + pair.0 + ['='] + rest;
          assert rest == pair.1 + [']'] + rest[v + 1..];
          assert s == Group(pair) + rest[v + 1..];
          Some(pair)
  }

  function FindAll(s: string): (pairs: seq<Pair>)
    ensures forall i :: 0 <= i < |pairs| ==> WellFormed(pairs[i])
    decreases |s|
  {
    if s == "" then []
    else
      match MatchAt(s)
      case Some(pair) => [pair] + FindAll(s[|Group(pair)|..])
      case None => FindAll(s[1..])
  }

  lemma MatchGroup(pair: Pair, rest: string)
    requires WellFormed(pair)
    ensures MatchAt(Group(pair) + rest) == Some(pair)
  {
    var closed := ['='] + (pair.1 + ([']'] + rest));
    assert Group(pair) + rest == ['['] + (pair.0 + closed);
    MatchParts(pair, pair.0 + closed, closed, pair.1 + ([']'] + rest), [']'] + rest);
  }

  /** Key and value are the two runs, whatever follows the closing bracket. */
  lemma MatchParts(pair: Pair, inner: string, closed: string, tail: string, end: string)
    requires WellFormed(pair) && inner == pair.0 + closed && closed == ['='] + tail
    requires tail == pair.1 + end && end != "" && end[0] == ']'
    ensures MatchAt(['['] + inner) == Some(pair)
  {
    var s := ['['] + inner;
    assert s[1..] == inner;
    SpanRun(pair.0, closed, IsKeyChar);
    assert s[2 + |pair.0|..] == closed[1..] == tail;
    SpanRun(pair.1, end, IsValueChar);
  }

  lemma FindAllCons(pair: Pair, rest: string)
    requires WellFormed(pair)
    ensures FindAll(Group(pair) + rest) == [pair] + FindAll(rest)
  {
    MatchGroup(pair, rest);
    assert (Group(pair) + rest)[|Group(pair)|..] == rest;
  }

  lemma {:induction false} FindAllGroups(pairs: seq<Pair>)
    requires forall i :: 0 <= i < |pairs| ==> WellFormed(pairs[i])
    ensures FindAll(Groups(pairs)) == pairs
    decreases |pairs|
  {
    if pairs != [] {
      FindAllCons(pairs[0], Groups(pairs[1..]));
      FindAllGroups(pairs[1..]);
      assert pairs == [pairs[0]] + pairs[1..];
    }
  }

  // ---------------------------------------------------------------- the parser

  /** Index of the first bracket, or the length. */
  function Bracket(s: string): (i: nat)
    ensures i <= |s| && (i < |s| ==> s[i] == '[') && forall j :: 0 <= j < i ==> s[j] != '['
  {
    if s == "" || s[0] == '[' then 0 else 1 + Bracket(s[1..])
  }

  /** Finds every group after the name, prints the lot again, and compares. */
  function ParseVariantSelection(selection: string): (r: Option<(string, Variant)>) {
    var bracket := Bracket(selection);
    var name := selection[..bracket];
    var pairs := if bracket + 1 < |selection| then FindAll(selection[bracket..]) else [];
    if selection != name + Groups(pairs) || |ToMap(pairs)| != |pairs| then None
    else Some((name, ToMap(pairs)))
  }

  function KeysOf(pairs: seq<Pair>): (keys: seq<string>)
    ensures |keys| == |pairs| && forall i :: 0 <= i < |keys| ==> keys[i] == pairs[i].0
  {
    seq(|pairs|, i requires 0 <= i < |pairs| => pairs[i].0)
  }

  lemma {:induction false} MapKeys(pairs: seq<Pair>)
    ensures ToMap(pairs).Keys == Elements(KeysOf(pairs))
  {
    if pairs != [] {
      var front, last := pairs[..|pairs| - 1], pairs[|pairs| - 1];
      MapKeys(front);
      assert KeysOf(pairs)[..|front|] == KeysOf(front);
      ElementsSnoc(KeysOf(pairs), |front|);
      assert KeysOf(pairs)[..|front| + 1] == KeysOf(pairs);
    }
  }

  lemma MapSize(pairs: seq<Pair>)
    ensures |ToMap(pairs)| <= |pairs|
    ensures forall k :: k in ToMap(pairs) <==> exists i :: 0 <= i < |pairs| && pairs[i].0 == k
    ensures |ToMap(pairs)| == |pairs| <==> DistinctKeys(pairs)
  {
    MapKeys(pairs);
    CountDistinct(KeysOf(pairs));
    assert |ToMap(pairs)| == |ToMap(pairs).Keys|;
  }

  /** The grammar of a selection. */
  ghost predicate Describes(name: string, pairs: seq<Pair>, selection: string) {
    && '[' !in name
    && (forall i :: 0 <= i < |pairs| ==> WellFormed(pairs[i]))
    && DistinctKeys(pairs)
    && selection == name + Groups(pairs)
  }

  lemma ParseComplete(name: string, pairs: seq<Pair>, selection: string)
    requires Describes(name, pairs, selection)
    ensures ParseVariantSelection(selection) == Some((name, ToMap(pairs)))
  {
    FindAllGroups(pairs);
    MapSize(pairs);
    var bracket := Bracket(selection);
    assert forall j :: 0 <= j < |name| ==> selection[j] == name[j];
    if pairs != [] {
      assert selection == name + (Group(pairs[0]) + Groups(pairs[1..]));
      assert selection[|name|] == '[';
      assert selection[|name|..] == Groups(pairs);
    } else {
      assert selection == name;
    }
    assert bracket == |name|;
  }

  /** Parsing accepts exactly the grammar, although it is written as find, print and compare. */
  lemma ParseExact(selection: string, name: string, variant: Variant)
    ensures ParseVariantSelection(selection) == Some((name, variant))
      <==> exists pairs :: Describes(name, pairs, selection) && variant == ToMap(pairs)
  {
    if ParseVariantSelection(selection) == Some((name, variant)) {
      var bracket := Bracket(selection);
      var pairs := if bracket + 1 < |selection| then FindAll(selection[bracket..]) else [];
      MapSize(pairs);
      assert Describes(name, pairs, selection);
    }
    if pairs :| Describes(name, pairs, selection) && variant == ToMap(pairs) {
      ParseComplete(name, pairs, selection);
    }
  }

  // ---------------------------------------------------------------- the sorted label printer

  function PairsOf(keys: seq<string>, variant: Variant): (pairs: seq<Pair>)
    requires forall i :: 0 <= i < |keys| ==> keys[i] in variant
    ensures |pairs| == |keys| && forall i :: 0 <= i < |keys| ==> pairs[i] == (keys[i], variant[keys[i]])
  {
    seq(|keys|, i requires 0 <= i < |keys| => (keys[i], variant[keys[i]]))
  }

  function SortedPairs(variant: Variant): (pairs: seq<Pair>)
    ensures |pairs| == |Sorted(variant.Keys)|
    ensures forall i :: 0 <= i < |pairs| ==> pairs[i].0 in variant && pairs[i].1 == variant[pairs[i].0]
  {
    var keys := Sorted(variant.Keys);
    assert forall i :: 0 <= i < |keys| ==> keys[i] in Elements(keys);
    PairsOf(keys, variant)
  }

  function Label(name: string, variant: Variant): string {
    name + Groups(SortedPairs(variant))
  }

  lemma {:induction false} ToMapValues(pairs: seq<Pair>, variant: Variant)
    requires forall i :: 0 <= i < |pairs| ==> pairs[i].0 in variant && pairs[i].1 == variant[pairs[i].0]
    ensures forall k :: k in ToMap(pairs) ==> k in variant && ToMap(pairs)[k] == variant[k]
    decreases |pairs|
  {
    if pairs != [] {
      ToMapValues(pairs[..|pairs| - 1], variant);
    }
  }

  lemma SortedPairsMap(variant: Variant)
    ensures DistinctKeys(SortedPairs(variant)) && ToMap(SortedPairs(variant)) == variant
  {
    var keys, pairs := Sorted(variant.Keys), SortedPairs(variant);
    ToMapValues(pairs, variant);
    MapSize(pairs);
    forall k | k in variant ensures k in ToMap(pairs) {
      assert k in Elements(keys);
      var i :| 0 <= i < |keys| && keys[i] == k;
      assert pairs[i].0 == k;
    }
  }

  /** A label lists its keys in Python's order. */
  lemma {:induction false} SortedPairsIncrease(variant: Variant)
    ensures Increasing(KeysOf(SortedPairs(variant)))
  {
    assert KeysOf(SortedPairs(variant)) == Sorted(variant.Keys);
    IncreasingExact(Sorted(variant.Keys));
  }

  predicate AdmissibleVariant(variant: Variant) {
    forall k :: k in variant ==> WellFormed((k, variant[k]))
  }

  /** Printing a label and parsing it back is the identity. */
  lemma LabelRoundTrip(name: string, variant: Variant)
    requires '[' !in name && AdmissibleVariant(variant)
    ensures ParseVariantSelection(Label(name, variant)) == Some((name, variant))
  {
    SortedPairsMap(variant);
    var pairs := SortedPairs(variant);
    assert forall i :: 0 <= i < |pairs| ==> WellFormed((pairs[i].0, variant[pairs[i].0]));
    ParseComplete(name, pairs, Label(name, variant));
  }
}

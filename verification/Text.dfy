/** Strings in Python's order, and `sorted` on a set of them. */
module Text {

  const DIGITS := "0123456789"
  const LOWER := "abcdefghijklmnopqrstuvwxyz"
  const UPPER := "ABCDEFGHIJKLMNOPQRSTUVWXYZ"

  /** The three ranges are the letters and digits of ASCII. */
  lemma Alphabet(c: char)
    ensures '0' <= c <= '9' <==> c in DIGITS
    ensures 'a' <= c <= 'z' <==> c in LOWER
    ensures 'A' <= c <= 'Z' <==> c in UPPER
  {
    DigitsExact(c);
    LowerExact(c);
    UpperExact(c);
  }

  lemma DigitsExact(c: char)
    ensures '0' <= c <= '9' <==> c in DIGITS
  {
    if '0' <= c <= '9' {
      assert DIGITS[c as int - '0' as int] == c;
    }
  }

  lemma LowerExact(c: char)
    ensures 'a' <= c <= 'z' <==> c in LOWER
  {
    if 'a' <= c <= 'z' {
      assert LOWER[c as int - 'a' as int] == c;
    }
  }

  lemma UpperExact(c: char)
    ensures 'A' <= c <= 'Z' <==> c in UPPER
  {
    if 'A' <= c <= 'Z' {
      assert UPPER[c as int - 'A' as int] == c;
    }
  }

  /** White space of ASCII, as `str.split` and `str.strip` have it. */
  predicate IsSpace(c: char) {
    9 <= c as int <= 13 || 28 <= c as int <= 32
  }

  lemma SpaceExact(c: char)
    ensures IsSpace(c) <==> c in " \t\n\r" || c as int in {11, 12, 28, 29, 30, 31}
  {
  }

  predicate LessEq(a: string, b: string) {
    a == [] || (b != [] && (a[0] < b[0] || (a[0] == b[0] && LessEq(a[1..], b[1..]))))
  }

  predicate Less(a: string, b: string) {
    LessEq(a, b) && a != b
  }

  lemma {:induction false} LessEqTotal(a: string, b: string)
    ensures LessEq(a, b) || LessEq(b, a)
  {
    if a != [] && b != [] {
      LessEqTotal(a[1..], b[1..]);
    }
  }

  lemma {:induction false} LessEqAntisymmetric(a: string, b: string)
    requires LessEq(a, b) && LessEq(b, a)
    ensures a == b
  {
    if a != [] && b != [] {
      LessEqAntisymmetric(a[1..], b[1..]);
      assert a == [a[0]] + a[1..] && b == [b[0]] + b[1..];
    }
  }

  lemma {:induction false} LessEqTransitive(a: string, b: string, c: string)
    requires LessEq(a, b) && LessEq(b, c)
    ensures LessEq(a, c)
  {
    if a != [] && a[0] == b[0] == c[0] {
      LessEqTransitive(a[1..], b[1..], c[1..]);
    }
  }

  /** Where two strings first differ, one ends or has the smaller character. */
  predicate SmallerAt(a: string, b: string, k: nat) {
    && k <= |a| && k < |b| && a[..k] == b[..k]
    && (k < |a| ==> a[k] < b[k])
  }

  ghost predicate Smaller(a: string, b: string) {
    exists k :: SmallerAt(a, b, k)
  }

  /** The order is Python's: by the first difference, a prefix before anything longer. */
  lemma {:induction false} LessExact(a: string, b: string)
    ensures Less(a, b) <==> Smaller(a, b)
  {
    if Less(a, b) {
      var k := FirstDifference(a, b);
    }
    if k :| SmallerAt(a, b, k) {
      SmallerLess(a, b, k);
    }
  }

  lemma {:induction false} FirstDifference(a: string, b: string) returns (k: nat)
    requires Less(a, b)
    ensures SmallerAt(a, b, k)
  {
    if a == [] || a[0] < b[0] {
      k := 0;
    } else {
      assert a == [a[0]] + a[1..] && b == [b[0]] + b[1..];
      k := FirstDifference(a[1..], b[1..]);
      assert a[..k + 1] == [a[0]] + a[1..][..k] && b[..k + 1] == [b[0]] + b[1..][..k];
      k := k + 1;
    }
  }

  lemma {:induction false} SmallerLess(a: string, b: string, k: nat)
    requires SmallerAt(a, b, k)
    ensures Less(a, b)
  {
    if k > 0 {
      assert a[0] == a[..k][0] && b[0] == b[..k][0];
      assert a[1..][..k - 1] == a[..k][1..] && b[1..][..k - 1] == b[..k][1..];
      SmallerLess(a[1..], b[1..], k - 1);
      assert a[1..] != b[1..];
    }
  }

  predicate Least(m: string, s: set<string>) {
    m in s && forall x :: x in s ==> LessEq(m, x)
  }

  lemma LeastUnique(s: set<string>, m: string, n: string)
    requires Least(m, s) && Least(n, s)
    ensures m == n
  {
    LessEqAntisymmetric(m, n);
  }

  lemma {:induction false} LeastExists(s: set<string>)
    requires s != {}
    ensures exists m :: Least(m, s)
    decreases |s|
  {
    var x :| x in s;
    if s == {x} {
      LessEqTotal(x, x);
      assert Least(x, s);
    } else {
      var rest := s - {x};
      LeastExists(rest);
      var m :| Least(m, rest);
      LessEqTotal(x, m);
      LessEqTotal(x, x);
      if LessEq(m, x) {
        assert Least(m, s);
      } else {
        forall y | y in rest ensures LessEq(x, y) {
          LessEqTransitive(x, m, y);
        }
        assert Least(x, s);
      }
    }
  }

  ghost predicate StrictlySorted(names: seq<string>) {
    forall i, j :: 0 <= i < j < |names| ==> Less(names[i], names[j])
  }

  /** Any earlier name is smaller where it first differs from a later one. */
  ghost predicate Increasing(names: seq<string>) {
    forall i, j :: 0 <= i < j < |names| ==> Smaller(names[i], names[j])
  }

  lemma {:induction false} IncreasingExact(names: seq<string>)
    ensures StrictlySorted(names) <==> Increasing(names)
  {
    forall i, j | 0 <= i < j < |names|
      ensures Less(names[i], names[j]) <==> Smaller(names[i], names[j])
    {
      LessExact(names[i], names[j]);
    }
  }

  function Elements<T>(xs: seq<T>): set<T> {
    set x | x in xs
  }

  lemma EmptyElements<T>(xs: seq<T>)
    ensures Elements(xs) == {} <==> xs == []
  {
    if xs != [] {
      assert xs[0] in Elements(xs);
    }
  }

  /** A list has as many elements as its set exactly when it has no repetition. */
  lemma {:induction false} CountDistinct<T>(xs: seq<T>)
    ensures |Elements(xs)| <= |xs|
    ensures |Elements(xs)| == |xs| <==> forall i, j :: 0 <= i < j < |xs| ==> xs[i] != xs[j]
  {
    if xs != [] {
      var front, last := xs[..|xs| - 1], xs[|xs| - 1];
      CountDistinct(front);
      assert xs == front + [last];
      if last in front {
        assert Elements(xs) == Elements(front);
        var i :| 0 <= i < |front| && front[i] == last;
        assert xs[i] == xs[|xs| - 1];
      } else {
        assert Elements(xs) == Elements(front) + {last};
      }
    }
  }

  lemma Snoc<T>(xs: seq<T>, n: nat)
    requires n < |xs|
    ensures xs[..n + 1] == xs[..n] + [xs[n]]
  {
  }

  lemma ElementsSnoc<T>(xs: seq<T>, n: nat)
    requires n < |xs|
    ensures Elements(xs[..n + 1]) == Elements(xs[..n]) + {xs[n]}
  {
    Snoc(xs, n);
  }

  function First(s: set<string>): (m: string)
    requires s != {}
    ensures Least(m, s)
  {
    LeastExists(s);
    assert forall m, n :: Least(m, s) && Least(n, s) ==> m == n by {
      forall m, n | Least(m, s) && Least(n, s) ensures m == n { LeastUnique(s, m, n); }
    }
    var m :| m in s && Least(m, s);
    m
  }

  lemma LeastFirst(m: string, rest: seq<string>, s: set<string>)
    requires Least(m, s) && StrictlySorted(rest) && Elements(rest) == s - {m}
    ensures StrictlySorted([m] + rest) && Elements([m] + rest) == s
  {
    forall i | 0 <= i < |rest| ensures Less(m, rest[i]) {
      assert rest[i] in Elements(rest);
    }
    assert Elements([m] + rest) == {m} + Elements(rest);
  }

  /** The elements of `s` in increasing order. */
  function Sorted(s: set<string>): (names: seq<string>)
    ensures StrictlySorted(names) && Elements(names) == s
    decreases |s|
  {
    if s == {} then [] else
      var m := First(s);
      var rest := Sorted(s - {m});
      LeastFirst(m, rest, s);
      [m] + rest
  }

  lemma {:induction false} SortedCount(s: set<string>)
    ensures |Sorted(s)| == |s|
    decreases |s|
  {
    if s != {} {
      SortedCount(s - {First(s)});
    }
  }

  lemma SameFirst(a: seq<string>, b: seq<string>)
    requires StrictlySorted(a) && StrictlySorted(b) && Elements(a) == Elements(b) && a != [] && b != []
    ensures a[0] == b[0]
  {
    assert a[0] in Elements(b) && b[0] in Elements(a);
    var i :| 0 <= i < |a| && a[i] == b[0];
    var j :| 0 <= j < |b| && b[j] == a[0];
    if i > 0 && j > 0 {
      LessEqAntisymmetric(a[0], b[0]);
    }
  }

  lemma LaterElements(a: seq<string>)
    requires StrictlySorted(a) && a != []
    ensures Elements(a[1..]) == Elements(a) - {a[0]}
  {
    assert a == [a[0]] + a[1..];
    assert forall i :: 0 < i < |a| ==> a[i] != a[0];
  }

  /** There is only one way to list a set in increasing order. */
  lemma {:induction false} SortedUnique(a: seq<string>, b: seq<string>)
    requires StrictlySorted(a) && StrictlySorted(b) && Elements(a) == Elements(b)
    ensures a == b
    decreases |a|
  {
    EmptyElements(a);
    EmptyElements(b);
    if a != [] {
      SameFirst(a, b);
      LaterElements(a);
      LaterElements(b);
      SortedUnique(a[1..], b[1..]);
      assert a == [a[0]] + a[1..] && b == [b[0]] + b[1..];
    }
  }

  /** The parts of a path between its slashes. */
  function Split(name: string): (parts: seq<string>)
    ensures parts != []
  {
    if name == "" then [""] else Prepend(name[0], Split(name[1..]))
  }

  /** One more character in front of a path that has been split. */
  function Prepend(c: char, parts: seq<string>): (longer: seq<string>)
    requires parts != []
    ensures longer != []
  {
    if c == '/' then [""] + parts else [[c] + parts[0]] + parts[1..]
  }

  /** Parts with slashes between them. */
  function Slashed(parts: seq<string>): string
    requires parts != []
  {
    if |parts| == 1 then parts[0] else parts[0] + "/" + Slashed(parts[1..])
  }

  lemma {:induction false} SlashedPrepend(c: char, parts: seq<string>)
    requires parts != []
    ensures Slashed(Prepend(c, parts)) == [c] + Slashed(parts)
  {
    var longer := Prepend(c, parts);
    if c == '/' {
      assert longer[1..] == parts;
    } else {
      assert longer[0] == [c] + parts[0] && longer[1..] == parts[1..];
    }
  }

  lemma {:induction false} PrependParts(c: char, parts: seq<string>)
    requires parts != [] && forall i :: 0 <= i < |parts| ==> '/' !in parts[i]
    ensures forall i :: 0 <= i < |Prepend(c, parts)| ==> '/' !in Prepend(c, parts)[i]
  {
  }

  /** Splitting takes a path apart at its slashes, */
  lemma {:induction false} SplitParts(name: string)
    ensures Slashed(Split(name)) == name
    ensures forall i :: 0 <= i < |Split(name)| ==> '/' !in Split(name)[i]
  {
    if name != "" {
      SplitParts(name[1..]);
      SlashedPrepend(name[0], Split(name[1..]));
      PrependParts(name[0], Split(name[1..]));
      assert name == [name[0]] + name[1..];
    }
  }

  /** and that is the only way to do it. */
  lemma {:induction false} SplitUnique(parts: seq<string>)
    requires parts != [] && forall i :: 0 <= i < |parts| ==> '/' !in parts[i]
    ensures Split(Slashed(parts)) == parts
    decreases |parts|, |parts[0]|
  {
    var name, first := Slashed(parts), parts[0];
    if first != "" {
      var shorter := [first[1..]] + parts[1..];
      SplitUnique(shorter);
      assert shorter[1..] == parts[1..] && first == [first[0]] + first[1..];
      assert name[1..] == Slashed(shorter) && name[0] == first[0];
      assert [[first[0]] + shorter[0]] + shorter[1..] == parts;
    } else if |parts| > 1 {
      SplitUnique(parts[1..]);
      assert name[1..] == Slashed(parts[1..]) && name[0] == '/';
    }
  }

  lemma SplitAfter(head: string, rest: string)
    requires '/' !in head
    ensures Split(head + "/" + rest) == [head] + Split(rest)
  {
    var parts := [head] + Split(rest);
    SplitParts(rest);
    assert parts[1..] == Split(rest);
    SplitUnique(parts);
  }

  lemma PrependConcat(c: char, parts: seq<string>, more: seq<string>)
    requires parts != []
    ensures Prepend(c, parts + more) == Prepend(c, parts) + more
  {
  }
}

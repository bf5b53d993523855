/** Byte strings, ASCII decimal numbers, and the outcome type shared by every module. */
module Bytes {

  type Byte = b: int | 0 <= b < 256
  type Bytes = seq<Byte>

  /** `Failure` stands for a raised exception; its text is never part of a contract. */
  datatype Result<+T> = Success(value: T) | Failure(reason: string)

  datatype Option<+T> = None | Some(value: T)

  function Zeros(n: nat): Bytes {
    seq(n, _ => 0)
  }

  predicate AllZero(s: Bytes) {
    forall i :: 0 <= i < |s| ==> s[i] == 0
  }

  lemma SubSlice<T>(s: seq<T>, lo: nat, hi: nat, a: nat, b: nat)
    requires lo <= hi <= |s| && a <= b <= hi - lo
    ensures s[lo..hi][a..b] == s[lo + a..lo + b]
  {
    var inner := s[lo..hi];
    assert forall i :: 0 <= i < b - a ==> inner[a..b][i] == inner[a + i] == s[lo + a + i] == s[lo + a..lo + b][i];
  }

  lemma HeadAndTail<T>(xs: seq<T>)
    requires xs != []
    ensures xs == [xs[0]] + xs[1..]
  {
  }

  lemma PrefixSplit<T>(front: seq<T>, s: seq<T>)
    requires front <= s
    ensures s == front + s[|front|..]
  {
    assert s[..|front|] == front;
  }

  /** Index of the first `b` in `s`, or `|s|` when there is none. */
  function Find(s: Bytes, b: Byte): (i: nat)
    ensures i <= |s|
    ensures i < |s| ==> s[i] == b
    ensures forall j :: 0 <= j < i ==> s[j] != b
  {
    if s == [] || s[0] == b then 0 else 1 + Find(s[1..], b)
  }

  predicate AllDigits(s: Bytes) {
    forall i :: 0 <= i < |s| ==> 48 <= s[i] <= 57
  }

  /** The value of a run of ASCII digits; leading zeros are allowed. */
  function DecimalValue(s: Bytes): (n: nat)
    requires AllDigits(s)
  {
    if s == [] then 0 else 10 * DecimalValue(s[..|s| - 1]) + (s[|s| - 1] - 48)
  }

  /** The shortest decimal numeral of `n`. */
  function DecimalDigits(n: nat): (s: Bytes)
    ensures AllDigits(s) && |s| >= 1
  {
    if n < 10 then [48 + n] else DecimalDigits(n / 10) + [48 + n % 10]
  }

  lemma {:induction false} DecimalRoundTrip(n: nat)
    ensures DecimalValue(DecimalDigits(n)) == n
  {
    if n < 10 {
      assert DecimalDigits(n)[..0] == [];
    } else {
      var front := DecimalDigits(n / 10);
      assert DecimalDigits(n)[..|front|] == front;
      DecimalRoundTrip(n / 10);
    }
  }

  function Pow10(k: nat): (p: nat)
    ensures p > k
  {
    if k == 0 then 1 else 10 * Pow10(k - 1)
  }

  lemma {:induction false} DigitCount(n: nat)
    ensures n < Pow10(|DecimalDigits(n)|)
    ensures n > 0 ==> Pow10(|DecimalDigits(n)| - 1) <= n
  {
    if n < 10 {
      assert Pow10(1) == 10;
    } else {
      DigitCount(n / 10);
    }
  }
}

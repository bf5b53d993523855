/** The validator for pax extended header records ("pax Extended Header", IEEE Std 1003.1). */
module PaxMetadata {
  import opened Bytes

  const SPACE: Byte := 32
  const EQUALS: Byte := 61
  const NEWLINE: Byte := 10
  /** "size" */
  const SIZE_KEY: Bytes := [115, 105, 122, 101]
  /** "GNU.sparse." */
  const SPARSE_PREFIX: Bytes := [71, 78, 85, 46, 115, 112, 97, 114, 115, 101, 46]
  /** Python refuses to convert a longer digit string to an integer, with a ValueError. */
  const MAX_INT_DIGITS := 4300

  datatype Record = Record(digits: Bytes, key: Bytes, value: Bytes)

  predicate AdmissibleKey(key: Bytes) {
    key != [] && EQUALS !in key && key != SIZE_KEY && !(SPARSE_PREFIX <= key)
  }

  function Encode(r: Record): (s: Bytes) {
    r.digits + [SPACE] + r.key + [EQUALS] + r.value + [NEWLINE]
  }

  /** A record whose length field counts the whole record, itself included. */
  predicate Admissible(r: Record) {
    && 1 <= |r.digits| <= MAX_INT_DIGITS
    && AllDigits(r.digits)
    && DecimalValue(r.digits) == |Encode(r)|
    && AdmissibleKey(r.key)
  }

  function EncodeAll(rs: seq<Record>): Bytes {
    if rs == [] then [] else Encode(rs[0]) + EncodeAll(rs[1..])
  }

  predicate AllAdmissible(rs: seq<Record>) {
    forall i :: 0 <= i < |rs| ==> Admissible(rs[i])
  }

  /** The grammar: admissible records, then nothing but zero bytes. */
  ghost predicate Describes(rs: seq<Record>, padding: nat, payload: Bytes) {
    AllAdmissible(rs) && payload == EncodeAll(rs) + Zeros(padding)
  }

  /** The length field of the record at the front of `p`, as written. */
  function LengthField(p: Bytes): (digits: Option<Bytes>)
    ensures digits.Some? ==> AllDigits(digits.value) && |digits.value| < |p|
  {
    var separator := Find(p, SPACE);
    if separator == 0 || separator == |p| || separator > MAX_INT_DIGITS || !AllDigits(p[..separator]) then None
    else Some(p[..separator])
  }

  /** Splits `key=value\n` at its first equals sign. */
  function KeyValue(record: Bytes): (pair: Option<(Bytes, Bytes)>) {
    var equals := Find(record, EQUALS);
    if record == [] || record[|record| - 1] != NEWLINE || equals == |record| then None
    else if !AdmissibleKey(record[..equals]) then None
    else Some((record[..equals], record[equals + 1..|record| - 1]))
  }

  /** Reads one record off the front of `p`. */
  function First(p: Bytes): (r: Option<Record>) {
    var digits := LengthField(p);
    if digits.None? then None
    else
      var length := DecimalValue(digits.value);
      if length < 5 || length > |p| || length <= |digits.value| + 1 then None
      else
        var pair := KeyValue(p[|digits.value| + 1..length]);
        if pair.None? then None else Some(Record(digits.value, pair.value.0, pair.value.1))
  }

  lemma FindAt(s: Bytes, b: Byte, i: nat)
    requires i < |s| && s[i] == b && forall j :: 0 <= j < i ==> s[j] != b
    ensures Find(s, b) == i
  {
  }

  lemma KeyValueSound(record: Bytes)
    requires KeyValue(record).Some?
    ensures AdmissibleKey(KeyValue(record).value.0)
    ensures record == KeyValue(record).value.0 + [EQUALS] + KeyValue(record).value.1 + [NEWLINE]
  {
    var equals := Find(record, EQUALS);
    assert record == record[..equals] + [record[equals]] + record[equals + 1..];
    assert forall i :: 0 <= i < equals ==> record[..equals][i] == record[i];
  }

  lemma LengthFieldSound(p: Bytes)
    requires LengthField(p).Some?
    ensures var n := |LengthField(p).value|;
      1 <= n <= MAX_INT_DIGITS && n < |p| && p[..n + 1] == LengthField(p).value + [SPACE]
  {
  }

  lemma FirstSound(p: Bytes)
    requires First(p).Some?
    ensures Admissible(First(p).value) && Encode(First(p).value) <= p
    ensures |Encode(First(p).value)| == DecimalValue(LengthField(p).value)
  {
    var digits := LengthField(p).value;
    var length := DecimalValue(digits);
    var record := p[|digits| + 1..length];
    var r := First(p).value;
    KeyValueSound(record);
    LengthFieldSound(p);
    EncodeParts(r, record);
    FrontParts(p, digits, record, length);
  }

  lemma EncodeParts(r: Record, record: Bytes)
    requires record == r.key + [EQUALS] + r.value + [NEWLINE]
    ensures Encode(r) == r.digits + [SPACE] + record
  {
  }

  lemma FrontParts(p: Bytes, digits: Bytes, record: Bytes, length: nat)
    requires |digits| + 1 <= length <= |p|
    requires p[..|digits| + 1] == digits + [SPACE] && p[|digits| + 1..length] == record
    ensures digits + [SPACE] + record <= p && |digits + [SPACE] + record| == length
  {
    assert p[..length] == p[..|digits| + 1] + record;
  }

  lemma LengthFieldAt(p: Bytes, digits: Bytes)
    requires 1 <= |digits| <= MAX_INT_DIGITS && AllDigits(digits) && digits + [SPACE] <= p
    ensures LengthField(p) == Some(digits)
  {
    var n := |digits|;
    assert p[..n + 1] == digits + [SPACE];
    assert p[n] == SPACE;
    assert forall j :: 0 <= j < n ==> p[j] == digits[j];
    FindAt(p, SPACE, n);
    assert p[..n] == digits;
  }

  lemma KeyValueAt(key: Bytes, value: Bytes)
    requires AdmissibleKey(key)
    ensures KeyValue(key + [EQUALS] + value + [NEWLINE]) == Some((key, value))
  {
    var record := key + [EQUALS] + value + [NEWLINE];
    assert forall j :: 0 <= j < |key| ==> record[j] == key[j];
    FindAt(record, EQUALS, |key|);
    assert record[..|key|] == key;
    assert record[|key| + 1..|record| - 1] == value;
  }

  lemma FirstComplete(p: Bytes, r: Record)
    requires Admissible(r) && Encode(r) <= p
    ensures First(p) == Some(r)
  {
    var e := Encode(r);
    var n := |r.digits|;
    var record := r.key + [EQUALS] + r.value + [NEWLINE];
    EncodeParts(r, record);
    assert p[..|e|] == e;
    assert p[..n + 1] == r.digits + [SPACE];
    LengthFieldAt(p, r.digits);
    assert p[n + 1..|e|] == record;
    KeyValueAt(r.key, r.value);
  }

  /** Reads every record; the rest of the payload may be zero bytes. */
  function Parse(p: Bytes): (rs: Option<seq<Record>>)
    decreases |p|
  {
    if AllZero(p) then Some([])
    else
      var first := First(p);
      if first.None? || |Encode(first.value)| > |p| then None
      else
        var rest := Parse(p[|Encode(first.value)|..]);
        if rest.None? then None else Some([first.value] + rest.value)
  }

  lemma DescribesCons(r: Record, rs: seq<Record>, padding: nat, rest: Bytes)
    requires Admissible(r) && Describes(rs, padding, rest)
    ensures Describes([r] + rs, padding, Encode(r) + rest)
  {
    assert ([r] + rs)[1..] == rs;
    assert Encode(r) + rest == EncodeAll([r] + rs) + Zeros(padding);
  }

  lemma ParseStep(p: Bytes)
    requires !AllZero(p) && Parse(p).Some?
    ensures First(p).Some? && Admissible(First(p).value)
    ensures var e := Encode(First(p).value);
      && 0 < |e| <= |p| && p == e + p[|e|..] && Parse(p[|e|..]).Some?
      && Parse(p).value == [First(p).value] + Parse(p[|e|..]).value
  {
    FirstSound(p);
    PrefixSplit(Encode(First(p).value), p);
  }

  lemma {:induction false} ParseSound(p: Bytes)
    requires Parse(p).Some?
    ensures exists padding :: Describes(Parse(p).value, padding, p)
    decreases |p|
  {
    if AllZero(p) {
      assert Describes([], |p|, p) by { assert p == [] + Zeros(|p|); }
    } else {
      var r := First(p).value;
      ParseStep(p);
      var rest := p[|Encode(r)|..];
      ParseSound(rest);
      var padding :| Describes(Parse(rest).value, padding, rest);
      DescribesCons(r, Parse(rest).value, padding, rest);
      assert Describes(Parse(p).value, padding, p);
    }
  }

  /** Peels the first record off a described payload. */
  lemma DescribesTail(rs: seq<Record>, padding: nat, p: Bytes)
    requires Describes(rs, padding, p) && rs != []
    ensures First(p) == Some(rs[0]) && |Encode(rs[0])| <= |p| && !AllZero(p)
    ensures Describes(rs[1..], padding, p[|Encode(rs[0])|..])
  {
    assert p == Encode(rs[0]) + (EncodeAll(rs[1..]) + Zeros(padding));
    assert p[0] == rs[0].digits[0];
    FirstComplete(p, rs[0]);
    assert p[|Encode(rs[0])|..] == EncodeAll(rs[1..]) + Zeros(padding);
  }

  lemma ParseCons(p: Bytes, r: Record, rest: Bytes)
    requires !AllZero(p) && First(p) == Some(r) && 0 < |Encode(r)| <= |p| && rest == p[|Encode(r)|..]
    ensures Parse(rest).Some? ==> Parse(p) == Some([r] + Parse(rest).value)
  {
  }

  lemma ParseFirst(p: Bytes, rs: seq<Record>, padding: nat)
    requires Describes(rs, padding, p) && rs != []
    ensures |Encode(rs[0])| <= |p| && Describes(rs[1..], padding, p[|Encode(rs[0])|..])
    ensures Parse(p[|Encode(rs[0])|..]) == Some(rs[1..]) ==> Parse(p) == Some(rs)
  {
    DescribesTail(rs, padding, p);
    ParseCons(p, rs[0], p[|Encode(rs[0])|..]);
    HeadAndTail(rs);
  }

  lemma ParseZeros(p: Bytes, padding: nat)
    requires p == [] + Zeros(padding)
    ensures Parse(p) == Some([])
  {
    assert p == Zeros(padding);
  }

  lemma {:induction false} ParseComplete(p: Bytes, rs: seq<Record>, padding: nat)
    requires Describes(rs, padding, p)
    ensures Parse(p) == Some(rs)
    decreases |rs|
  {
    if rs == [] {
      ParseZeros(p, padding);
    } else {
      ParseFirst(p, rs, padding);
      ParseComplete(p[|Encode(rs[0])|..], rs[1..], padding);
    }
  }

  /** The parser computes exactly the grammar, so a payload has at most one reading. */
  lemma ParseExact(p: Bytes, rs: seq<Record>)
    ensures Parse(p) == Some(rs) <==> exists padding :: Describes(rs, padding, p)
  {
    if Parse(p) == Some(rs) {
      ParseSound(p);
    }
    if padding :| Describes(rs, padding, p) {
      ParseComplete(p, rs, padding);
    }
  }

  ghost predicate Accepts(payload: Bytes) {
    exists rs, padding :: Describes(rs, padding, payload)
  }

  lemma AcceptsIsParse(payload: Bytes)
    ensures Accepts(payload) <==> Parse(payload).Some?
  {
    if Parse(payload).Some? {
      ParseSound(payload);
    }
    if rs, padding :| Describes(rs, padding, payload) {
      ParseComplete(payload, rs, padding);
    }
  }

  /** The length field of the record at `position`, as the loop of the validator reads it. */
  method ReadLength(payload: Bytes, position: nat) returns (separator: nat, ok: bool)
    requires position < |payload|
    ensures ok <==> LengthField(payload[position..]).Some?
    ensures ok ==> position < separator < |payload|
    ensures ok ==> payload[position..separator] == LengthField(payload[position..]).value
  {
    ghost var rest := payload[position..];
    separator := position + Find(payload[position..], SPACE);
    if separator == |payload| || separator == position {
      return separator, false;
    }
    var lengthBytes := payload[position..separator];
    assert lengthBytes == rest[..separator - position];
    ok := |lengthBytes| <= MAX_INT_DIGITS && forall i :: 0 <= i < |lengthBytes| ==> 48 <= lengthBytes[i] <= 57;
  }

  /** The key and value checks of the validator's loop. */
  method CheckRecord(record: Bytes) returns (r: Result<()>)
    ensures r.Success? <==> KeyValue(record).Some?
  {
    if record == [] || record[|record| - 1] != NEWLINE || EQUALS !in record {
      return Failure("contains malformed PAX metadata");
    }
    var key := record[..Find(record, EQUALS)];
    if key == [] {
      return Failure("contains malformed PAX metadata");
    }
    if SPARSE_PREFIX <= key {
      return Failure("contains unsupported sparse PAX metadata");
    }
    if key == SIZE_KEY {
      return Failure("contains unsupported PAX size metadata");
    }
    return Success(());
  }

  /** One pass of the validator's loop: finds where the record at `position` ends. */
  method ReadRecord(payload: Bytes, position: nat) returns (end: Result<nat>)
    requires position < |payload|
    ensures end.Success? <==> First(payload[position..]).Some?
    ensures end.Success? ==> end.value == position + |Encode(First(payload[position..]).value)| <= |payload|
  {
    ghost var rest: Bytes := payload[position..];
    var separator, ok := ReadLength(payload, position);
    if !ok {
      return Failure("contains malformed PAX metadata");
    }
    var length := DecimalValue(payload[position..separator]);
    if length < 5 || position + length > |payload| || position + length <= separator + 1 {
      return Failure("contains malformed PAX metadata");
    }
    var record := payload[separator + 1..position + length];
    assert record == rest[separator + 1 - position..length];
    var checked := CheckRecord(record);
    if checked.Failure? {
      return Failure(checked.reason);
    }
    FirstSound(rest);
    return Success(position + length);
  }

  lemma AcceptsStep(p: Bytes)
    requires !AllZero(p)
    ensures First(p).None? ==> !Accepts(p)
    ensures First(p).Some? ==> |Encode(First(p).value)| <= |p|
    ensures First(p).Some? ==> (Accepts(p) <==> Accepts(p[|Encode(First(p).value)|..]))
  {
    AcceptsIsParse(p);
    if First(p).Some? {
      FirstSound(p);
      AcceptsIsParse(p[|Encode(First(p).value)|..]);
    }
  }

  lemma AcceptsZeros(p: Bytes)
    requires AllZero(p)
    ensures Accepts(p)
  {
    AcceptsIsParse(p);
  }

  method Validate(payload: Bytes) returns (r: Result<()>)
    ensures r.Success? <==> Accepts(payload)
  {
    var position := 0;
    while position < |payload|
      invariant 0 <= position <= |payload|
      invariant Accepts(payload) <==> Accepts(payload[position..])
    {
      ghost var rest := payload[position..];
      if AllZero(payload[position..]) {
        break;
      }
      AcceptsStep(rest);
      var end := ReadRecord(payload, position);
      if end.Failure? {
        return Failure(end.reason);
      }
      assert rest[|Encode(First(rest).value)|..] == payload[end.value..];
      position := end.value;
    }
    AcceptsZeros(payload[position..]);
    return Success(());
  }

  /** Every admissible record moves the reader on by at least five bytes. */
  lemma RecordsAdvance(r: Record)
    requires Admissible(r)
    ensures |Encode(r)| >= 5
  {
  }

  // ---------------------------------------------------------------- printing

  ghost predicate CountsItself(content: nat, length: nat) {
    length == content + |DecimalDigits(length)|
  }

  /** Two guesses suffice: adding the length's own digits lengthens it at most once more. */
  function SolveLength(content: nat): (length: nat) {
    var guess := content + |DecimalDigits(content)|;
    if |DecimalDigits(guess)| == |DecimalDigits(content)| then guess else content + |DecimalDigits(guess)|
  }

  lemma {:induction false} DigitsGrowSlowly(m: nat, n: nat)
    requires m <= n <= 10 * m + 9
    ensures |DecimalDigits(m)| <= |DecimalDigits(n)| <= |DecimalDigits(m)| + 1
    decreases n
  {
    if m < 10 {
      if n >= 10 {
        assert n / 10 < 10;
      }
    } else {
      DigitsGrowSlowly(m / 10, n / 10);
    }
  }

  lemma LengthAlwaysSolvable(content: nat)
    requires content >= 4
    ensures CountsItself(content, SolveLength(content))
  {
    var d := |DecimalDigits(content)|;
    DigitCount(content);
    assert content >= d by {
      if d > 1 { assert content >= Pow10(d - 1) > d - 1; }
    }
    DigitsGrowSlowly(content, content + d);
    if |DecimalDigits(content + d)| == d + 1 {
      SecondGuess(content);
    }
  }

  lemma SecondGuess(content: nat)
    requires content < Pow10(|DecimalDigits(content)|) && |DecimalDigits(content)| <= content
    requires |DecimalDigits(content + |DecimalDigits(content)|)| == |DecimalDigits(content)| + 1
    ensures |DecimalDigits(content + |DecimalDigits(content)| + 1)| == |DecimalDigits(content)| + 1
  {
    var d := |DecimalDigits(content)|;
    var guess := content + d;
    DigitsGrowSlowly(guess, guess + 1);
    DigitCount(guess + 1);
    assert Pow10(d + 1) == 10 * Pow10(d);
    assert guess + 1 < 2 * Pow10(d);
  }

  /** The equation need not have one solution: 97 content bytes fit a length of 99 and of 100. */
  lemma LengthNotUnique()
    ensures CountsItself(97, 99) && CountsItself(97, 100)
  {
    assert |DecimalDigits(9)| == 1 && |DecimalDigits(10)| == 2;
  }

  function Print(key: Bytes, value: Bytes): (r: Record) {
    Record(DecimalDigits(SolveLength(|key| + |value| + 3)), key, value)
  }

  function PrintAll(pairs: seq<(Bytes, Bytes)>): (rs: seq<Record>)
    ensures |rs| == |pairs| && forall i :: 0 <= i < |pairs| ==> rs[i] == Print(pairs[i].0, pairs[i].1)
  {
    seq(|pairs|, i requires 0 <= i < |pairs| => Print(pairs[i].0, pairs[i].1))
  }

  /** A key the validator allows, and a length that Python still reads as a number. */
  predicate Printable(pair: (Bytes, Bytes)) {
    AdmissibleKey(pair.0) && |Print(pair.0, pair.1).digits| <= MAX_INT_DIGITS
  }

  lemma PrintExact(key: Bytes, value: Bytes)
    ensures Admissible(Print(key, value)) <==> Printable((key, value))
  {
    if key != [] {
      LengthAlwaysSolvable(|key| + |value| + 3);
      DecimalRoundTrip(SolveLength(|key| + |value| + 3));
    }
  }

  /** Printed records, with any padding, are read back whole exactly when every one of them is printable. */
  lemma PrintThenParse(pairs: seq<(Bytes, Bytes)>, padding: nat)
    ensures Parse(EncodeAll(PrintAll(pairs)) + Zeros(padding)) == Some(PrintAll(pairs))
      <==> forall i :: 0 <= i < |pairs| ==> Printable(pairs[i])
  {
    var rs := PrintAll(pairs);
    var payload := EncodeAll(rs) + Zeros(padding);
    forall i | 0 <= i < |pairs| ensures Admissible(rs[i]) <==> Printable(pairs[i]) {
      PrintExact(pairs[i].0, pairs[i].1);
    }
    assert AllAdmissible(rs) ==> Describes(rs, padding, payload);
    ParseExact(payload, rs);
  }
}

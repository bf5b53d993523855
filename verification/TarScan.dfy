/** The raw tar header scanner ("ustar Interchange Format", IEEE Std 1003.1).
    `nti` is the library's reading of a 12-byte number field; `None` is its header error. */
module TarScan {
  import opened Bytes
  import PaxMetadata

  const BLOCK := 512
  const MAX_SPECIAL_HEADERS := 256
  const MAX_SPECIAL_HEADER_BYTES := 64 * 1024
  const MAX_TOTAL_SPECIAL_HEADER_BYTES := 4 * 1024 * 1024
  const CHUNK := 1024 * 1024

  /** By their letters: pax 'x' and 'g', Solaris 'X', GNU 'L' and 'K'. */
  const SPECIAL_HEADER_TYPES: set<Byte> := {120, 103, 88, 76, 75}
  /** Link '1', symlink '2', character '3', block '4', directory '5' and fifo '6'. */
  const NON_DATA_HEADER_TYPES: set<Byte> := {49, 50, 51, 52, 53, 54}

  type NumberField = Bytes -> Option<int>

  /** GNU sparse, 'S'. */
  const SPARSE: Byte := 83

  /** 'x', 'g' and Solaris 'X': the payload is pax metadata. */
  predicate IsPax(typeflag: Byte) {
    typeflag == 120 || typeflag == 103 || typeflag == 88
  }

  /** The pax types and GNU long name 'L' and long link 'K'. */
  predicate IsSpecial(typeflag: Byte) {
    IsPax(typeflag) || typeflag == 76 || typeflag == 75
  }

  /** Link, symlink, character, block, directory and fifo: '1' to '6'. */
  predicate IsNonData(typeflag: Byte) {
    49 <= typeflag <= 54
  }

  /** A missing type byte reads as a regular file, '0'. */
  function Typeflag(header: Bytes): Byte {
    if |header| > 156 then header[156] else 48
  }

  datatype Member = Member(header: Bytes, payload: Bytes, padding: Bytes)

  /** The least whole number of blocks that holds `size` bytes. */
  function Padded(size: nat): (padded: nat)
    ensures padded % BLOCK == 0 && size <= padded < size + BLOCK
  {
    var blocks := (size + BLOCK - 1) / BLOCK;
    assert blocks == (size + 511) / 512;
    blocks * BLOCK
  }

  function Encode(m: Member): Bytes {
    m.header + m.payload + m.padding
  }

  function DeclaredSize(nti: NumberField, header: Bytes): (size: Option<nat>)
    requires |header| == BLOCK
  {
    match nti(header[124..136])
    case Some(value) => if value >= 0 then Some(value) else None
    case None => None
  }

  predicate AdmissibleHeader(nti: NumberField, header: Bytes)
    requires |header| == BLOCK
  {
    && !AllZero(header)
    && DeclaredSize(nti, header).Some?
    && Typeflag(header) != SPARSE
    && (IsSpecial(Typeflag(header)) ==> DeclaredSize(nti, header).value <= MAX_SPECIAL_HEADER_BYTES)
    && (IsNonData(Typeflag(header)) ==> DeclaredSize(nti, header).value == 0)
  }

  /** What one member must look like; its padding bytes are free. */
  ghost predicate Admissible(nti: NumberField, m: Member) {
    && |m.header| == BLOCK
    && AdmissibleHeader(nti, m.header)
    && DeclaredSize(nti, m.header) == Some(|m.payload|)
    && |m.payload| + |m.padding| == Padded(|m.payload|)
    && (IsPax(Typeflag(m.header)) ==> PaxMetadata.Accepts(m.payload))
  }

  function EncodeAll(ms: seq<Member>): Bytes {
    if ms == [] then [] else Encode(ms[0]) + EncodeAll(ms[1..])
  }

  ghost predicate AllAdmissible(nti: NumberField, ms: seq<Member>) {
    forall i :: 0 <= i < |ms| ==> Admissible(nti, ms[i])
  }

  /** A canonical archive: admissible members, then at least two zero blocks and nothing else. */
  ghost predicate Describes(nti: NumberField, ms: seq<Member>, tail: nat, stream: Bytes) {
    && AllAdmissible(nti, ms)
    && tail >= 2 * BLOCK && tail % BLOCK == 0
    && stream == EncodeAll(ms) + Zeros(tail)
  }

  // ---------------------------------------------------------------- budgets

  /** The three running totals of the scan. */
  datatype Counts = Counts(headers: nat, specials: nat, specialBytes: nat)

  const NOTHING := Counts(0, 0, 0)

  function CountMember(c: Counts, typeflag: Byte, size: nat): Counts {
    if IsSpecial(typeflag) then Counts(c.headers + 1, c.specials + 1, c.specialBytes + size)
    else c.(headers := c.headers + 1)
  }

  function Total(c: Counts, ms: seq<Member>): Counts
    decreases |ms|
  {
    if ms == [] then c else Total(CountMember(c, Typeflag(ms[0].header), |ms[0].payload|), ms[1..])
  }

  predicate Within(c: Counts, maximumMembers: nat) {
    && c.headers <= maximumMembers + MAX_SPECIAL_HEADERS
    && c.specials <= MAX_SPECIAL_HEADERS
    && c.specialBytes <= MAX_TOTAL_SPECIAL_HEADER_BYTES
  }

  /** Totals only grow, so limits that hold at the end held at every prefix. */
  lemma {:induction false} WithinEveryPrefix(c: Counts, ms: seq<Member>, k: nat, maximumMembers: nat)
    requires k <= |ms| && Within(Total(c, ms), maximumMembers)
    ensures Within(Total(c, ms[..k]), maximumMembers)
    decreases |ms|
  {
    if ms == [] {
    } else {
      var next := CountMember(c, Typeflag(ms[0].header), |ms[0].payload|);
      if k == 0 {
        WithinEveryPrefix(next, ms[1..], 0, maximumMembers);
        assert ms[1..][..0] == [] == ms[..0];
      } else {
        WithinEveryPrefix(next, ms[1..], k - 1, maximumMembers);
        assert ms[..k][1..] == ms[1..][..k - 1];
      }
    }
  }

  /** The archives the scan may accept when `c` has been spent already. */
  ghost predicate AdmitsFrom(nti: NumberField, c: Counts, maximumMembers: nat, stream: Bytes) {
    exists ms, tail :: Describes(nti, ms, tail, stream) && Within(Total(c, ms), maximumMembers)
  }

  ghost predicate Admits(nti: NumberField, maximumMembers: nat, stream: Bytes) {
    AdmitsFrom(nti, NOTHING, maximumMembers, stream)
  }

  // ---------------------------------------------------------------- reading back

  /** Reads one member off the front of `s`. */
  function First(nti: NumberField, s: Bytes): (m: Option<Member>) {
    if |s| < BLOCK || !AdmissibleHeader(nti, s[..BLOCK]) then None
    else
      var size := DeclaredSize(nti, s[..BLOCK]).value;
      if BLOCK + Padded(size) > |s| then None
      else
        var m := Member(s[..BLOCK], s[BLOCK..BLOCK + size], s[BLOCK + size..BLOCK + Padded(size)]);
        if IsPax(Typeflag(m.header)) && PaxMetadata.Parse(m.payload).None? then None else Some(m)
  }

  lemma FirstSound(nti: NumberField, s: Bytes)
    requires First(nti, s).Some?
    ensures Admissible(nti, First(nti, s).value)
    ensures Encode(First(nti, s).value) <= s && |Encode(First(nti, s).value)| >= BLOCK
  {
    var m := First(nti, s).value;
    PaxMetadata.AcceptsIsParse(m.payload);
    assert s[..BLOCK + Padded(|m.payload|)] == Encode(m);
  }

  lemma EncodedParts(m: Member, s: Bytes)
    requires |m.header| == BLOCK && Encode(m) <= s
    ensures s[..BLOCK] == m.header && s[BLOCK..BLOCK + |m.payload|] == m.payload
    ensures s[BLOCK + |m.payload|..|Encode(m)|] == m.padding
  {
    var e := Encode(m);
    assert s[..|e|] == e;
    assert s[..BLOCK] == e[..BLOCK];
    assert s[BLOCK..BLOCK + |m.payload|] == e[BLOCK..BLOCK + |m.payload|];
    assert s[BLOCK + |m.payload|..|e|] == e[BLOCK + |m.payload|..];
  }

  lemma FirstComplete(nti: NumberField, s: Bytes, m: Member)
    requires Admissible(nti, m) && Encode(m) <= s
    ensures First(nti, s) == Some(m)
  {
    PaxMetadata.AcceptsIsParse(m.payload);
    EncodedParts(m, s);
    assert First(nti, s).Some?;
  }

  function Read(nti: NumberField, s: Bytes): (ms: Option<seq<Member>>)
    decreases |s|
  {
    if |s| < BLOCK then None
    else if AllZero(s[..BLOCK]) then
      if |s| >= 2 * BLOCK && |s| % BLOCK == 0 && AllZero(s) then Some([]) else None
    else
      var first := First(nti, s);
      if first.None? || !(BLOCK <= |Encode(first.value)| <= |s|) then None
      else
        var rest := Read(nti, s[|Encode(first.value)|..]);
        if rest.None? then None else Some([first.value] + rest.value)
  }

  lemma DescribesCons(nti: NumberField, m: Member, ms: seq<Member>, tail: nat, rest: Bytes)
    requires Admissible(nti, m) && Describes(nti, ms, tail, rest)
    ensures Describes(nti, [m] + ms, tail, Encode(m) + rest)
  {
    assert ([m] + ms)[1..] == ms;
    assert Encode(m) + rest == EncodeAll([m] + ms) + Zeros(tail);
  }

  /** A described stream starts with its first member's header, or with zeros. */
  lemma DescribesHead(nti: NumberField, ms: seq<Member>, tail: nat, s: Bytes)
    requires Describes(nti, ms, tail, s)
    ensures |s| >= 2 * BLOCK
    ensures ms != [] <==> !AllZero(s[..BLOCK])
    ensures ms == [] ==> AllZero(s) && |s| == tail
  {
    if ms == [] {
      assert s == Zeros(tail);
    } else {
      assert s == ms[0].header + (ms[0].payload + ms[0].padding + EncodeAll(ms[1..]) + Zeros(tail));
      assert s[..BLOCK] == ms[0].header;
    }
  }

  /** Peels the first member off a described stream. */
  lemma DescribesTail(nti: NumberField, ms: seq<Member>, tail: nat, s: Bytes)
    requires Describes(nti, ms, tail, s) && ms != []
    ensures First(nti, s) == Some(ms[0]) && |Encode(ms[0])| <= |s|
    ensures Describes(nti, ms[1..], tail, s[|Encode(ms[0])|..])
  {
    assert s == Encode(ms[0]) + (EncodeAll(ms[1..]) + Zeros(tail));
    FirstComplete(nti, s, ms[0]);
    assert s[|Encode(ms[0])|..] == EncodeAll(ms[1..]) + Zeros(tail);
  }

  lemma ReadStep(nti: NumberField, s: Bytes)
    requires Read(nti, s).Some? && !AllZero(s[..BLOCK])
    ensures First(nti, s).Some? && Admissible(nti, First(nti, s).value)
    ensures var e := Encode(First(nti, s).value);
      && BLOCK <= |e| <= |s| && s == e + s[|e|..] && Read(nti, s[|e|..]).Some?
      && Read(nti, s).value == [First(nti, s).value] + Read(nti, s[|e|..]).value
  {
    FirstSound(nti, s);
    PrefixSplit(Encode(First(nti, s).value), s);
  }

  lemma {:induction false} ReadSound(nti: NumberField, s: Bytes)
    requires Read(nti, s).Some?
    ensures exists tail :: Describes(nti, Read(nti, s).value, tail, s)
    decreases |s|
  {
    if AllZero(s[..BLOCK]) {
      assert Describes(nti, [], |s|, s) by { assert s == [] + Zeros(|s|); }
    } else {
      var m := First(nti, s).value;
      ReadStep(nti, s);
      var rest := s[|Encode(m)|..];
      ReadSound(nti, rest);
      var tail :| Describes(nti, Read(nti, rest).value, tail, rest);
      DescribesCons(nti, m, Read(nti, rest).value, tail, rest);
      assert Describes(nti, Read(nti, s).value, tail, s);
    }
  }

  lemma {:induction false} ReadComplete(nti: NumberField, ms: seq<Member>, tail: nat, s: Bytes)
    requires Describes(nti, ms, tail, s)
    ensures Read(nti, s) == Some(ms)
    decreases |ms|
  {
    DescribesHead(nti, ms, tail, s);
    if ms != [] {
      DescribesTail(nti, ms, tail, s);
      FirstSound(nti, s);
      ReadComplete(nti, ms[1..], tail, s[|Encode(ms[0])|..]);
      HeadAndTail(ms);
    }
  }

  /** The member list is a function of the stream: whatever a writer lays out is read back, and nothing else is. */
  lemma ReadExact(nti: NumberField, ms: seq<Member>, s: Bytes)
    ensures Read(nti, s) == Some(ms) <==> exists tail :: Describes(nti, ms, tail, s)
  {
    if Read(nti, s) == Some(ms) {
      ReadSound(nti, s);
    }
    if tail :| Describes(nti, ms, tail, s) {
      ReadComplete(nti, ms, tail, s);
    }
  }

  /** Writing admissible members within the limits and any zero tail of two blocks or more is admitted. */
  lemma WriterAdmitted(nti: NumberField, maximumMembers: nat, ms: seq<Member>, blocks: nat)
    requires blocks >= 2
    requires AllAdmissible(nti, ms)
    ensures Read(nti, EncodeAll(ms) + Zeros(blocks * BLOCK)) == Some(ms)
    ensures Admits(nti, maximumMembers, EncodeAll(ms) + Zeros(blocks * BLOCK))
      <==> Within(Total(NOTHING, ms), maximumMembers)
  {
    var stream := EncodeAll(ms) + Zeros(blocks * BLOCK);
    assert blocks * BLOCK % BLOCK == 0;
    assert Describes(nti, ms, blocks * BLOCK, stream);
    ReadComplete(nti, ms, blocks * BLOCK, stream);
    if other: seq<Member>, tail: nat :|
      Describes(nti, other, tail, stream) && Within(Total(NOTHING, other), maximumMembers) {
      ReadComplete(nti, other, tail, stream);
    }
  }

  // ---------------------------------------------------------------- steps of the scan

  lemma {:induction false} MembersAligned(nti: NumberField, ms: seq<Member>)
    requires AllAdmissible(nti, ms)
    ensures |EncodeAll(ms)| % BLOCK == 0
    decreases |ms|
  {
    if ms != [] {
      MembersAligned(nti, ms[1..]);
      assert |Encode(ms[0])| == BLOCK + Padded(|ms[0].payload|);
    }
  }

  /** An admitted stream is a whole number of blocks. */
  lemma AdmitsAligned(nti: NumberField, maximumMembers: nat, stream: Bytes)
    ensures Admits(nti, maximumMembers, stream) ==> |stream| % BLOCK == 0
  {
    if ms: seq<Member>, tail: nat :| Describes(nti, ms, tail, stream) && Within(Total(NOTHING, ms), maximumMembers) {
      MembersAligned(nti, ms);
    }
  }

  lemma AdmitsNeedsBlock(nti: NumberField, c: Counts, maximumMembers: nat, s: Bytes)
    requires AdmitsFrom(nti, c, maximumMembers, s)
    ensures |s| >= 2 * BLOCK
  {
    var ms: seq<Member>, tail: nat :| Describes(nti, ms, tail, s);
  }

  lemma AdmitsEnd(nti: NumberField, c: Counts, maximumMembers: nat, s: Bytes)
    requires |s| >= BLOCK && |s| % BLOCK == 0 && AllZero(s[..BLOCK]) && Within(c, maximumMembers)
    ensures AdmitsFrom(nti, c, maximumMembers, s) <==> |s| >= 2 * BLOCK && AllZero(s[BLOCK..])
  {
    if ms: seq<Member>, tail: nat :| Describes(nti, ms, tail, s) && Within(Total(c, ms), maximumMembers) {
      DescribesHead(nti, ms, tail, s);
    }
    if |s| >= 2 * BLOCK && AllZero(s[BLOCK..]) {
      assert s == s[..BLOCK] + s[BLOCK..];
      assert Describes(nti, [], |s|, s) by { assert s == [] + Zeros(|s|); }
      assert Total(c, []) == c;
    }
  }

  /** An admitted stream without a zero block in front has a first member, and what follows it is admitted. */
  lemma AdmitsRest(nti: NumberField, c: Counts, maximumMembers: nat, s: Bytes)
    requires |s| >= BLOCK && !AllZero(s[..BLOCK]) && AdmitsFrom(nti, c, maximumMembers, s)
    ensures First(nti, s).Some? && |Encode(First(nti, s).value)| <= |s|
    ensures
      var m := First(nti, s).value;
      var next := CountMember(c, Typeflag(m.header), |m.payload|);
      Within(next, maximumMembers) && AdmitsFrom(nti, next, maximumMembers, s[|Encode(m)|..])
  {
    var ms: seq<Member>, tail: nat :| Describes(nti, ms, tail, s) && Within(Total(c, ms), maximumMembers);
    DescribesHead(nti, ms, tail, s);
    DescribesTail(nti, ms, tail, s);
    var next := CountMember(c, Typeflag(ms[0].header), |ms[0].payload|);
    assert Total(c, ms) == Total(next, ms[1..]);
    WithinEveryPrefix(next, ms[1..], 0, maximumMembers);
    assert Total(next, ms[1..][..0]) == next;
  }

  /** A first member in front of an admitted rest is admitted. */
  lemma AdmitsCons(nti: NumberField, c: Counts, maximumMembers: nat, m: Member, rest: Bytes)
    requires Admissible(nti, m)
    requires AdmitsFrom(nti, CountMember(c, Typeflag(m.header), |m.payload|), maximumMembers, rest)
    ensures AdmitsFrom(nti, c, maximumMembers, Encode(m) + rest)
  {
    var next := CountMember(c, Typeflag(m.header), |m.payload|);
    var ms: seq<Member>, tail: nat :| Describes(nti, ms, tail, rest) && Within(Total(next, ms), maximumMembers);
    DescribesCons(nti, m, ms, tail, rest);
    assert ([m] + ms)[1..] == ms;
    assert Total(c, [m] + ms) == Total(next, ms);
  }

  /** One turn of the scan: the first member is read and charged, and the rest decides. */
  lemma AdmitsStep(nti: NumberField, c: Counts, maximumMembers: nat, s: Bytes)
    requires |s| >= BLOCK && !AllZero(s[..BLOCK])
    ensures First(nti, s).None? ==> !AdmitsFrom(nti, c, maximumMembers, s)
    ensures First(nti, s).Some? ==>
      var m := First(nti, s).value;
      var next := CountMember(c, Typeflag(m.header), |m.payload|);
      && BLOCK <= |Encode(m)| <= |s|
      && (AdmitsFrom(nti, c, maximumMembers, s)
          <==> Within(next, maximumMembers) && AdmitsFrom(nti, next, maximumMembers, s[|Encode(m)|..]))
  {
    if AdmitsFrom(nti, c, maximumMembers, s) {
      AdmitsRest(nti, c, maximumMembers, s);
    }
    if First(nti, s).Some? {
      FirstSound(nti, s);
      var m := First(nti, s).value;
      PrefixSplit(Encode(m), s);
      if AdmitsFrom(nti, CountMember(c, Typeflag(m.header), |m.payload|), maximumMembers, s[|Encode(m)|..]) {
        AdmitsCons(nti, c, maximumMembers, m, s[|Encode(m)|..]);
      }
    }
  }

  // ---------------------------------------------------------------- the scanner

  /** What a read of `n` bytes at `from` can deliver. */
  function Window(content: Bytes, from: nat, n: nat): Bytes {
    if from >= |content| then []
    else if from + n <= |content| then content[from..from + n]
    else content[from..]
  }

  /** A seekable binary file. */
  class Source {
    const content: Bytes
    var cursor: nat

    constructor (content: Bytes)
      ensures this.content == content && cursor == 0
    {
      this.content := content;
      cursor := 0;
    }

    method Seek(position: nat)
      modifies this
      ensures cursor == position
    {
      cursor := position;
    }

    method Read(n: nat) returns (chunk: Bytes)
      modifies this
      ensures chunk == Window(content, old(cursor), n)
      ensures cursor == old(cursor) + |chunk|
    {
      chunk := Window(content, cursor, n);
      cursor := cursor + |chunk|;
    }

    /** A read that may return less than it was asked for, but nothing only at the end. */
    method ReadSome(n: nat) returns (chunk: Bytes)
      modifies this
      ensures chunk <= Window(content, old(cursor), n)
      ensures chunk == [] ==> Window(content, old(cursor), n) == []
      ensures cursor == old(cursor) + |chunk|
    {
      var window := Window(content, cursor, n);
      var k: nat :| k <= |window| && (k == 0 ==> window == []);
      chunk := window[..k];
      cursor := cursor + k;
    }
  }

  ghost predicate ZeroBetween(content: Bytes, from: nat, to: nat) {
    from <= to <= |content| && AllZero(content[from..to])
  }

  lemma AllZeroConcat(a: Bytes, b: Bytes)
    ensures AllZero(a + b) <==> AllZero(a) && AllZero(b)
  {
    if AllZero(a + b) {
      assert forall i :: 0 <= i < |a| ==> a[i] == (a + b)[i];
      assert forall i :: 0 <= i < |b| ==> b[i] == (a + b)[|a| + i];
    }
  }

  lemma ZeroBetweenJoin(content: Bytes, from: nat, middle: nat, to: nat)
    requires from <= middle <= to
    ensures ZeroBetween(content, from, to)
      <==> to <= |content| && AllZero(content[from..middle]) && ZeroBetween(content, middle, to)
  {
    if to <= |content| {
      assert content[from..to] == content[from..middle] + content[middle..to];
      AllZeroConcat(content[from..middle], content[middle..to]);
    }
  }

  /** Reads the tail in chunks of whatever size; the verdict does not depend on them. */
  method ScanTail(source: Source, length: nat) returns (r: Result<()>)
    requires length > 0
    modifies source
    ensures r.Success? <==> ZeroBetween(source.content, old(source.cursor), old(source.cursor) + length)
  {
    ghost var start, end := source.cursor, source.cursor + length;
    ghost var content := source.content;
    var remaining: nat := length;
    while remaining > 0
      invariant source.cursor + remaining == end
      invariant remaining == 0 ==> end <= |content|
      invariant ZeroBetween(content, start, end) <==> ZeroBetween(content, source.cursor, end)
    {
      ghost var before := source.cursor;
      var chunk := source.ReadSome(if CHUNK < remaining then CHUNK else remaining);
      if chunk == [] {
        return Failure("contains non-zero data after its end-of-archive");
      }
      assert chunk == content[before..source.cursor];
      ZeroBetweenJoin(content, before, source.cursor, end);
      if !AllZero(chunk) {
        return Failure("contains non-zero data after its end-of-archive");
      }
      remaining := remaining - |chunk|;
    }
    return Success(());
  }

  /** Behind an admissible header with room for its payload, only the records of a PAX payload are left to check. */
  lemma FirstBehindHeader(nti: NumberField, s: Bytes, size: nat)
    requires |s| >= BLOCK && AdmissibleHeader(nti, s[..BLOCK]) && DeclaredSize(nti, s[..BLOCK]) == Some(size)
    requires size <= Padded(size) && BLOCK + Padded(size) <= |s|
    ensures First(nti, s).Some? <==> (IsPax(Typeflag(s[..BLOCK])) ==> PaxMetadata.Accepts(s[BLOCK..BLOCK + size]))
    ensures First(nti, s).Some? ==> |Encode(First(nti, s).value)| == BLOCK + Padded(size)
  {
    PaxMetadata.AcceptsIsParse(s[BLOCK..BLOCK + size]);
  }

  /** Reads a PAX payload at the cursor and validates it. */
  method CheckPax(source: Source, size: nat) returns (r: Result<()>)
    requires source.cursor <= |source.content|
    modifies source
    ensures r.Success? <==>
      && old(source.cursor) + size <= |source.content|
      && PaxMetadata.Accepts(source.content[old(source.cursor)..old(source.cursor) + size])
  {
    ghost var at := source.cursor;
    var payload := source.Read(size);
    if |payload| != size {
      return Failure("contains truncated PAX metadata");
    }
    assert payload == source.content[at..at + size];
    r := PaxMetadata.Validate(payload);
  }

  /** What `CheckMember` accepts of a member whose header stands at `offset`. */
  ghost predicate MemberChecks(nti: NumberField, content: Bytes, offset: nat, header: Bytes, end: nat)
    requires |header| == BLOCK
  {
    && AdmissibleHeader(nti, header)
    && var size := DeclaredSize(nti, header).value;
    && offset + BLOCK + Padded(size) <= end
    && (IsPax(Typeflag(header)) ==>
        && offset + BLOCK + size <= |content|
        && PaxMetadata.Accepts(content[offset + BLOCK..offset + BLOCK + size]))
  }

  /** The size, type and payload checks of one header; `next` is the offset after its member. */
  method CheckMember(nti: NumberField, source: Source, offset: nat, header: Bytes, streamBytes: nat)
    returns (next: Result<nat>)
    requires |header| == BLOCK && !AllZero(header) && source.cursor == offset + BLOCK <= |source.content|
    modifies source
    ensures next.Success? <==> MemberChecks(nti, source.content, offset, header, streamBytes)
    ensures next.Success? ==> next.value == offset + BLOCK + Padded(DeclaredSize(nti, header).value)
  {
    var declared := nti(header[124..136]);
    if declared.None? || declared.value < 0 {
      return Failure("contains a malformed or negative tar size");
    }
    var size, typeflag := declared.value, header[156];
    if typeflag == SPARSE {
      return Failure("contains unsupported GNU sparse metadata");
    }
    if typeflag in SPECIAL_HEADER_TYPES {
      if size > MAX_SPECIAL_HEADER_BYTES {
        return Failure("special tar header is too large");
      }
    } else if typeflag in NON_DATA_HEADER_TYPES && size != 0 {
      return Failure("non-data tar member declares a payload");
    }
    if offset + BLOCK + Padded(size) > streamBytes {
      return Failure("contains a truncated tar member");
    }
    if typeflag == 120 || typeflag == 103 || typeflag == 88 {
      var valid := CheckPax(source, size);
      if valid.Failure? {
        return Failure(valid.reason);
      }
    }
    return Success(offset + BLOCK + Padded(size));
  }

  /** The member checks accept exactly the first member of what is left of the stream. */
  lemma MemberIsFirst(nti: NumberField, content: Bytes, offset: nat, header: Bytes, end: nat)
    requires offset + BLOCK <= end <= |content| && header == content[offset..offset + BLOCK]
    ensures MemberChecks(nti, content, offset, header, end) <==> First(nti, content[offset..end]).Some?
    ensures MemberChecks(nti, content, offset, header, end) ==>
      |Encode(First(nti, content[offset..end]).value)| == BLOCK + Padded(DeclaredSize(nti, header).value)
  {
    var rest := content[offset..end];
    assert header == rest[..BLOCK];
    if AdmissibleHeader(nti, header) {
      var size := DeclaredSize(nti, header).value;
      assert size <= Padded(size);
      if offset + BLOCK + Padded(size) <= end {
        FirstBehindHeader(nti, rest, size);
        SubSlice(content, offset, end, BLOCK, BLOCK + size);
      }
    }
  }

  datatype Step = Stop(verdict: Result<()>) | Continue(offset: nat, counts: Counts)

  ghost predicate Remaining(nti: NumberField, c: Counts, maximumMembers: nat, content: Bytes, offset: nat, end: nat) {
    && offset <= end <= |content|
    && AdmitsFrom(nti, c, maximumMembers, content[offset..end])
  }

  lemma RemainingStep(nti: NumberField, c: Counts, maximumMembers: nat, content: Bytes, offset: nat, end: nat)
    requires offset + BLOCK <= end <= |content| && !AllZero(content[offset..offset + BLOCK])
    ensures First(nti, content[offset..end]).None? ==> !Remaining(nti, c, maximumMembers, content, offset, end)
    ensures First(nti, content[offset..end]).Some? ==>
      var m := First(nti, content[offset..end]).value;
      var next := CountMember(c, Typeflag(m.header), |m.payload|);
      && m.header == content[offset..offset + BLOCK] && DeclaredSize(nti, m.header) == Some(|m.payload|)
      && (Remaining(nti, c, maximumMembers, content, offset, end)
          <==> Within(next, maximumMembers)
               && Remaining(nti, next, maximumMembers, content, offset + |Encode(m)|, end))
  {
    var rest := content[offset..end];
    assert rest[..BLOCK] == content[offset..offset + BLOCK];
    AdmitsStep(nti, c, maximumMembers, rest);
    if First(nti, rest).Some? {
      FirstSound(nti, rest);
      var length := |Encode(First(nti, rest).value)|;
      assert rest[length..] == content[offset + length..end];
    }
  }

  lemma RemainingEnd(nti: NumberField, c: Counts, maximumMembers: nat, content: Bytes, offset: nat, end: nat)
    requires offset + BLOCK <= end <= |content| && AllZero(content[offset..offset + BLOCK])
    requires (end - offset) % BLOCK == 0 && Within(c, maximumMembers)
    ensures Remaining(nti, c, maximumMembers, content, offset, end)
      <==> end - offset >= 2 * BLOCK && ZeroBetween(content, offset + BLOCK, end)
  {
    var rest := content[offset..end];
    assert rest[..BLOCK] == content[offset..offset + BLOCK];
    assert rest[BLOCK..] == content[offset + BLOCK..end];
    AdmitsEnd(nti, c, maximumMembers, rest);
  }

  /** A member that passes its checks is charged, and the rest decides. */
  lemma RemainingMember(nti: NumberField, c: Counts, maximumMembers: nat, content: Bytes, offset: nat,
                        header: Bytes, end: nat)
    requires offset + BLOCK <= end <= |content| && header == content[offset..offset + BLOCK] && !AllZero(header)
    ensures !MemberChecks(nti, content, offset, header, end) ==>
      !Remaining(nti, c, maximumMembers, content, offset, end)
    ensures MemberChecks(nti, content, offset, header, end) ==>
      var size := DeclaredSize(nti, header).value;
      var next := CountMember(c, Typeflag(header), size);
      (Remaining(nti, c, maximumMembers, content, offset, end)
       <==> Within(next, maximumMembers)
            && Remaining(nti, next, maximumMembers, content, offset + BLOCK + Padded(size), end))
  {
    MemberIsFirst(nti, content, offset, header, end);
    RemainingStep(nti, c, maximumMembers, content, offset, end);
  }

  /** The rest of the stream behind a zero block. */
  method ScanEnd(nti: NumberField, source: Source, offset: nat, c: Counts, streamBytes: nat, maximumMembers: nat)
    returns (verdict: Result<()>)
    requires offset + BLOCK <= streamBytes && (streamBytes - offset) % BLOCK == 0 && Within(c, maximumMembers)
    requires offset + BLOCK <= |source.content| && AllZero(source.content[offset..offset + BLOCK])
    requires source.cursor == offset + BLOCK
    modifies source
    ensures verdict.Success? <==> Remaining(nti, c, maximumMembers, source.content, offset, streamBytes)
  {
    var remaining := streamBytes - offset - BLOCK;
    if streamBytes <= |source.content| {
      RemainingEnd(nti, c, maximumMembers, source.content, offset, streamBytes);
    }
    if remaining < BLOCK {
      return Failure("is missing the canonical tar end-of-archive");
    }
    verdict := ScanTail(source, remaining);
  }

  /** One turn of the scan loop, at a block that lies inside the declared stream. */
  method ScanBlock(nti: NumberField, source: Source, offset: nat, c: Counts, streamBytes: nat, maximumMembers: nat)
    returns (step: Step)
    requires offset + BLOCK <= streamBytes && offset % BLOCK == 0 && streamBytes % BLOCK == 0
    requires Within(c, maximumMembers)
    modifies source
    ensures step.Stop? ==>
      (step.verdict.Success? <==> Remaining(nti, c, maximumMembers, source.content, offset, streamBytes))
    ensures step.Continue? ==>
      && offset < step.offset <= streamBytes && step.offset % BLOCK == 0 && Within(step.counts, maximumMembers)
      && (Remaining(nti, c, maximumMembers, source.content, offset, streamBytes)
          <==> Remaining(nti, step.counts, maximumMembers, source.content, step.offset, streamBytes))
  {
    source.Seek(offset);
    var header := source.Read(BLOCK);
    if |header| != BLOCK {
      return Stop(Failure("contains a truncated tar header"));
    }
    if header == Zeros(BLOCK) {
      var verdict := ScanEnd(nti, source, offset, c, streamBytes, maximumMembers);
      return Stop(verdict);
    }
    if streamBytes <= |source.content| {
      RemainingMember(nti, c, maximumMembers, source.content, offset, header, streamBytes);
    }
    var next := CheckMember(nti, source, offset, header, streamBytes);
    if next.Failure? {
      return Stop(Failure(next.reason));
    }
    var counts := c.(headers := c.headers + 1);
    if counts.headers > maximumMembers + MAX_SPECIAL_HEADERS {
      return Stop(Failure("contains too many raw tar headers"));
    }
    if header[156] in SPECIAL_HEADER_TYPES {
      counts := counts.(specials := c.specials + 1, specialBytes := c.specialBytes + DeclaredSize(nti, header).value);
      if counts.specials > MAX_SPECIAL_HEADERS || counts.specialBytes > MAX_TOTAL_SPECIAL_HEADER_BYTES {
        return Stop(Failure("contains too many or too large special tar headers"));
      }
    }
    return Continue(next.value, counts);
  }

  /** The scan returns normally on exactly the admitted streams, over a file that may be longer or shorter
      than the caller believes and that may deliver its tail in pieces of any size. */
  method ScanTarHeaders(nti: NumberField, source: Source, streamBytes: nat, maximumMembers: nat)
    returns (r: Result<()>)
    modifies source
    ensures r.Success? <==>
      streamBytes <= |source.content| && Admits(nti, maximumMembers, source.content[..streamBytes])
  {
    if streamBytes % BLOCK != 0 {
      if streamBytes <= |source.content| {
        AdmitsAligned(nti, maximumMembers, source.content[..streamBytes]);
      }
      return Failure("contains a truncated tar block");
    }
    source.Seek(0);
    var offset: nat := 0;
    var c := NOTHING;
    assert streamBytes <= |source.content| ==> source.content[0..streamBytes] == source.content[..streamBytes];
    while offset + BLOCK <= streamBytes
      invariant offset <= streamBytes && offset % BLOCK == 0 && Within(c, maximumMembers)
      invariant Remaining(nti, NOTHING, maximumMembers, source.content, 0, streamBytes)
        <==> Remaining(nti, c, maximumMembers, source.content, offset, streamBytes)
      decreases streamBytes - offset
    {
      var step := ScanBlock(nti, source, offset, c, streamBytes, maximumMembers);
      if step.Stop? {
        return step.verdict;
      }
      offset, c := step.offset, step.counts;
    }
    if Remaining(nti, c, maximumMembers, source.content, offset, streamBytes) {
      AdmitsNeedsBlock(nti, c, maximumMembers, source.content[offset..streamBytes]);
    }
    return Failure("is missing the canonical tar end-of-archive");
  }
}

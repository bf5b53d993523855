/** Adding the missing host aliases to a hosts file, over ASCII text. */
module RunnerHosts {
  import opened Bytes
  import Text

  const LOOPBACK := "127.0.0.1"

  // ---------------------------------------------------------------- lines, comments, words

  /** Line feed, tab and page breaks, carriage return and the three separators: where Python ends a line. */
  predicate IsBreak(c: char) {
    10 <= c as int <= 13 || 28 <= c as int <= 30
  }

  /** A carriage return and line feed end two lines here; the empty one between them says nothing. */
  function Lines(text: string): (lines: seq<string>)
    ensures lines != []
  {
    if text == "" then [""]
    else
      var rest := Lines(text[1..]);
      if IsBreak(text[0]) then [""] + rest else [[text[0]] + rest[0]] + rest[1..]
  }

  function StripComment(line: string): string {
    if line == "" || line[0] == '#' then "" else [line[0]] + StripComment(line[1..])
  }

  function WordLength(s: string): (n: nat)
    ensures n <= |s| && (n < |s| ==> Text.IsSpace(s[n])) && forall i :: 0 <= i < n ==> !Text.IsSpace(s[i])
  {
    if s == "" || Text.IsSpace(s[0]) then 0 else 1 + WordLength(s[1..])
  }

  function Words(s: string): seq<string>
    decreases |s|
  {
    if s == "" then []
    else if Text.IsSpace(s[0]) then Words(s[1..])
    else [s[..WordLength(s)]] + Words(s[WordLength(s)..])
  }

  function RecordOf(line: string): seq<string> {
    Words(StripComment(line))
  }

  // ---------------------------------------------------------------- what a hosts file says

  type Association = (string, string)

  /** The address of a record, bound to each of its names. */
  function RecordAssociations(record: seq<string>): set<Association> {
    if |record| > 1 then set name | name in record[1..] :: (record[0], name) else {}
  }

  function LineAssociations(lines: seq<string>): set<Association> {
    if lines == [] then {} else RecordAssociations(RecordOf(lines[0])) + LineAssociations(lines[1..])
  }

  function Associations(text: string): set<Association> {
    LineAssociations(Lines(text))
  }

  function Addresses(text: string, host: string): set<string> {
    set a | a in Associations(text) && a.1 == host :: a.0
  }

  // ---------------------------------------------------------------- which aliases are missing

  predicate Conflicts(text: string, host: string) {
    Addresses(text, host) - {LOOPBACK} != {}
  }

  function Missing(text: string, aliases: seq<string>): seq<string> {
    if aliases == [] then []
    else
      var front, last := Missing(text, aliases[..|aliases| - 1]), aliases[|aliases| - 1];
      if Addresses(text, last) == {} then front + [last] else front
  }

  predicate NoneConflicts(text: string, aliases: seq<string>) {
    forall host :: host in aliases ==> !Conflicts(text, host)
  }

  lemma OneMoreAlias(text: string, aliases: seq<string>, n: nat)
    requires n < |aliases|
    ensures NoneConflicts(text, aliases[..n + 1]) <==> NoneConflicts(text, aliases[..n]) && !Conflicts(text, aliases[n])
    ensures Missing(text, aliases[..n + 1]) ==
      Missing(text, aliases[..n]) + if Addresses(text, aliases[n]) == {} then [aliases[n]] else []
  {
    assert aliases[..n + 1][..n] == aliases[..n];
    assert aliases[..n + 1] == aliases[..n] + [aliases[n]];
  }

  method MissingAliases(existing: string, aliases: seq<string>) returns (r: Result<seq<string>>)
    ensures r.Success? <==> forall host :: host in aliases ==> !Conflicts(existing, host)
    ensures r.Success? ==> r.value == Missing(existing, aliases)
  {
    var pending: seq<string> := [];
    var i := 0;
    while i < |aliases|
      invariant 0 <= i <= |aliases| && NoneConflicts(existing, aliases[..i])
      invariant pending == Missing(existing, aliases[..i])
    {
      OneMoreAlias(existing, aliases, i);
      var addresses := Addresses(existing, aliases[i]);
      if addresses - {LOOPBACK} != {} {
        return Failure("disposable runner hostname has a conflicting existing address");
      }
      if addresses == {} {
        pending := pending + [aliases[i]];
      }
      i := i + 1;
    }
    assert aliases[..i] == aliases;
    return Success(pending);
  }

  // ---------------------------------------------------------------- host names

  predicate IsLabelChar(c: char) {
    'a' <= c <= 'z' || '0' <= c <= '9' || c == '-'
  }

  predicate IsLabel(s: string) {
    && 1 <= |s| <= 63 && s[0] != '-' && s[|s| - 1] != '-'
    && forall i :: 0 <= i < |s| ==> IsLabelChar(s[i])
  }

  function Dot(s: string): (n: nat)
    ensures n <= |s| && (n < |s| ==> s[n] == '.') && forall i :: 0 <= i < n ==> s[i] != '.'
  {
    if s == "" || s[0] == '.' then 0 else 1 + Dot(s[1..])
  }

  predicate AreLabels(s: string)
    decreases |s|
  {
    IsLabel(s[..Dot(s)]) && (Dot(s) == |s| || AreLabels(s[Dot(s) + 1..]))
  }

  predicate IsHost(s: string) {
    |s| <= 253 && AreLabels(s)
  }

  /** What survives the reading of a line as one word. */
  predicate IsWord(s: string) {
    s != "" && forall i :: 0 <= i < |s| ==> !Text.IsSpace(s[i]) && s[i] != '#'
  }

  lemma {:induction false} LabelsAreWords(s: string)
    requires AreLabels(s)
    ensures IsWord(s)
    decreases |s|
  {
    var n := Dot(s);
    assert forall i :: 0 <= i < n ==> s[..n][i] == s[i];
    if n < |s| {
      LabelsAreWords(s[n + 1..]);
      assert forall i :: n < i < |s| ==> s[i] == s[n + 1..][i - n - 1];
    }
  }

  // ---------------------------------------------------------------- the appended line

  function Join(words: seq<string>): string {
    if words == [] then "" else if |words| == 1 then words[0] else words[0] + " " + Join(words[1..])
  }

  function HostsLine(address: string, aliases: seq<string>): string {
    address + " " + Join(aliases)
  }

  /** A line feed first, for files that lack one at their end. */
  function Addition(address: string, aliases: seq<string>): string {
    "\n" + HostsLine(address, aliases) + "\n"
  }

  function Appended(text: string, address: string, aliases: seq<string>): string {
    text + Addition(address, aliases)
  }

  lemma {:induction false} LinesConcat(x: string, y: string)
    ensures Lines(x + ("\n" + y)) == Lines(x) + Lines(y)
  {
    var text := x + ("\n" + y);
    if x == "" {
      assert text == "\n" + y && text[1..] == y;
    } else {
      assert text[1..] == x[1..] + ("\n" + y);
      LinesConcat(x[1..], y);
    }
  }

  lemma {:induction false} LineAssociationsConcat(a: seq<string>, b: seq<string>)
    ensures LineAssociations(a + b) == LineAssociations(a) + LineAssociations(b)
    decreases |a|
  {
    if a == [] {
      assert a + b == b;
    } else {
      assert (a + b)[1..] == a[1..] + b;
      LineAssociationsConcat(a[1..], b);
    }
  }

  lemma {:induction false} LinesOfOne(s: string)
    requires forall i :: 0 <= i < |s| ==> !IsBreak(s[i])
    ensures Lines(s) == [s]
  {
    if s != "" {
      LinesOfOne(s[1..]);
      assert [s[0]] + s[1..] == s;
    }
  }

  lemma {:induction false} NothingToStrip(s: string)
    requires forall i :: 0 <= i < |s| ==> s[i] != '#'
    ensures StripComment(s) == s
  {
    if s != "" {
      NothingToStrip(s[1..]);
      assert [s[0]] + s[1..] == s;
    }
  }

  lemma WordsCons(word: string, rest: string)
    requires IsWord(word) && (rest == "" || Text.IsSpace(rest[0]))
    ensures Words(word + rest) == [word] + Words(rest)
  {
    var s := word + rest;
    assert forall i :: 0 <= i < |word| ==> s[i] == word[i];
    assert rest != "" ==> s[|word|] == rest[0];
    assert WordLength(s) == |word|;
    assert s[..|word|] == word && s[|word|..] == rest;
  }

  lemma JoinCons(words: seq<string>)
    requires |words| > 1 && IsWord(words[0])
    ensures Join(words) == words[0] + (" " + Join(words[1..]))
    ensures Words(Join(words)) == [words[0]] + Words(Join(words[1..]))
  {
    var tail := " " + Join(words[1..]);
    assert tail[1..] == Join(words[1..]);
    assert Join(words) == words[0] + tail;
    WordsCons(words[0], tail);
  }

  lemma {:induction false} JoinWords(words: seq<string>)
    requires forall i :: 0 <= i < |words| ==> IsWord(words[i])
    ensures Words(Join(words)) == words
  {
    if |words| == 1 {
      WordsCons(words[0], "");
      assert words[0] + "" == words[0];
    } else if words != [] {
      JoinCons(words);
      JoinWords(words[1..]);
      assert words == [words[0]] + words[1..];
    }
  }

  /** Text that neither starts a comment nor ends a line. */
  predicate Plain(s: string) {
    forall i :: 0 <= i < |s| ==> s[i] != '#' && !IsBreak(s[i])
  }

  lemma PlainConcat(a: string, b: string)
    requires Plain(a) && Plain(b)
    ensures Plain(a + b)
  {
  }

  lemma {:induction false} JoinPlain(words: seq<string>)
    requires forall i :: 0 <= i < |words| ==> IsWord(words[i])
    ensures Plain(Join(words))
  {
    if |words| > 1 {
      JoinCons(words);
      JoinPlain(words[1..]);
      PlainConcat(" ", Join(words[1..]));
      PlainConcat(words[0], " " + Join(words[1..]));
    }
  }

  lemma PlainLine(address: string, aliases: seq<string>)
    requires IsWord(address) && forall i :: 0 <= i < |aliases| ==> IsWord(aliases[i])
    ensures Plain(HostsLine(address, aliases))
  {
    JoinPlain(aliases);
    PlainConcat(" ", Join(aliases));
    PlainConcat(address, " " + Join(aliases));
    assert HostsLine(address, aliases) == address + (" " + Join(aliases));
  }

  /** The new line reads back as its address and its aliases. */
  lemma HostsLineRecord(address: string, aliases: seq<string>)
    requires IsWord(address) && forall i :: 0 <= i < |aliases| ==> IsWord(aliases[i])
    ensures Lines(HostsLine(address, aliases)) == [HostsLine(address, aliases)]
    ensures RecordOf(HostsLine(address, aliases)) == [address] + aliases
  {
    var line, tail := HostsLine(address, aliases), " " + Join(aliases);
    PlainLine(address, aliases);
    NothingToStrip(line);
    LinesOfOne(line);
    JoinWords(aliases);
    assert tail[1..] == Join(aliases);
    assert line == address + tail;
    WordsCons(address, tail);
  }

  /** The new line and the empty one after it. */
  lemma LineBinds(address: string, aliases: seq<string>)
    requires IsWord(address) && forall i :: 0 <= i < |aliases| ==> IsWord(aliases[i])
    ensures Lines(HostsLine(address, aliases) + "\n") == [HostsLine(address, aliases)] + [""]
    ensures LineAssociations([HostsLine(address, aliases)] + [""]) == set host | host in aliases :: (address, host)
  {
    var line := HostsLine(address, aliases);
    LinesConcat(line, "");
    assert line + ("\n" + "") == line + "\n";
    HostsLineRecord(address, aliases);
    LineAssociationsConcat([line], [""]);
    assert RecordOf("") == [];
    assert LineAssociations([""]) == {};
    assert LineAssociations([line]) == RecordAssociations([address] + aliases);
    assert ([address] + aliases)[1..] == aliases;
  }

  /** Appending adds the new associations and keeps every old one, however the old text ends. */
  lemma AppendAddsExactly(text: string, address: string, aliases: seq<string>)
    requires IsWord(address) && forall i :: 0 <= i < |aliases| ==> IsWord(aliases[i])
    ensures Associations(Appended(text, address, aliases))
         == Associations(text) + (set host | host in aliases :: (address, host))
  {
    var line := HostsLine(address, aliases);
    LinesConcat(text, line + "\n");
    assert "\n" + line + "\n" == "\n" + (line + "\n");
    LineAssociationsConcat(Lines(text), Lines(line + "\n"));
    LineBinds(address, aliases);
  }

  lemma {:induction false} MissingExact(text: string, aliases: seq<string>)
    ensures forall host :: host in Missing(text, aliases) <==> host in aliases && Addresses(text, host) == {}
    decreases |aliases|
  {
    if aliases != [] {
      MissingExact(text, aliases[..|aliases| - 1]);
      assert aliases == aliases[..|aliases| - 1] + [aliases[|aliases| - 1]];
    }
  }

  lemma {:induction false} NothingMissing(text: string, aliases: seq<string>)
    requires forall host :: host in aliases ==> Addresses(text, host) != {}
    ensures Missing(text, aliases) == []
  {
    MissingExact(text, aliases);
    Text.EmptyElements(Missing(text, aliases));
  }

  /** One append converges: afterwards nothing is missing and nothing conflicts. */
  lemma AppendConverges(text: string, aliases: seq<string>)
    requires forall host :: host in aliases ==> IsWord(host) && !Conflicts(text, host)
    ensures
      var after := Appended(text, LOOPBACK, Missing(text, aliases));
      && (forall host :: host in aliases ==> !Conflicts(after, host))
      && Missing(after, aliases) == []
  {
    var pending := Missing(text, aliases);
    var after := Appended(text, LOOPBACK, pending);
    MissingExact(text, aliases);
    AppendAddsExactly(text, LOOPBACK, pending);
    forall host | host in aliases ensures Addresses(after, host) == {LOOPBACK} {
      if host in pending {
        assert (LOOPBACK, host) in Associations(after);
      } else {
        var a :| a in Addresses(text, host);
        assert a in Addresses(text, host) - {LOOPBACK} || a == LOOPBACK;
        assert (a, host) in Associations(after);
      }
      forall a | a in Addresses(after, host) ensures a == LOOPBACK {
        if (a, host) in Associations(text) {
          assert a in Addresses(text, host);
          assert a !in Addresses(text, host) - {LOOPBACK};
        }
      }
    }
    NothingMissing(after, aliases);
  }

  // ---------------------------------------------------------------- a writer that stops halfway

  /** `after` is `text` with the first part of the addition, perhaps none or all of it. */
  predicate Begun(text: string, after: string, address: string, aliases: seq<string>) {
    text <= after && after[|text|..] <= Addition(address, aliases)
  }

  /** A line cut short binds nothing, or binds names to its whole address. */
  lemma CutLine(line: string, address: string, tail: string)
    requires IsWord(address) && tail != "" && Text.IsSpace(tail[0]) && line <= address + tail && Plain(line)
    ensures forall a :: a in LineAssociations([line]) ==> a.0 == address
  {
    NothingToStrip(line);
    if |line| <= |address| {
      assert forall i :: 0 <= i < |line| ==> line[i] == address[i];
      if line != "" {
        WordsCons(line, "");
        assert line + "" == line;
      }
    } else {
      assert line == address + tail[..|line| - |address|];
      WordsCons(address, tail[..|line| - |address|]);
    }
  }

  /** Whatever part of the addition was written, the old associations stay and every new one has the added address. */
  lemma BegunKeeps(text: string, after: string, address: string, aliases: seq<string>)
    requires IsWord(address) && forall i :: 0 <= i < |aliases| ==> IsWord(aliases[i])
    requires Begun(text, after, address, aliases)
    ensures Associations(text) <= Associations(after)
    ensures forall a :: a in Associations(after) - Associations(text) ==> a.0 == address
  {
    var part, line := after[|text|..], HostsLine(address, aliases);
    assert after == text + part;
    if part == Addition(address, aliases) {
      AppendAddsExactly(text, address, aliases);
    } else if part == "" {
      assert after == text;
    } else {
      assert part == "\n" + part[1..] && part[1..] <= line;
      PlainLine(address, aliases);
      assert line == address + (" " + Join(aliases));
      CutKeeps(text, part[1..], address, " " + Join(aliases));
    }
  }

  lemma CutKeeps(text: string, cut: string, address: string, tail: string)
    requires IsWord(address) && tail != "" && Text.IsSpace(tail[0]) && cut <= address + tail && Plain(address + tail)
    ensures
      var after := Associations(text + ("\n" + cut));
      Associations(text) <= after && forall a :: a in after - Associations(text) ==> a.0 == address
  {
    assert forall i :: 0 <= i < |cut| ==> cut[i] == (address + tail)[i];
    LinesConcat(text, cut);
    LinesOfOne(cut);
    LineAssociationsConcat(Lines(text), [cut]);
    CutLine(cut, address, tail);
  }

  /** A failed append of the loopback address brings no conflict and settles none. */
  lemma BegunConflicts(text: string, after: string, aliases: seq<string>, host: string)
    requires (forall i :: 0 <= i < |aliases| ==> IsWord(aliases[i])) && Begun(text, after, LOOPBACK, aliases)
    ensures Conflicts(after, host) <==> Conflicts(text, host)
  {
    BegunKeeps(text, after, LOOPBACK, aliases);
    if Conflicts(text, host) {
      var a :| a in Addresses(text, host) - {LOOPBACK};
      assert (a, host) in Associations(after);
      assert a in Addresses(after, host) - {LOOPBACK};
    }
    if Conflicts(after, host) {
      var a :| a in Addresses(after, host) - {LOOPBACK};
      assert (a, host) in Associations(text);
      assert a in Addresses(text, host) - {LOOPBACK};
    }
  }

  /** After any failed append the next one that is written converges as the first would have. */
  lemma RetryConverges(text: string, after: string, aliases: seq<string>)
    requires forall host :: host in aliases ==> IsWord(host) && !Conflicts(text, host)
    requires Begun(text, after, LOOPBACK, Missing(text, aliases))
    ensures
      var retried := Appended(after, LOOPBACK, Missing(after, aliases));
      && (forall host :: host in aliases ==> !Conflicts(retried, host))
      && Missing(retried, aliases) == []
  {
    MissingExact(text, aliases);
    forall host | host in aliases ensures !Conflicts(after, host) {
      BegunConflicts(text, after, Missing(text, aliases), host);
    }
    AppendConverges(after, aliases);
  }

  // ---------------------------------------------------------------- installing

  class HostsFile {
    var text: string
    /** The latest writer reported success. */
    ghost var clean: bool

    /** A privileged writer, which may fail after writing any part of its input, even all of it. */
    method Write(addition: string) returns (ok: bool)
      modifies this
      ensures clean == ok && old(text) <= text <= old(text) + addition
      ensures ok ==> text == old(text) + addition
    {
      var written: nat;
      ok, written := *, *;
      if ok || |addition| <= written {
        written := |addition|;
      }
      text := text + addition[..written];
      clean := ok;
    }

    /** Appending succeeds exactly when the aliases are host names and the writer reports success. */
    method AppendHostAliases(address: string, aliases: seq<string>) returns (r: Result<()>)
      modifies this
      ensures r.Success? ==>
        aliases != [] && (forall i :: 0 <= i < |aliases| ==> IsHost(aliases[i]))
        && text == Appended(old(text), address, aliases)
      ensures r.Failure? ==> Begun(old(text), text, address, aliases)
      ensures aliases == [] || (exists i :: 0 <= i < |aliases| && !IsHost(aliases[i])) ==>
        r.Failure? && text == old(text)
      ensures aliases != [] && (forall i :: 0 <= i < |aliases| ==> IsHost(aliases[i])) ==> (r.Success? <==> clean)
    {
      if aliases == [] || exists i :: 0 <= i < |aliases| && !IsHost(aliases[i]) {
        return Failure("disposable runner host alias is invalid");
      }
      var ok := Write(Addition(address, aliases));
      if !ok {
        return Failure("runner cannot stage disposable host aliases");
      }
      return Success(());
    }

    /** Installing twice is installing once: the first run leaves nothing for the second. */
    method Install(aliases: seq<string>) returns (r: Result<()>)
      requires forall i :: 0 <= i < |aliases| ==> IsHost(aliases[i])
      modifies this
      ensures r.Success? ==>
        && (forall host :: host in aliases ==> !Conflicts(text, host))
        && Missing(text, aliases) == []
        && Associations(text)
           == Associations(old(text)) + (set host | host in Missing(old(text), aliases) :: (LOOPBACK, host))
      ensures r.Success? && Missing(old(text), aliases) == [] ==> text == old(text)
      ensures r.Failure? ==>
        && Begun(old(text), text, LOOPBACK, Missing(old(text), aliases))
        && Associations(old(text)) <= Associations(text)
        && (forall a :: a in Associations(text) - Associations(old(text)) ==> a.0 == LOOPBACK)
      ensures (exists host :: host in aliases && Conflicts(old(text), host)) ==> r.Failure? && text == old(text)
      ensures (forall host :: host in aliases ==> !Conflicts(old(text), host)) ==>
        (r.Success? <==> Missing(old(text), aliases) == [] || clean)
    {
      var pending := MissingAliases(text, aliases);
      if pending.Failure? {
        return Failure(pending.reason);
      }
      forall host | host in aliases ensures IsWord(host) {
        LabelsAreWords(host);
      }
      if pending.value != [] {
        MissingExact(text, aliases);
        AppendConverges(text, aliases);
        AppendAddsExactly(text, LOOPBACK, pending.value);
        r := AppendHostAliases(LOOPBACK, pending.value);
        if r.Failure? {
          BegunKeeps(old(text), text, LOOPBACK, pending.value);
        }
      } else {
        assert (set host | host in pending.value :: (LOOPBACK, host)) == {};
        return Success(());
      }
    }
  }

  // ---------------------------------------------------------------- what reading a file and a host name mean

  /** The white space of ASCII, and of it the characters at which Python ends a line. */
  lemma BreakExact(c: char)
    ensures IsBreak(c) <==> Text.IsSpace(c) && c != ' ' && c != '\t' && c as int != 31
  {
  }

  /** A line ends at every break, and nowhere else (`LinesOfOne`). */
  lemma {:induction false} LinesBreak(x: string, c: char, y: string)
    requires IsBreak(c)
    ensures Lines(x + ([c] + y)) == Lines(x) + Lines(y)
  {
    var text := x + ([c] + y);
    if x == "" {
      assert text == [c] + y && text[1..] == y;
    } else {
      assert text[1..] == x[1..] + ([c] + y);
      LinesBreak(x[1..], c, y);
    }
  }

  /** A comment starts at the first number sign, and without one (`NothingToStrip`) there is none. */
  lemma {:induction false} CommentStripped(line: string, comment: string)
    requires forall i :: 0 <= i < |line| ==> line[i] != '#'
    ensures StripComment(line + ("#" + comment)) == line
  {
    var whole := line + ("#" + comment);
    if line != "" {
      assert whole[1..] == line[1..] + ("#" + comment);
      CommentStripped(line[1..], comment);
      assert [line[0]] + line[1..] == line;
    }
  }

  /** Words stand between white space (`WordsCons`), of which any amount is skipped. */
  lemma {:induction false} SpaceSkipped(space: string, s: string)
    requires forall i :: 0 <= i < |space| ==> Text.IsSpace(space[i])
    ensures Words(space + s) == Words(s) && Words(space) == []
  {
    if space == "" {
      assert space + s == s;
    } else {
      assert (space + s)[1..] == space[1..] + s;
      SpaceSkipped(space[1..], s);
    }
  }

  predicate IsHostLabel(part: string) {
    && 1 <= |part| <= 63
    && part[0] != '-' && part[|part| - 1] != '-'
    && forall i :: 0 <= i < |part| ==> part[i] in Text.LOWER + Text.DIGITS + "-"
  }

  lemma LabelExact(part: string)
    ensures IsLabel(part) <==> IsHostLabel(part)
  {
    forall i | 0 <= i < |part| ensures IsLabelChar(part[i]) <==> part[i] in Text.LOWER + Text.DIGITS + "-" {
      Text.Alphabet(part[i]);
    }
  }

  function Dotted(labels: seq<string>): string
    requires labels != []
  {
    if |labels| == 1 then labels[0] else labels[0] + ("." + Dotted(labels[1..]))
  }

  ghost predicate Labels(labels: seq<string>) {
    labels != [] && forall i :: 0 <= i < |labels| ==> IsLabel(labels[i])
  }

  /** A host name is up to 253 characters of labels with dots between them. */
  lemma {:induction false} HostExact(host: string)
    ensures IsHost(host) <==> |host| <= 253 && exists labels :: Labels(labels) && host == Dotted(labels)
  {
    if AreLabels(host) {
      var labels := LabelsOf(host);
    }
    if labels :| Labels(labels) && host == Dotted(labels) {
      DottedLabels(labels);
    }
  }

  lemma {:induction false} LabelsOf(host: string) returns (labels: seq<string>)
    requires AreLabels(host)
    ensures Labels(labels) && host == Dotted(labels)
    decreases |host|
  {
    var n := Dot(host);
    if n == |host| {
      labels := OneLabel(host);
    } else {
      var rest := LabelsOf(host[n + 1..]);
      labels := [host[..n]] + rest;
      OneMoreLabel(host[..n], rest);
      DotParts(host, n);
    }
  }

  lemma OneLabel(host: string) returns (labels: seq<string>)
    requires IsLabel(host[..|host|])
    ensures Labels(labels) && host == Dotted(labels)
  {
    labels := [host];
    assert host[..|host|] == host;
  }

  lemma DotParts(host: string, n: nat)
    requires n < |host| && host[n] == '.'
    ensures host == host[..n] + ("." + host[n + 1..])
  {
  }

  lemma OneMoreLabel(first: string, rest: seq<string>)
    requires IsLabel(first) && Labels(rest)
    ensures Labels([first] + rest) && Dotted([first] + rest) == first + ("." + Dotted(rest))
  {
    assert ([first] + rest)[1..] == rest;
  }

  lemma {:induction false} DottedLabels(labels: seq<string>)
    requires Labels(labels)
    ensures AreLabels(Dotted(labels))
  {
    var host, first := Dotted(labels), labels[0];
    assert forall i :: 0 <= i < |first| ==> IsLabelChar(first[i]);
    if |labels| == 1 {
      assert Dot(host) == |host| && host[..|host|] == host;
    } else {
      DottedLabels(labels[1..]);
      FirstDot(first, Dotted(labels[1..]));
    }
  }

  lemma FirstDot(first: string, rest: string)
    requires forall i :: 0 <= i < |first| ==> IsLabelChar(first[i])
    ensures
      var host := first + ("." + rest);
      Dot(host) == |first| && host[..|first|] == first && host[|first| + 1..] == rest
  {
    var host := first + ("." + rest);
    assert forall i :: 0 <= i < |first| ==> host[i] == first[i];
    assert host[|first|] == '.';
  }
}

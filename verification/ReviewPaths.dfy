/** Names of members in a private review archive: which are safe, and which ones packing builds. */
module ReviewPaths {
  import opened Text

  const CAPTURE_RECEIPT := "official-real-ui-images.json"

  predicate PlainCharacters(name: string) {
    '\\' !in name && ':' !in name
  }

  /** No part is empty or a step in place or upwards. */
  predicate GoodParts(name: string) {
    GoodAll(Split(name))
  }

  predicate GoodPart(part: string) {
    part != "" && part != "." && part != ".."
  }

  predicate GoodAll(parts: seq<string>) {
    forall i :: 0 <= i < |parts| ==> GoodPart(parts[i])
  }

  /** Relative, already in its shortest form, and without a climb; the single name "." passes. */
  predicate SafePath(name: string) {
    name != "" && PlainCharacters(name) && (name == "." || GoodParts(name))
  }

  /** A name in a directory listing that is safe wherever the directory is. */
  predicate PlainName(name: string) {
    PlainCharacters(name) && GoodParts(name) && '/' !in name
  }

  function Join(a: string, b: string): (name: string)
    ensures '/' in name
  {
    a + "/" + b
  }

  /** The directory part of a path, "." when there is none. */
  function Parent(name: string): string {
    if name == "" then "."
    else if name[|name| - 1] == '/' then name[..|name| - 1]
    else Parent(name[..|name| - 1])
  }

  /** What follows the last slash. */
  function Base(name: string): string {
    if name == "" || name[|name| - 1] == '/' then "" else Base(name[..|name| - 1]) + [name[|name| - 1]]
  }

  lemma {:induction false} SplitJoin(a: string, b: string)
    ensures Split(Join(a, b)) == Split(a) + Split(b)
  {
    var name := Join(a, b);
    if a == "" {
      assert name[1..] == b;
    } else {
      SplitJoin(a[1..], b);
      assert name[1..] == Join(a[1..], b) && name[0] == a[0];
      PrependConcat(a[0], Split(a[1..]), Split(b));
    }
  }

  lemma JoinCharacters(a: string, b: string, c: char)
    requires c != '/'
    ensures c in Join(a, b) <==> c in a || c in b
  {
    var name := Join(a, b);
    if c in a {
      var i :| 0 <= i < |a| && a[i] == c;
      assert name[i] == c;
    }
    if c in b {
      var i :| 0 <= i < |b| && b[i] == c;
      assert name[|a| + 1 + i] == c;
    }
  }

  lemma GoodJoin(a: string, b: string)
    ensures GoodParts(Join(a, b)) <==> GoodParts(a) && GoodParts(b)
  {
    SplitJoin(a, b);
    GoodConcat(Split(a), Split(b));
  }

  lemma GoodConcat(a: seq<string>, b: seq<string>)
    ensures GoodAll(a + b) <==> GoodAll(a) && GoodAll(b)
  {
    assert forall i :: 0 <= i < |a| ==> (a + b)[i] == a[i];
    assert forall i :: 0 <= i < |b| ==> (a + b)[|a| + i] == b[i];
  }

  /** A joined path is safe exactly when both sides are. */
  lemma SafeJoin(a: string, b: string)
    ensures SafePath(Join(a, b)) <==>
      PlainCharacters(a) && PlainCharacters(b) && GoodParts(a) && GoodParts(b)
  {
    JoinCharacters(a, b, '\\');
    JoinCharacters(a, b, ':');
    GoodJoin(a, b);
  }

  lemma {:induction false} WholeName(name: string)
    requires '/' !in name
    ensures Split(name) == [name]
  {
    if name != "" {
      WholeName(name[1..]);
      assert name == [name[0]] + name[1..];
    }
  }

  lemma SinglePart(name: string)
    requires '/' !in name && PlainCharacters(name) && GoodPart(name)
    ensures PlainName(name) && SafePath(name)
  {
    WholeName(name);
  }

  lemma {:induction false} ParentAndBase(name: string)
    ensures '/' in name ==> name == Join(Parent(name), Base(name))
    ensures '/' !in Base(name)
    ensures '/' !in name ==> Parent(name) == "."
  {
    if name != "" && name[|name| - 1] != '/' {
      var front, last := name[..|name| - 1], name[|name| - 1];
      ParentAndBase(front);
      assert name == front + [last];
      assert '/' in name <==> '/' in front;
    }
  }

  /** Safe is "." and every path, without back slash and colon, that has parts between slashes, each of them no empty
      one and no step in place or upwards. */
  lemma {:induction false} SafePathExact(name: string)
    ensures SafePath(name) <==>
      && '\\' !in name && ':' !in name
      && (name == "." ||
          exists parts :: Plain(parts) && name == Slashed(parts))
  {
    SplitParts(name);
    if GoodParts(name) {
      assert forall i :: 0 <= i < |Split(name)| ==> GoodPart(Split(name)[i]);
      assert Plain(Split(name));
    }
    if parts :| Plain(parts) && name == Slashed(parts) {
      SplitUnique(parts);
      assert forall i :: 0 <= i < |parts| ==> GoodPart(parts[i]);
      assert name != "" by {
        assert Split("") == [""];
      }
    }
    assert Split("") == [""] && !GoodPart([""][0]);
  }

  ghost predicate Plain(parts: seq<string>) {
    && parts != []
    && forall i :: 0 <= i < |parts| ==> '/' !in parts[i] && parts[i] != "" && parts[i] != "." && parts[i] != ".."
  }

  // ---------------------------------------------------------------- the names that packing builds

  /** A path in a directory is taken apart at its last slash. */
  lemma BesideNames(directory: string, base: string, file: string)
    requires '/' !in base
    ensures RawName(directory + ("/" + base)) == "raw/" + directory + "/" + base
    ensures BesideName(directory + ("/" + base), file) == "raw/" + directory + "/" + file
    ensures ReceiptName(directory + ("/" + base)) == "raw/" + directory + "/official-real-ui-images.json"
  {
    ParentOf(directory, base);
    assert "raw" + "/" + (directory + ("/" + base)) == "raw/" + directory + "/" + base;
    assert "raw" + "/" + directory + "/" + file == "raw/" + directory + "/" + file;
    assert "raw" + "/" + directory + "/" + CAPTURE_RECEIPT == "raw/" + directory + "/official-real-ui-images.json";
  }

  lemma {:induction false} ParentOf(directory: string, base: string)
    requires '/' !in base
    ensures Parent(directory + ("/" + base)) == directory
    decreases |base|
  {
    var name := directory + ("/" + base);
    if base == "" {
      assert name[|name| - 1] == '/' && name[..|name| - 1] == directory;
    } else {
      assert name[|name| - 1] == base[|base| - 1];
      assert name[..|name| - 1] == directory + ("/" + base[..|base| - 1]);
      ParentOf(directory, base[..|base| - 1]);
    }
  }

  function RawName(source: string): string {
    Join("raw", source)
  }

  /** A file beside the evidence. */
  function BesideName(source: string, file: string): string {
    Join(Join("raw", Parent(source)), file)
  }

  function ReceiptName(source: string): string {
    BesideName(source, CAPTURE_RECEIPT)
  }

  lemma RawExact(source: string)
    ensures SafePath(RawName(source)) <==> PlainCharacters(source) && GoodParts(source)
  {
    SinglePart("raw");
    SafeJoin("raw", source);
  }

  /** Beside safely named evidence a file of a directory listing has a safe name exactly when the evidence lies in a
      directory and the file is plainly named; otherwise the directory part is ".", and "raw/./" is not a safe path. */
  lemma BesideExact(source: string, file: string)
    requires SafePath(source) && '/' !in file
    ensures SafePath(BesideName(source, file)) <==> '/' in source && PlainName(file)
  {
    ParentAndBase(source);
    SinglePart("raw");
    SafeJoin(Join("raw", Parent(source)), file);
    SafeJoin("raw", Parent(source));
    GoodJoin("raw", Parent(source));
    WholeName(".");
    if '/' in source {
      SafeJoin(Parent(source), Base(source));
    } else {
      assert !GoodPart(Split(".")[0]);
    }
  }

  lemma ReceiptExact(source: string)
    requires SafePath(source)
    ensures SafePath(ReceiptName(source)) <==> '/' in source
  {
    BesidePlain(source, CAPTURE_RECEIPT);
  }

  lemma BesidePlain(source: string, file: string)
    requires SafePath(source) && '/' !in file && PlainCharacters(file) && GoodPart(file)
    ensures SafePath(BesideName(source, file)) <==> '/' in source
  {
    SinglePart(file);
    BesideExact(source, file);
  }

  /** No name built from names without a NUL holds one. */
  lemma NoNul(source: string, file: string)
    requires '\0' !in source && '\0' !in file
    ensures '\0' !in RawName(source) && '\0' !in BesideName(source, file)
  {
    NoNulParent(source);
    JoinCharacters("raw", source, '\0');
    JoinCharacters("raw", Parent(source), '\0');
    JoinCharacters(Join("raw", Parent(source)), file, '\0');
  }

  lemma {:induction false} NoNulParent(name: string)
    requires '\0' !in name
    ensures '\0' !in Parent(name)
  {
    if name != "" && name[|name| - 1] != '/' {
      NoNulParent(name[..|name| - 1]);
    }
  }
}

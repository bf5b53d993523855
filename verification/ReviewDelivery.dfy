/** Packing private review inputs and sealing them for delivery.
    Hashing, JSON, the tar library and the age tool are parameters; see `Tools`. */
module ReviewDelivery {
  import opened Bytes
  import opened ReviewPaths
  import opened Text

  const MAX_ARCHIVE := 64 * 1024 * 1024
  const MAX_ENTRIES := 1025
  const MAX_IMAGE := 500 * 1024
  const MAX_CIPHERTEXT := MAX_ARCHIVE + 1024 * 1024
  const MANIFEST := "manifest.json"
  const SUMMARY := "summary.json"
  const DIGEST_PREFIX := "sha256:"
  const PNG_MAGIC: Bytes := [0x89, 0x50, 0x4e, 0x47, 0x0d, 0x0a, 0x1a, 0x0a]

  /** "age-encryption.org/v1" and a newline */
  const AGE_HEADER: Bytes := [
    97, 103, 101, 45, 101, 110, 99, 114, 121, 112, 116,
    105, 111, 110, 46, 111, 114, 103, 47, 118, 49, 10
  ]

  /** Within the limit, and in age's own format. */
  predicate Sealable(ciphertext: Bytes) {
    |ciphertext| <= MAX_CIPHERTEXT && AGE_HEADER <= ciphertext
  }

  // ---------------------------------------------------------------- documents and tools

  datatype Module = Module(testName: string, screenshot: string)

  datatype Request = Request(source: string, evidence: string, receipt: string, export_: string, modules: seq<Module>)

  /** The run a local summary speaks of, and whether it disclaims release qualification. */
  datatype Local = Local(runId: string, disclaims: bool)

  datatype Summary = Summary(lane: string, local: Option<Local>, requests: seq<Request>)

  datatype Scope = OfficialRunReviewOnly | LocalDeveloperFeedback

  type MemberTable = map<string, (string, nat)>

  datatype Manifest = Manifest(
    executionId: string, attempt: int, lane: string, scope: Scope, summaryDigest: string,
    requests: seq<Request>, members: MemberTable)

  /** The public receipt beside a ciphertext. */
  datatype Receipt = Receipt(
    scope: Scope, executionId: string, attempt: int, lane: string, summaryDigest: string,
    ciphertextDigest: string, ciphertextBytes: nat, imageCount: nat)

  /** A tar member as read: its declared size, and the bytes its stream yields. */
  datatype Entry = Entry(name: string, regular: bool, size: nat, data: Bytes)

  /** `manifestOf` reads a manifest of the right schema that disclaims release qualification. */
  datatype Tools = Tools(
    hash: Bytes -> string,
    dumpManifest: Manifest -> Bytes, manifestOf: Bytes -> Option<Manifest>,
    writeTar: seq<(string, Bytes)> -> Bytes, readTar: Bytes -> Option<seq<Entry>>,
    seal: Bytes -> Option<Bytes>, unseal: Bytes -> Option<Bytes>)

  function SumLengths(es: seq<(string, Bytes)>): nat {
    if es == [] then 0 else SumLengths(es[..|es| - 1]) + |es[|es| - 1].1|
  }

  function AsEntries(es: seq<(string, Bytes)>): (entries: seq<Entry>)
    ensures |entries| == |es| && forall i :: 0 <= i < |es| ==> entries[i] == Entry(es[i].0, true, |es[i].1|, es[i].1)
  {
    seq(|es|, i requires 0 <= i < |es| => Entry(es[i].0, true, |es[i].1|, es[i].1))
  }

  function Names(ps: seq<(string, Bytes)>): (names: seq<string>)
    ensures |names| == |ps| && forall i :: 0 <= i < |ps| ==> names[i] == ps[i].0
  {
    seq(|ps|, i requires 0 <= i < |ps| => ps[i].0)
  }

  /** A name that the tar library stores as it is: no trailing slash to drop, and no NUL to cut it at. */
  predicate Storable(name: string) {
    SafePath(name) && '\0' !in name
  }

  /** The lists that packing writes: in the order of their names, all of them storable. */
  ghost predicate Writes(es: seq<(string, Bytes)>) {
    StrictlySorted(Names(es)) && forall i :: 0 <= i < |es| ==> Storable(es[i].0)
  }

  /** The tools do what they are for: what packing writes is read back, an archive is no smaller than its contents, and
      decryption undoes encryption. */
  ghost predicate Faithful(t: Tools) {
    && (forall m :: t.manifestOf(t.dumpManifest(m)) == Some(m))
    && (forall es :: Writes(es) ==>
      t.readTar(t.writeTar(es)) == Some(AsEntries(es)) && SumLengths(es) <= |t.writeTar(es)|)
    && (forall b :: t.seal(b).Some? ==> t.unseal(t.seal(b).value) == Some(b))
  }

  predicate IsHex64(s: string) {
    |s| == 64 && forall i :: 0 <= i < 64 ==> '0' <= s[i] <= '9' || 'a' <= s[i] <= 'f'
  }

  /** The hash is printed in hexadecimal. */
  ghost predicate HexHash(t: Tools) {
    forall b :: IsHex64(t.hash(b))
  }

  function Digest(t: Tools, value: Bytes): string {
    DIGEST_PREFIX + t.hash(value)
  }

  predicate IsDigest(s: string) {
    && |s| == 71 && DIGEST_PREFIX <= s
    && forall i :: 7 <= i < |s| ==> '0' <= s[i] <= '9' || 'a' <= s[i] <= 'f'
  }

  /** A digest without its seven-character prefix. */
  function Tail(digest: string): string {
    if |digest| >= 7 then digest[7..] else ""
  }

  function ImageName(m: Module): string {
    Join("images", Tail(m.screenshot) + ".png")
  }

  // ---------------------------------------------------------------- packing

  type Members = map<string, Bytes>

  /** The items of a dictionary in the order of their names. */
  function Items(ms: Members): (es: seq<(string, Bytes)>)
    ensures |es| == |Sorted(ms.Keys)|
    ensures forall i :: 0 <= i < |es| ==>
      es[i].0 == Sorted(ms.Keys)[i] && es[i].0 in ms && es[i].1 == ms[es[i].0]
  {
    var names := Sorted(ms.Keys);
    assert forall i :: 0 <= i < |names| ==> names[i] in Elements(names);
    seq(|names|, i requires 0 <= i < |names| => (names[i], ms[names[i]]))
  }

  function Total(ms: Members): nat {
    SumLengths(Items(ms))
  }

  ghost predicate Extends(before: Members, after: Members) {
    forall name :: name in before ==> name in after && after[name] == before[name]
  }

  /** What packing keeps from its first member on. */
  predicate AllStorable(ms: Members) {
    forall name :: name in ms ==> Storable(name)
  }

  ghost predicate Packed(ms: Members, summaryBytes: Bytes) {
    PackedWithout(ms, SUMMARY, summaryBytes, MANIFEST)
  }

  ghost predicate PackedWithout(ms: Members, name: string, data: Bytes, other: string) {
    name in ms && ms[name] == data && other !in ms && AllStorable(ms) && Total(ms) <= MAX_ARCHIVE
  }

  /** A module's picture is among the members, under its digest. */
  predicate ImageBound(t: Tools, ms: Members, m: Module) {
    && IsDigest(m.screenshot) && ImageName(m) in ms
    && Digest(t, ms[ImageName(m)]) == m.screenshot && PNG_MAGIC <= ms[ImageName(m)]
  }

  ghost predicate AllImages(t: Tools, ms: Members, modules: seq<Module>) {
    forall i :: 0 <= i < |modules| ==> ImageBound(t, ms, modules[i])
  }

  ghost predicate AllBound(t: Tools, ms: Members, requests: seq<Request>) {
    forall r :: 0 <= r < |requests| ==> AllImages(t, ms, requests[r].modules)
  }

  /** One call of `add`. */
  datatype Addition = Addition(name: string, value: Bytes, expected: Option<string>)

  /** The calls that a part of the inputs leads to, or `None` where an input is missing or malformed. */
  type Plan = Option<seq<Addition>>

  predicate Matches(t: Tools, a: Addition) {
    a.expected.Some? ==> Digest(t, a.value) == a.expected.value
  }

  predicate Fits(t: Tools, ms: Members, a: Addition) {
    && SafePath(a.name) && Matches(t, a)
    && (a.name in ms ==> ms[a.name] == a.value)
    && Total(ms[a.name := a.value]) <= MAX_ARCHIVE
  }

  function PutAll(t: Tools, ms: Members, additions: seq<Addition>): Option<Members> {
    if additions == [] then Some(ms)
    else Put(t, PutAll(t, ms, additions[..|additions| - 1]), additions[|additions| - 1])
  }

  function After(t: Tools, ms: Members, plan: Plan): Option<Members> {
    if plan.None? then None else PutAll(t, ms, plan.value)
  }

  function Next(t: Tools, ms: Option<Members>, plan: Plan): Option<Members> {
    if ms.None? then None else After(t, ms.value, plan)
  }

  function Then(p: Plan, q: Plan): Plan {
    if p.None? || q.None? then None else Some(p.value + q.value)
  }

  function Joined(plans: seq<Plan>): Plan {
    if plans == [] then Some([]) else Then(Joined(plans[..|plans| - 1]), plans[|plans| - 1])
  }

  function Put(t: Tools, ms: Option<Members>, a: Addition): Option<Members> {
    if ms.None? || !Fits(t, ms.value, a) then None else Some(ms.value[a.name := a.value])
  }

  lemma {:induction false} PutAllConcat(t: Tools, ms: Members, a: seq<Addition>, b: seq<Addition>)
    ensures PutAll(t, ms, a + b) == if PutAll(t, ms, a).None? then None else PutAll(t, PutAll(t, ms, a).value, b)
  {
    if b == [] {
      assert a + b == a;
    } else {
      PutAllConcat(t, ms, a, b[..|b| - 1]);
      assert (a + b)[..|a + b| - 1] == a + b[..|b| - 1];
    }
  }

  lemma AfterThen(t: Tools, ms: Members, p: Plan, q: Plan)
    ensures After(t, ms, Then(p, q)) == Next(t, After(t, ms, p), q)
  {
    if p.Some? && q.Some? {
      PutAllConcat(t, ms, p.value, q.value);
    }
  }

  lemma JoinedStep(t: Tools, ms: Members, plans: seq<Plan>, n: nat)
    requires n < |plans|
    ensures After(t, ms, Joined(plans[..n + 1])) == Next(t, After(t, ms, Joined(plans[..n])), plans[n])
  {
    assert plans[..n + 1][..n] == plans[..n];
    AfterThen(t, ms, Joined(plans[..n]), plans[n]);
  }

  /** What has failed stays failed. */
  lemma {:induction false} JoinedFails(t: Tools, ms: Members, plans: seq<Plan>, n: nat)
    requires n <= |plans| && After(t, ms, Joined(plans[..n])).None?
    ensures After(t, ms, Joined(plans)).None?
    decreases |plans|
  {
    if n == |plans| {
      assert plans[..n] == plans;
    } else {
      var front := plans[..|plans| - 1];
      assert front[..n] == plans[..n];
      JoinedFails(t, ms, front, n);
      AfterThen(t, ms, Joined(front), plans[|plans| - 1]);
    }
  }

  /** What an addition leaves behind. */
  predicate Placed(t: Tools, ms: Members, a: Addition) {
    SafePath(a.name) && a.name in ms && ms[a.name] == a.value && Matches(t, a)
  }

  function AddedNames(additions: seq<Addition>): set<string> {
    set a | a in additions :: a.name
  }

  lemma PutAllFails(t: Tools, ms: Members, additions: seq<Addition>, n: nat)
    requires n <= |additions| && PutAll(t, ms, additions[..n]).None?
    ensures PutAll(t, ms, additions).None?
  {
    assert additions == additions[..n] + additions[n..];
    PutAllConcat(t, ms, additions[..n], additions[n..]);
  }

  lemma PutAllStep(t: Tools, ms: Members, additions: seq<Addition>, n: nat)
    requires n < |additions| && PutAll(t, ms, additions[..n]).Some?
    ensures
      var before, a := PutAll(t, ms, additions[..n]).value, additions[n];
      PutAll(t, ms, additions[..n + 1]) == if Fits(t, before, a) then Some(before[a.name := a.value]) else None
  {
    assert additions[..n + 1][..n] == additions[..n];
  }

  lemma {:induction false} PutAllExtends(t: Tools, ms: Members, additions: seq<Addition>)
    requires PutAll(t, ms, additions).Some?
    ensures Extends(ms, PutAll(t, ms, additions).value)
    ensures additions != [] ==> Total(PutAll(t, ms, additions).value) <= MAX_ARCHIVE
  {
    if additions != [] {
      PutAllExtends(t, ms, additions[..|additions| - 1]);
    }
  }

  lemma LastAddedName(additions: seq<Addition>)
    requires additions != []
    ensures AddedNames(additions) == AddedNames(additions[..|additions| - 1]) + {additions[|additions| - 1].name}
  {
    var front, a := additions[..|additions| - 1], additions[|additions| - 1];
    assert additions == front + [a];
    assert a in additions;
  }

  lemma PutKeys(t: Tools, ms: Members, a: Addition)
    requires Put(t, Some(ms), a).Some?
    ensures Put(t, Some(ms), a).value.Keys == ms.Keys + {a.name}
  {
  }

  lemma {:induction false} PutAllKeys(t: Tools, ms: Members, additions: seq<Addition>)
    requires PutAll(t, ms, additions).Some?
    ensures PutAll(t, ms, additions).value.Keys == ms.Keys + AddedNames(additions)
  {
    if additions != [] {
      var front, a := additions[..|additions| - 1], additions[|additions| - 1];
      PutAllKeys(t, ms, front);
      PutKeys(t, PutAll(t, ms, front).value, a);
      LastAddedName(additions);
    }
  }

  lemma {:induction false} PutAllPlaces(t: Tools, ms: Members, additions: seq<Addition>, a: Addition)
    requires PutAll(t, ms, additions).Some? && a in additions
    ensures Placed(t, PutAll(t, ms, additions).value, a)
  {
    var front := additions[..|additions| - 1];
    if a in front {
      PutAllPlaces(t, ms, front, a);
    } else {
      assert a == additions[|additions| - 1];
    }
  }

  /** Every addition is there afterwards, nothing that was there has changed, and nothing else has come in. */
  lemma PutAllExact(t: Tools, ms: Members, additions: seq<Addition>)
    requires PutAll(t, ms, additions).Some?
    ensures
      var after := PutAll(t, ms, additions).value;
      && Extends(ms, after)
      && after.Keys == ms.Keys + AddedNames(additions)
      && (forall a :: a in additions ==> Placed(t, after, a))
      && (additions != [] ==> Total(after) <= MAX_ARCHIVE)
  {
    PutAllExtends(t, ms, additions);
    PutAllKeys(t, ms, additions);
    forall a | a in additions ensures Placed(t, PutAll(t, ms, additions).value, a) {
      PutAllPlaces(t, ms, additions, a);
    }
  }

  // ---------------------------------------------------------------- the inputs

  /** What can be read for one request: `None` where a file is missing, too large or not regular. `inside` and
      `projects` say that the evidence lies in its directory and still yields this very request; `original` is a zip's
      digest in the evidence's own inventory. */
  datatype ZipFile = ZipFile(name: string, bytes: Option<Bytes>, original: Option<string>)

  datatype Files = Files(inside: bool, evidence: Option<Bytes>, projects: bool, receipt: Option<Bytes>,
                         zips: seq<ZipFile>)

  /** Everything outside the summary that packing reads: files by evidence source, all re-exports or `None` where one is
      too large or not regular, and pictures by test name. */
  datatype Inputs = Inputs(files: string -> Files, exports: Option<seq<Bytes>>, pictures: string -> Option<Bytes>)

  /** No file has a name with a NUL in it. */
  function ZipPlan(source: string, zip: ZipFile): Plan {
    if zip.bytes.None? || zip.original.None? || '\0' in zip.name then None
    else Some([Addition(BesideName(source, zip.name), zip.bytes.value, zip.original)])
  }

  function ZipPlans(source: string, zips: seq<ZipFile>): seq<Plan> {
    seq(|zips|, i requires 0 <= i < |zips| => ZipPlan(source, zips[i]))
  }

  function EvidencePlan(request: Request, files: Files): Plan {
    if !SafePath(request.source) || '\0' in request.source || !files.inside || files.evidence.None? || !files.projects
       || files.receipt.None?
    then None
    else Some([
      Addition(RawName(request.source), files.evidence.value, Some(request.evidence)),
      Addition(ReceiptName(request.source), files.receipt.value, Some(request.receipt))])
  }

  function Matching(t: Tools, exports: seq<Bytes>, digest: string): seq<Bytes> {
    if exports == [] then []
    else
      var last := exports[|exports| - 1];
      Matching(t, exports[..|exports| - 1], digest) + if Digest(t, last) == digest then [last] else []
  }

  function ExportName(digest: string): string {
    Join("private", Tail(digest) + ".zip")
  }

  /** The one re-export with the bound digest. */
  function ExportPlan(t: Tools, exports: Option<seq<Bytes>>, digest: string): Plan {
    if exports.None? || |Matching(t, exports.value, digest)| != 1 then None
    else
      var enriched := Matching(t, exports.value, digest);
      Some([Addition(ExportName(digest), enriched[0], Some(digest))])
  }

  function ImagePlan(pictures: string -> Option<Bytes>, m: Module): Plan {
    var pixels := pictures(m.testName);
    if pixels.None? || |pixels.value| > MAX_IMAGE || !(PNG_MAGIC <= pixels.value) || !IsDigest(m.screenshot) then None
    else Some([Addition(ImageName(m), pixels.value, Some(m.screenshot))])
  }

  function ImagePlans(pictures: string -> Option<Bytes>, modules: seq<Module>): seq<Plan> {
    seq(|modules|, i requires 0 <= i < |modules| => ImagePlan(pictures, modules[i]))
  }

  function RequestPlan(t: Tools, request: Request, inputs: Inputs): Plan {
    var files := inputs.files(request.source);
    Then(Then(Then(EvidencePlan(request, files), Joined(ZipPlans(request.source, files.zips))),
              ExportPlan(t, inputs.exports, request.export_)),
         Joined(ImagePlans(inputs.pictures, request.modules)))
  }

  function RequestPlans(t: Tools, requests: seq<Request>, inputs: Inputs): seq<Plan> {
    seq(|requests|, i requires 0 <= i < |requests| => RequestPlan(t, requests[i], inputs))
  }

  /** The members that the inputs lead to, if they lead to any. */
  function Contents(t: Tools, summaryBytes: Bytes, requests: seq<Request>, inputs: Inputs): Option<Members> {
    if inputs.exports.None? then None
    else After(t, map[], Then(Some([Addition(SUMMARY, summaryBytes, None)]), Joined(RequestPlans(t, requests, inputs))))
  }

  // ---------------------------------------------------------------- the packing loops

  class Packing {
    const tools: Tools
    var members: Members

    constructor (tools: Tools)
      ensures this.tools == tools && members == map[]
    {
      this.tools := tools;
      members := map[];
    }

    /** Enters a member, unless its name, digest, a conflicting member or the size limit forbids it. */
    method Add(a: Addition) returns (ok: bool)
      modifies this
      ensures ok <==> Fits(tools, old(members), a)
      ensures ok ==> members == old(members)[a.name := a.value] && Extends(old(members), members)
    {
      if !SafePath(a.name) || (a.expected.Some? && Digest(tools, a.value) != a.expected.value) {
        return false;
      }
      if a.name in members && members[a.name] != a.value {
        return false;
      }
      members := members[a.name := a.value];
      return Total(members) <= MAX_ARCHIVE;
    }

    method AddAll(additions: seq<Addition>) returns (ok: bool)
      modifies this
      ensures PutAll(tools, old(members), additions) == if ok then Some(members) else None
    {
      var i := 0;
      while i < |additions|
        invariant 0 <= i <= |additions|
        invariant PutAll(tools, old(members), additions[..i]) == Some(members)
      {
        PutAllStep(tools, old(members), additions, i);
        var added := Add(additions[i]);
        if !added {
          PutAllFails(tools, old(members), additions, i + 1);
          return false;
        }
        i := i + 1;
      }
      assert additions[..i] == additions;
      return true;
    }

    /** A step whose inputs may be missing. */
    method AddPlan(plan: Plan) returns (ok: bool)
      modifies this
      ensures After(tools, old(members), plan) == if ok then Some(members) else None
    {
      if plan.None? {
        return false;
      }
      ok := AddAll(plan.value);
    }

    method AddZip(source: string, zip: ZipFile) returns (ok: bool)
      modifies this
      ensures After(tools, old(members), ZipPlan(source, zip)) == if ok then Some(members) else None
    {
      if zip.bytes.None? || zip.original.None? || '\0' in zip.name {
        return false;
      }
      ok := AddAll([Addition(BesideName(source, zip.name), zip.bytes.value, zip.original)]);
    }

    method AddImage(pictures: string -> Option<Bytes>, m: Module) returns (ok: bool)
      modifies this
      ensures After(tools, old(members), ImagePlan(pictures, m)) == if ok then Some(members) else None
    {
      var pixels := pictures(m.testName);
      if pixels.None? || |pixels.value| > 500 * 1024 || !(PNG_MAGIC <= pixels.value) || !IsDigest(m.screenshot) {
        return false;
      }
      ok := AddAll([Addition(ImageName(m), pixels.value, Some(m.screenshot))]);
    }

    method AddEvidence(request: Request, files: Files) returns (ok: bool)
      modifies this
      ensures After(tools, old(members), EvidencePlan(request, files)) == if ok then Some(members) else None
    {
      if !SafePath(request.source) || '\0' in request.source || !files.inside || files.evidence.None?
         || !files.projects || files.receipt.None?
      {
        return false;
      }
      ok := AddAll([
        Addition(RawName(request.source), files.evidence.value, Some(request.evidence)),
        Addition(ReceiptName(request.source), files.receipt.value, Some(request.receipt))]);
    }

    method AddZips(source: string, zips: seq<ZipFile>) returns (ok: bool)
      modifies this
      ensures After(tools, old(members), Joined(ZipPlans(source, zips))) == if ok then Some(members) else None
    {
      ghost var plans := ZipPlans(source, zips);
      var i := 0;
      while i < |zips|
        invariant 0 <= i <= |zips|
        invariant After(tools, old(members), Joined(plans[..i])) == Some(members)
      {
        JoinedStep(tools, old(members), plans, i);
        var added := AddZip(source, zips[i]);
        if !added {
          JoinedFails(tools, old(members), plans, i + 1);
          return false;
        }
        i := i + 1;
      }
      assert plans[..i] == plans;
      return true;
    }

    method AddImages(pictures: string -> Option<Bytes>, modules: seq<Module>) returns (ok: bool)
      modifies this
      ensures After(tools, old(members), Joined(ImagePlans(pictures, modules))) == if ok then Some(members) else None
    {
      ghost var plans := ImagePlans(pictures, modules);
      var i := 0;
      while i < |modules|
        invariant 0 <= i <= |modules|
        invariant After(tools, old(members), Joined(plans[..i])) == Some(members)
      {
        JoinedStep(tools, old(members), plans, i);
        var added := AddImage(pictures, modules[i]);
        if !added {
          JoinedFails(tools, old(members), plans, i + 1);
          return false;
        }
        i := i + 1;
      }
      assert plans[..i] == plans;
      return true;
    }

    /** Evidence and receipt, original exports, the one re-export, and the pictures. */
    method AddRequest(request: Request, inputs: Inputs) returns (ok: bool)
      modifies this
      ensures After(tools, old(members), RequestPlan(tools, request, inputs)) == if ok then Some(members) else None
    {
      var files := inputs.files(request.source);
      RequestSteps(tools, members, request, inputs);
      ok := AddEvidence(request, files);
      if !ok {
        return;
      }
      ok := AddZips(request.source, files.zips);
      if !ok {
        return;
      }
      var enriched := UniqueExport(tools, inputs.exports, request.export_);
      ok := AddPlan(enriched);
      if !ok {
        return;
      }
      ok := AddImages(inputs.pictures, request.modules);
    }

    /** The loop over requests. */
    method AddRequests(requests: seq<Request>, inputs: Inputs) returns (ok: bool)
      modifies this
      ensures After(tools, old(members), Joined(RequestPlans(tools, requests, inputs)))
           == if ok then Some(members) else None
    {
      ghost var plans := RequestPlans(tools, requests, inputs);
      var i := 0;
      while i < |requests|
        invariant 0 <= i <= |requests|
        invariant After(tools, old(members), Joined(plans[..i])) == Some(members)
      {
        JoinedStep(tools, old(members), plans, i);
        var added := AddRequest(requests[i], inputs);
        if !added {
          JoinedFails(tools, old(members), plans, i + 1);
          return false;
        }
        i := i + 1;
      }
      assert plans[..i] == plans;
      return true;
    }
  }

  /** The name of a picture, and that of a re-export. */
  lemma HashNames(hex: string, testName: string)
    ensures ImageName(Module(testName, "sha256:" + hex)) == "images/" + hex + ".png"
    ensures ExportName("sha256:" + hex) == "private/" + hex + ".zip"
  {
    assert ("sha256:" + hex)[7..] == hex;
    assert "images" + "/" + (hex + ".png") == "images/" + hex + ".png";
    assert "private" + "/" + (hex + ".zip") == "private/" + hex + ".zip";
  }

  lemma DigestExact(s: string)
    ensures IsDigest(s) <==>
      |s| == 71 && s[..7] == "sha256:" && forall i :: 7 <= i < 71 ==> s[i] in DIGITS + "abcdef"
  {
    forall i | 0 <= i < |s| ensures '0' <= s[i] <= '9' || 'a' <= s[i] <= 'f' <==> s[i] in DIGITS + "abcdef" {
      HexExact(s[i]);
    }
  }

  lemma HexExact(c: char)
    ensures '0' <= c <= '9' || 'a' <= c <= 'f' <==> c in DIGITS + "abcdef"
  {
    Alphabet(c);
    if 'a' <= c <= 'f' {
      assert "abcdef"[c as int - 'a' as int] == c;
    }
  }

  /** The magic of age is its text and a line feed. */
  lemma AgeHeaderExact(i: nat)
    requires i < 22
    ensures |AGE_HEADER| == 22 && AGE_HEADER[i] == "age-encryption.org/v1\n"[i] as int
  {
  }

  /** Lengths add up. */
  lemma {:induction false} SumConcat(a: seq<(string, Bytes)>, b: seq<(string, Bytes)>)
    ensures SumLengths(a + b) == SumLengths(a) + SumLengths(b)
    ensures |b| == 1 ==> SumLengths(b) == |b[0].1|
    decreases |b|
  {
    if b == [] {
      assert a + b == a;
    } else {
      assert (a + b)[..|a + b| - 1] == a + b[..|b| - 1];
      SumConcat(a, b[..|b| - 1]);
    }
  }

  lemma RequestSteps(t: Tools, ms: Members, request: Request, inputs: Inputs)
    ensures
      var files := inputs.files(request.source);
      var evidence := After(t, ms, EvidencePlan(request, files));
      var zips := Next(t, evidence, Joined(ZipPlans(request.source, files.zips)));
      var reexport := Next(t, zips, ExportPlan(t, inputs.exports, request.export_));
      After(t, ms, RequestPlan(t, request, inputs))
        == Next(t, reexport, Joined(ImagePlans(inputs.pictures, request.modules)))
  {
    var files := inputs.files(request.source);
    var evidence, zips := EvidencePlan(request, files), Joined(ZipPlans(request.source, files.zips));
    var reexport := ExportPlan(t, inputs.exports, request.export_);
    var images := Joined(ImagePlans(inputs.pictures, request.modules));
    AfterThen(t, ms, Then(Then(evidence, zips), reexport), images);
    AfterThen(t, ms, Then(evidence, zips), reexport);
    AfterThen(t, ms, evidence, zips);
  }

  /** Looks through every export; two that match are as bad as none. */
  method UniqueExport(t: Tools, exports: Option<seq<Bytes>>, digest: string) returns (plan: Plan)
    ensures plan == ExportPlan(t, exports, digest)
  {
    if exports.None? {
      return None;
    }
    var all := exports.value;
    var enriched: seq<Bytes> := [];
    var i := 0;
    while i < |all|
      invariant 0 <= i <= |all|
      invariant enriched == Matching(t, all[..i], digest)
    {
      assert all[..i + 1][..i] == all[..i];
      if Digest(t, all[i]) == digest {
        enriched := enriched + [all[i]];
      }
      i := i + 1;
    }
    assert all[..i] == all;
    if |enriched| != 1 {
      return None;
    }
    return Some([Addition(ExportName(digest), enriched[0], Some(digest))]);
  }

  // ---------------------------------------------------------------- what has been packed

  /** An addition under a name that is not the manifest's and, once its digest has matched, holds no NUL; a `sheltered`
      one is safe as well. */
  predicate OrdinaryName(t: Tools, sheltered: bool, a: Addition) {
    && a.name != "" && a.name[0] in "ripr"
    && (Matches(t, a) ==> '\0' !in a.name && (sheltered ==> SafePath(a.name)))
  }

  predicate Ordinary(t: Tools, sheltered: bool, plan: Plan) {
    plan.Some? ==> forall a :: a in plan.value ==> OrdinaryName(t, sheltered, a)
  }

  /** The evidence lies in a directory, and the exports beside it are plainly named. */
  predicate Sheltered(request: Request, files: Files) {
    '/' in request.source && forall i :: 0 <= i < |files.zips| ==> PlainName(files.zips[i].name)
  }

  lemma {:induction false} JoinedOrdinary(t: Tools, sheltered: bool, plans: seq<Plan>)
    requires forall i :: 0 <= i < |plans| ==> Ordinary(t, sheltered, plans[i])
    ensures Ordinary(t, sheltered, Joined(plans))
  {
    if plans != [] {
      JoinedOrdinary(t, sheltered, plans[..|plans| - 1]);
    }
  }

  lemma HexTail(digest: string)
    requires IsDigest(digest)
    ensures IsHex64(Tail(digest))
  {
    assert forall i :: 0 <= i < 64 ==> Tail(digest)[i] == digest[i + 7];
  }

  lemma HexDigest(t: Tools, value: Bytes)
    requires HexHash(t)
    ensures IsDigest(Digest(t, value))
  {
    assert IsHex64(t.hash(value));
    assert forall i :: 7 <= i < 71 ==> Digest(t, value)[i] == t.hash(value)[i - 7];
  }

  /** A file named by a digest has a safe and storable name. */
  lemma HexName(directory: string, digest: string, extension: string)
    requires IsDigest(digest) && PlainName(directory) && '\0' !in directory
    requires PlainCharacters(extension) && '/' !in extension && '\0' !in extension
    ensures Storable(Join(directory, Tail(digest) + extension))
  {
    var file := Tail(digest) + extension;
    HexTail(digest);
    assert forall i :: 0 <= i < |file| ==> file[i] == if i < 64 then Tail(digest)[i] else extension[i - 64];
    SinglePart(file);
    SafeJoin(directory, file);
    JoinCharacters(directory, file, '\0');
  }

  lemma ImageOrdinary(t: Tools, sheltered: bool, pictures: string -> Option<Bytes>, m: Module)
    ensures Ordinary(t, sheltered, ImagePlan(pictures, m))
  {
    if ImagePlan(pictures, m).Some? {
      SinglePart("images");
      HexName("images", m.screenshot, ".png");
    }
  }

  lemma ExportOrdinary(t: Tools, sheltered: bool, exports: Option<seq<Bytes>>, digest: string)
    requires HexHash(t)
    ensures Ordinary(t, sheltered, ExportPlan(t, exports, digest))
  {
    if ExportPlan(t, exports, digest).Some? {
      var a := ExportPlan(t, exports, digest).value[0];
      if Matches(t, a) {
        HexDigest(t, a.value);
        ExportStorable(digest);
      }
      assert OrdinaryName(t, sheltered, a);
    }
  }

  lemma ExportStorable(digest: string)
    requires IsDigest(digest)
    ensures Storable(ExportName(digest))
  {
    SinglePart("private");
    HexName("private", digest, ".zip");
  }

  lemma ZipOrdinary(t: Tools, sheltered: bool, request: Request, files: Files, zip: ZipFile)
    requires EvidencePlan(request, files).Some? && (sheltered ==> '/' in request.source && PlainName(zip.name))
    ensures Ordinary(t, sheltered, ZipPlan(request.source, zip))
  {
    if ZipPlan(request.source, zip).Some? {
      NoNul(request.source, zip.name);
      if sheltered {
        BesideExact(request.source, zip.name);
      }
    }
  }

  lemma EvidenceOrdinary(t: Tools, sheltered: bool, request: Request, files: Files)
    requires sheltered ==> '/' in request.source
    ensures Ordinary(t, sheltered, EvidencePlan(request, files))
  {
    var plan := EvidencePlan(request, files);
    if plan.Some? {
      EvidenceNames(t, sheltered, request.source, plan.value[0], plan.value[1]);
    }
  }

  lemma EvidenceNames(t: Tools, sheltered: bool, source: string, raw: Addition, receipt: Addition)
    requires SafePath(source) && '\0' !in source && (sheltered ==> '/' in source)
    requires raw.name == RawName(source) && receipt.name == ReceiptName(source)
    ensures OrdinaryName(t, sheltered, raw) && OrdinaryName(t, sheltered, receipt)
  {
    NoNul(source, CAPTURE_RECEIPT);
    if sheltered {
      SafeEvidence(source);
    }
  }

  lemma SafeEvidence(source: string)
    requires SafePath(source) && '/' in source
    ensures SafePath(RawName(source)) && SafePath(ReceiptName(source))
  {
    RawExact(source);
    ReceiptExact(source);
  }

  lemma ThenOrdinary(t: Tools, sheltered: bool, p: Plan, q: Plan)
    requires Ordinary(t, sheltered, p) && Ordinary(t, sheltered, q)
    ensures Ordinary(t, sheltered, Then(p, q))
  {
  }

  lemma RequestOrdinary(t: Tools, sheltered: bool, request: Request, inputs: Inputs)
    requires HexHash(t) && (sheltered ==> Sheltered(request, inputs.files(request.source)))
    ensures Ordinary(t, sheltered, RequestPlan(t, request, inputs))
  {
    var files := inputs.files(request.source);
    var zips, images := ZipPlans(request.source, files.zips), ImagePlans(inputs.pictures, request.modules);
    var evidence, reexport := EvidencePlan(request, files), ExportPlan(t, inputs.exports, request.export_);
    if evidence.Some? {
      forall i | 0 <= i < |zips| ensures Ordinary(t, sheltered, zips[i]) {
        ZipOrdinary(t, sheltered, request, files, files.zips[i]);
      }
      forall i | 0 <= i < |images| ensures Ordinary(t, sheltered, images[i]) {
        ImageOrdinary(t, sheltered, inputs.pictures, request.modules[i]);
      }
      JoinedOrdinary(t, sheltered, zips);
      JoinedOrdinary(t, sheltered, images);
      EvidenceOrdinary(t, sheltered, request, files);
      ExportOrdinary(t, sheltered, inputs.exports, request.export_);
      ThenOrdinary(t, sheltered, evidence, Joined(zips));
      ThenOrdinary(t, sheltered, Then(evidence, Joined(zips)), reexport);
      ThenOrdinary(t, sheltered, Then(Then(evidence, Joined(zips)), reexport), Joined(images));
    }
  }

  /** Every addition of a plan has been placed. */
  ghost predicate PlanPlaced(t: Tools, ms: Members, plan: Plan) {
    plan.Some? && forall a :: a in plan.value ==> Placed(t, ms, a)
  }

  lemma ThenPlaced(t: Tools, ms: Members, p: Plan, q: Plan)
    requires PlanPlaced(t, ms, Then(p, q))
    ensures PlanPlaced(t, ms, p) && PlanPlaced(t, ms, q)
  {
    var both := Then(p, q).value;
    assert forall a :: a in p.value || a in q.value ==> a in both;
  }

  lemma {:induction false} JoinedPlaced(t: Tools, ms: Members, plans: seq<Plan>, i: nat)
    requires PlanPlaced(t, ms, Joined(plans)) && i < |plans|
    ensures PlanPlaced(t, ms, plans[i])
  {
    ThenPlaced(t, ms, Joined(plans[..|plans| - 1]), plans[|plans| - 1]);
    if i < |plans| - 1 {
      JoinedPlaced(t, ms, plans[..|plans| - 1], i);
    }
  }

  lemma PartsPlaced(t: Tools, ms: Members, request: Request, inputs: Inputs)
    requires PlanPlaced(t, ms, RequestPlan(t, request, inputs))
    ensures PlanPlaced(t, ms, EvidencePlan(request, inputs.files(request.source)))
    ensures PlanPlaced(t, ms, Joined(ZipPlans(request.source, inputs.files(request.source).zips)))
    ensures PlanPlaced(t, ms, ExportPlan(t, inputs.exports, request.export_))
    ensures PlanPlaced(t, ms, Joined(ImagePlans(inputs.pictures, request.modules)))
  {
    var files := inputs.files(request.source);
    var evidence, zips := EvidencePlan(request, files), Joined(ZipPlans(request.source, files.zips));
    var reexport := ExportPlan(t, inputs.exports, request.export_);
    var images := Joined(ImagePlans(inputs.pictures, request.modules));
    ThenPlaced(t, ms, Then(Then(evidence, zips), reexport), images);
    ThenPlaced(t, ms, Then(evidence, zips), reexport);
    ThenPlaced(t, ms, evidence, zips);
  }

  /** Packing that succeeds holds the summary, keeps every name safe and the manifest's free, and stays in its limit. */
  lemma ContentsPacked(t: Tools, summaryBytes: Bytes, requests: seq<Request>, inputs: Inputs)
    requires HexHash(t) && Contents(t, summaryBytes, requests, inputs).Some?
    ensures Packed(Contents(t, summaryBytes, requests, inputs).value, summaryBytes)
  {
    RequestsOrdinary(t, false, requests, inputs);
    ReservedNames();
    FirstPacked(t, SUMMARY, summaryBytes, MANIFEST, Joined(RequestPlans(t, requests, inputs)));
  }

  /** The summary's name holds no NUL, and no request names the manifest. */
  lemma ReservedNames()
    ensures '\0' !in SUMMARY && Reserved(MANIFEST) && MANIFEST != SUMMARY
  {
    assert MANIFEST[0] == 'm' && SUMMARY[0] == 's';
  }

  predicate Reserved(name: string) {
    name != "" && name[0] !in "ripr"
  }

  lemma FirstPacked(t: Tools, name: string, data: Bytes, other: string, plan: Plan)
    requires '\0' !in name && Reserved(other) && other != name && Ordinary(t, false, plan)
    requires After(t, map[], Then(Some([Addition(name, data, None)]), plan)).Some?
    ensures PackedWithout(After(t, map[], Then(Some([Addition(name, data, None)]), plan)).value, name, data, other)
  {
    var additions := [Addition(name, data, None)] + plan.value;
    var ms := PutAll(t, map[], additions).value;
    assert additions[1..] == plan.value;
    PutAllExact(t, map[], additions);
    assert Placed(t, ms, additions[0]);
    NotAdded(t, other, additions);
    AdditionsStorable(t, ms, additions);
  }

  lemma AdditionsStorable(t: Tools, ms: Members, additions: seq<Addition>)
    requires additions != [] && '\0' !in additions[0].name && Ordinary(t, false, Some(additions[1..]))
    requires ms.Keys == AddedNames(additions) && forall a :: a in additions ==> Placed(t, ms, a)
    ensures AllStorable(ms)
  {
    forall name | name in ms ensures Storable(name) {
      var a :| a in additions && a.name == name;
      AdditionStorable(t, ms, additions, a);
    }
  }

  lemma AdditionStorable(t: Tools, ms: Members, additions: seq<Addition>, a: Addition)
    requires additions != [] && '\0' !in additions[0].name && Ordinary(t, false, Some(additions[1..]))
    requires a in additions && Placed(t, ms, a)
    ensures Storable(a.name)
  {
    if a != additions[0] {
      assert a in additions[1..];
    }
  }

  lemma RequestsOrdinary(t: Tools, sheltered: bool, requests: seq<Request>, inputs: Inputs)
    requires HexHash(t) && (sheltered ==> AllSheltered(requests, inputs))
    ensures Ordinary(t, sheltered, Joined(RequestPlans(t, requests, inputs)))
  {
    var plans := RequestPlans(t, requests, inputs);
    forall i | 0 <= i < |plans| ensures Ordinary(t, sheltered, plans[i]) {
      RequestOrdinary(t, sheltered, requests[i], inputs);
    }
    JoinedOrdinary(t, sheltered, plans);
  }

  predicate AllSheltered(requests: seq<Request>, inputs: Inputs) {
    forall r :: 0 <= r < |requests| ==> Sheltered(requests[r], inputs.files(requests[r].source))
  }

  lemma NotAdded(t: Tools, name: string, additions: seq<Addition>)
    requires Reserved(name)
    requires additions != [] && name != additions[0].name && Ordinary(t, false, Some(additions[1..]))
    ensures name !in AddedNames(additions)
  {
    assert forall a :: a in additions ==> a == additions[0] || a in additions[1..];
  }

  /** Every file that a request binds is packed under its own name with the bytes that were read for it. */
  lemma RequestPlaced(t: Tools, summaryBytes: Bytes, requests: seq<Request>, inputs: Inputs, r: nat)
    requires Contents(t, summaryBytes, requests, inputs).Some? && r < |requests|
    ensures PlanPlaced(t, Contents(t, summaryBytes, requests, inputs).value, RequestPlan(t, requests[r], inputs))
  {
    var plans, ms := RequestPlans(t, requests, inputs), Contents(t, summaryBytes, requests, inputs).value;
    var summaryFirst := [Addition(SUMMARY, summaryBytes, None)];
    PutAllExact(t, map[], summaryFirst + Joined(plans).value);
    ThenPlaced(t, ms, Some(summaryFirst), Joined(plans));
    JoinedPlaced(t, ms, plans, r);
  }

  lemma ModulePlaced(t: Tools, ms: Members, request: Request, inputs: Inputs, i: nat)
    requires PlanPlaced(t, ms, RequestPlan(t, request, inputs)) && i < |request.modules|
    ensures ImageBound(t, ms, request.modules[i])
  {
    PartsPlaced(t, ms, request, inputs);
    JoinedPlaced(t, ms, ImagePlans(inputs.pictures, request.modules), i);
    var plan := ImagePlan(inputs.pictures, request.modules[i]);
    assert plan.value[0] in plan.value;
  }

  /** Every module's picture is packed under its digest. */
  lemma ContentsBound(t: Tools, summaryBytes: Bytes, requests: seq<Request>, inputs: Inputs)
    requires Contents(t, summaryBytes, requests, inputs).Some?
    ensures AllBound(t, Contents(t, summaryBytes, requests, inputs).value, requests)
  {
    var ms := Contents(t, summaryBytes, requests, inputs).value;
    forall r | 0 <= r < |requests| ensures AllImages(t, ms, requests[r].modules) {
      RequestPlaced(t, summaryBytes, requests, inputs, r);
      forall i | 0 <= i < |requests[r].modules| ensures ImageBound(t, ms, requests[r].modules[i]) {
        ModulePlaced(t, ms, requests[r], inputs, i);
      }
    }
  }

  predicate Mentions(plan: Plan, name: string) {
    plan.Some? && name in AddedNames(plan.value)
  }

  /** Nothing is packed but the summary and what the requests name. */
  lemma ContentsOnly(t: Tools, summaryBytes: Bytes, requests: seq<Request>, inputs: Inputs, name: string)
    requires Contents(t, summaryBytes, requests, inputs).Some?
    requires name in Contents(t, summaryBytes, requests, inputs).value && name != SUMMARY
    ensures exists r :: 0 <= r < |requests| && Mentions(RequestPlan(t, requests[r], inputs), name)
  {
    var plans := RequestPlans(t, requests, inputs);
    var summaryFirst := [Addition(SUMMARY, summaryBytes, None)];
    PutAllKeys(t, map[], summaryFirst + Joined(plans).value);
    var a :| a in summaryFirst + Joined(plans).value && a.name == name;
    assert a in Joined(plans).value;
    var r := JoinedFrom(plans, a);
    MentionedBy(plans[r], a);
    assert plans[r] == RequestPlan(t, requests[r], inputs);
  }

  lemma MentionedBy(plan: Plan, a: Addition)
    requires plan.Some? && a in plan.value
    ensures Mentions(plan, a.name)
  {
  }

  lemma {:induction false} JoinedFrom(plans: seq<Plan>, a: Addition) returns (i: nat)
    requires Joined(plans).Some? && a in Joined(plans).value
    ensures i < |plans| && plans[i].Some? && a in plans[i].value
  {
    i := |plans| - 1;
    if a !in plans[i].value {
      i := JoinedFrom(plans[..|plans| - 1], a);
    }
  }

  // ---------------------------------------------------------------- the delivery

  function Table(t: Tools, ms: Members): MemberTable {
    map name | name in ms :: (Digest(t, ms[name]), |ms[name]|)
  }

  function CountModules(requests: seq<Request>): nat {
    if requests == [] then 0 else CountModules(requests[..|requests| - 1]) + |requests[|requests| - 1].modules|
  }

  /** The packed members with their manifest. */
  function Payloads(t: Tools, manifest: Manifest, ms: Members): Members {
    ms[MANIFEST := t.dumpManifest(manifest)]
  }

  function ManifestOf(t: Tools, summaryBytes: Bytes, summary: Summary, ms: Members, executionId: string, attempt: int,
                      scope: Scope): Manifest {
    Manifest(executionId, attempt, summary.lane, scope, Digest(t, summaryBytes), summary.requests, Table(t, ms))
  }

  /** A ciphertext and receipt that `Encrypt` makes out of members `ms`. */
  ghost predicate Delivered(t: Tools, summaryBytes: Bytes, summary: Summary, ms: Members, manifest: Manifest,
                            receipt: Receipt, ciphertext: Bytes) {
    && Packed(ms, summaryBytes) && AllBound(t, ms, summary.requests)
    && manifest == ManifestOf(t, summaryBytes, summary, ms, receipt.executionId, receipt.attempt, receipt.scope)
    && (summary.local.Some? ==> manifest.scope.LocalDeveloperFeedback?)
    && |t.writeTar(Items(Payloads(t, manifest, ms)))| <= MAX_ARCHIVE
    && t.seal(t.writeTar(Items(Payloads(t, manifest, ms)))) == Some(ciphertext)
    && Sealable(ciphertext)
    && receipt.lane == summary.lane && receipt.summaryDigest == Digest(t, summaryBytes)
    && receipt.ciphertextDigest == Digest(t, ciphertext) && receipt.ciphertextBytes == |ciphertext|
    && receipt.imageCount == CountModules(summary.requests)
  }

  /** The ciphertext of the members with their manifest, unless it is too large or not in age's own format. */
  function Sealed(t: Tools, manifest: Manifest, ms: Members): Option<Bytes> {
    var archive := t.writeTar(Items(Payloads(t, manifest, ms)));
    if |archive| > MAX_ARCHIVE then None
    else
      var ciphertext := t.seal(archive);
      if ciphertext.None? || !Sealable(ciphertext.value) then None
      else ciphertext
  }

  /** Who asks for a delivery: the run, whether recipient and run identifiers are well formed, and whether the run is a
      trusted one on main. */
  datatype Origin = Origin(executionId: string, attempt: int, wellFormed: bool, trustedActions: bool)

  /** Only a trusted run on main may call its delivery official, and never a local one. */
  function DeliveryScope(summary: Summary, origin: Origin): Option<Scope> {
    if summary.local.Some? && (summary.local.value.runId != origin.executionId || !summary.local.value.disclaims)
    then None
    else Some(if summary.local.None? && origin.trustedActions then OfficialRunReviewOnly else LocalDeveloperFeedback)
  }

  predicate Admitted(summary: Summary, origin: Origin) {
    origin.wellFormed && origin.attempt > 0 && DeliveryScope(summary, origin).Some?
  }

  datatype Delivery = NoReviewInputs | Encrypted(receipt: Receipt, ciphertext: Bytes) | Failed

  /** The manifest that goes with packed contents. */
  function ManifestFor(t: Tools, summaryBytes: Bytes, summary: Summary, origin: Origin, ms: Members): Manifest
    requires Admitted(summary, origin)
  {
    ManifestOf(t, summaryBytes, summary, ms, origin.executionId, origin.attempt, DeliveryScope(summary, origin).value)
  }

  /** A delivery is made exactly when the origin is admitted, there is something to review, the destination is free,
      everything packs and the result can be sealed; it then carries just the packed contents. */
  method Encrypt(t: Tools, summaryBytes: Bytes, summary: Summary, origin: Origin, destinationFree: bool, inputs: Inputs)
    returns (r: Delivery)
    requires HexHash(t)
    ensures r.NoReviewInputs? <==> Admitted(summary, origin) && summary.requests == []
    ensures
      var contents := Contents(t, summaryBytes, summary.requests, inputs);
      && (r.Encrypted? <==>
            && Admitted(summary, origin) && summary.requests != [] && destinationFree && contents.Some?
            && Sealed(t, ManifestFor(t, summaryBytes, summary, origin, contents.value), contents.value).Some?)
      && (r.Encrypted? ==>
            Delivered(t, summaryBytes, summary, contents.value,
                      ManifestFor(t, summaryBytes, summary, origin, contents.value), r.receipt, r.ciphertext))
  {
    if !origin.wellFormed || origin.attempt <= 0 {
      return Failed;
    }
    if summary.local.Some? && (summary.local.value.runId != origin.executionId || !summary.local.value.disclaims) {
      return Failed;
    }
    var scope :=
      if summary.local.None? && origin.trustedActions then OfficialRunReviewOnly else LocalDeveloperFeedback;
    if summary.requests == [] {
      return NoReviewInputs;
    }
    if !destinationFree {
      return Failed;
    }
    var members := PackAll(t, summaryBytes, summary.requests, inputs);
    if members.None? {
      return Failed;
    }
    r := SealMembers(t, summaryBytes, summary, origin, scope, members.value);
  }

  /** The summary first, and then every request. */
  method PackAll(t: Tools, summaryBytes: Bytes, requests: seq<Request>, inputs: Inputs) returns (ms: Option<Members>)
    requires HexHash(t)
    ensures ms == Contents(t, summaryBytes, requests, inputs)
    ensures ms.Some? ==> Packed(ms.value, summaryBytes) && AllBound(t, ms.value, requests)
  {
    var summaryFirst := Addition(SUMMARY, summaryBytes, None);
    AfterThen(t, map[], Some([summaryFirst]), Joined(RequestPlans(t, requests, inputs)));
    var packing := new Packing(t);
    var ok := packing.AddPlan(Some([summaryFirst]));
    if !ok || inputs.exports.None? {
      return None;
    }
    ok := packing.AddRequests(requests, inputs);
    if !ok {
      return None;
    }
    ContentsPacked(t, summaryBytes, requests, inputs);
    ContentsBound(t, summaryBytes, requests, inputs);
    return Some(packing.members);
  }

  method MakeManifest(t: Tools, summaryBytes: Bytes, summary: Summary, origin: Origin, scope: Scope, ms: Members)
    returns (manifest: Manifest)
    requires Admitted(summary, origin) && DeliveryScope(summary, origin) == Some(scope)
    ensures manifest == ManifestFor(t, summaryBytes, summary, origin, ms)
  {
    return Manifest(origin.executionId, origin.attempt, summary.lane, scope, Digest(t, summaryBytes),
                    summary.requests, map name | name in ms :: (Digest(t, ms[name]), |ms[name]|));
  }

  method IsNativeAge(ciphertext: Bytes) returns (ok: bool)
    ensures ok <==> Sealable(ciphertext)
  {
    return |ciphertext| <= MAX_ARCHIVE + 1024 * 1024 && AGE_HEADER <= ciphertext;
  }

  /** Manifest, archive, encryption and receipt. */
  method SealMembers(t: Tools, summaryBytes: Bytes, summary: Summary, origin: Origin, scope: Scope, ms: Members)
    returns (r: Delivery)
    requires Packed(ms, summaryBytes) && AllBound(t, ms, summary.requests) && Admitted(summary, origin)
    requires DeliveryScope(summary, origin) == Some(scope)
    ensures
      var manifest := ManifestFor(t, summaryBytes, summary, origin, ms);
      && (if Sealed(t, manifest, ms).Some? then r.Encrypted? else r.Failed?)
      && (r.Encrypted? ==> Delivered(t, summaryBytes, summary, ms, manifest, r.receipt, r.ciphertext))
  {
    var manifest := MakeManifest(t, summaryBytes, summary, origin, scope, ms);
    var archive := t.writeTar(Items(ms[MANIFEST := t.dumpManifest(manifest)]));
    if |archive| > MAX_ARCHIVE {
      assert Sealed(t, manifest, ms).None?;
      return Failed;
    }
    var ciphertext := t.seal(archive);
    assert Sealed(t, manifest, ms) == if ciphertext.Some? && Sealable(ciphertext.value) then ciphertext else None;
    if ciphertext.None? {
      return Failed;
    }
    var native := IsNativeAge(ciphertext.value);
    if !native {
      return Failed;
    }
    var receipt := Receipt(manifest.scope, origin.executionId, origin.attempt, summary.lane, Digest(t, summaryBytes),
                           Digest(t, ciphertext.value), |ciphertext.value|, CountModules(summary.requests));
    return Encrypted(receipt, ciphertext.value);
  }
}

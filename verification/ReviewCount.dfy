/** Packing has no limit on the number of members, which opening has: inputs for any number of them, and a delivery with
    more than can be opened. */
module ReviewCount {
  import opened Bytes
  import opened Text
  import opened ReviewDelivery
  import opened ReviewNames
  import opened ReviewOpening
  import opened ReviewPaths

  function Zs(n: nat): (name: string)
    ensures |name| == n && forall i :: 0 <= i < n ==> name[i] == 'z'
  {
    seq(n, _ => 'z')
  }

  /** An empty file beside the evidence, listed in it. */
  function EmptyZip(t: Tools, k: nat): ZipFile {
    ZipFile(Zs(k + 1), Some([]), Some(Digest(t, [])))
  }

  function EmptyZips(t: Tools, n: nat): (zips: seq<ZipFile>)
    ensures |zips| == n && forall k :: 0 <= k < n ==> zips[k] == EmptyZip(t, k)
  {
    seq(n, k requires 0 <= k < n => EmptyZip(t, k))
  }

  function EmptyName(source: string, k: nat): string {
    BesideName(source, Zs(k + 1))
  }

  function OneModule(t: Tools): Module {
    Module("module", Digest(t, PNG_MAGIC))
  }

  /** One module whose picture is bound, and nothing but empty files otherwise. */
  function OneRequest(t: Tools, source: string): Request {
    Request(source, Digest(t, []), Digest(t, []), Digest(t, []), [OneModule(t)])
  }

  function ManyFiles(t: Tools, n: nat): Files {
    Files(true, Some([]), true, Some([]), EmptyZips(t, n))
  }

  function ManyInputs(t: Tools, n: nat): Inputs {
    Inputs(_ => ManyFiles(t, n), Some([[]]), _ => Some(PNG_MAGIC))
  }

  // ---------------------------------------------------------------- additions with few bytes

  /** The bytes that three names have; every other name has none. */
  datatype Loads = Loads(first: string, firstBytes: Bytes, second: string, secondBytes: Bytes,
                         third: string, thirdBytes: Bytes) {
    function Of(name: string): Bytes {
      if name == first then firstBytes else if name == second then secondBytes
      else if name == third then thirdBytes else []
    }

    predicate Apart() {
      first != second && first != third && second != third
    }

    function Sum(): nat {
      |firstBytes| + |secondBytes| + |thirdBytes|
    }
  }

  ghost predicate Loaded(t: Tools, loads: Loads, additions: seq<Addition>) {
    forall a :: a in additions ==> Matches(t, a) && a.value == loads.Of(a.name)
  }

  ghost predicate Carries(loads: Loads, ms: Members) {
    forall name :: name in ms ==> ms[name] == loads.Of(name)
  }

  lemma {:induction false} FewBytes(loads: Loads, es: seq<(string, Bytes)>)
    requires loads.Apart() && forall i :: 0 <= i < |es| ==> es[i].1 == loads.Of(es[i].0)
    requires forall i, j :: 0 <= i < j < |es| ==> es[i].0 != es[j].0
    ensures SumLengths(es)
         <= (if loads.first in Names(es) then |loads.firstBytes| else 0)
          + (if loads.second in Names(es) then |loads.secondBytes| else 0)
          + (if loads.third in Names(es) then |loads.thirdBytes| else 0)
  {
    if es != [] {
      var front, last := es[..|es| - 1], es[|es| - 1];
      FewBytes(loads, front);
      assert Names(es) == Names(front) + [last.0];
    }
  }

  lemma FewBytesInAll(loads: Loads, ms: Members)
    requires loads.Apart() && Carries(loads, ms)
    ensures Total(ms) <= loads.Sum()
  {
    var es := Items(ms);
    FewBytes(loads, es);
  }

  lemma {:induction false} LoadedPuts(t: Tools, loads: Loads, additions: seq<Addition>)
    requires loads.Apart() && loads.Sum() <= MAX_ARCHIVE
    requires Loaded(t, loads, additions)
    ensures PutUnnamed(t, map[], additions).Some? && Carries(loads, PutUnnamed(t, map[], additions).value)
  {
    if additions != [] {
      var front, a := additions[..|additions| - 1], additions[|additions| - 1];
      LoadedPuts(t, loads, front);
      assert a in additions;
      FewBytesInAll(loads, PutUnnamed(t, map[], front).value[a.name := a.value]);
    }
  }

  // ---------------------------------------------------------------- the plan of one request

  ghost predicate LoadedPlan(t: Tools, loads: Loads, plan: Plan) {
    plan.Some? && Loaded(t, loads, plan.value)
  }

  lemma {:induction false} LoadedJoined(t: Tools, loads: Loads, plans: seq<Plan>)
    requires forall i :: 0 <= i < |plans| ==> LoadedPlan(t, loads, plans[i])
    ensures LoadedPlan(t, loads, Joined(plans))
  {
    if plans != [] {
      LoadedJoined(t, loads, plans[..|plans| - 1]);
    }
  }

  function OneLoads(t: Tools, summaryBytes: Bytes): Loads {
    Loads(SUMMARY, summaryBytes, ImageName(OneModule(t)), PNG_MAGIC, MANIFEST, [])
  }

  /** The summary, the picture and all other members are told apart by their first letters. */
  lemma Unloaded(t: Tools, summaryBytes: Bytes, name: string)
    requires name != "" && name[0] in "rp"
    ensures OneLoads(t, summaryBytes).Of(name) == []
  {
    assert SUMMARY[0] == 's' && ImageName(OneModule(t))[0] == 'i';
  }

  lemma EvidenceLoaded(t: Tools, summaryBytes: Bytes, source: string, n: nat)
    requires SafePath(source) && '\0' !in source
    ensures LoadedPlan(t, OneLoads(t, summaryBytes), EvidencePlan(OneRequest(t, source), ManyFiles(t, n)))
  {
    assert RawName(source)[0] == 'r' && ReceiptName(source)[0] == 'r';
    PairLoaded(t, summaryBytes, RawName(source), ReceiptName(source));
  }

  lemma PairLoaded(t: Tools, summaryBytes: Bytes, one: string, other: string)
    requires one != "" && one[0] in "rp" && other != "" && other[0] in "rp"
    ensures Loaded(t, OneLoads(t, summaryBytes), [Addition(one, [], Some(Digest(t, []))),
                                                  Addition(other, [], Some(Digest(t, [])))])
  {
    Unloaded(t, summaryBytes, one);
    Unloaded(t, summaryBytes, other);
  }

  lemma ZipsLoaded(t: Tools, summaryBytes: Bytes, source: string, n: nat)
    ensures LoadedPlan(t, OneLoads(t, summaryBytes), Joined(ZipPlans(source, EmptyZips(t, n))))
  {
    var plans := ZipPlans(source, EmptyZips(t, n));
    forall k | 0 <= k < n ensures LoadedPlan(t, OneLoads(t, summaryBytes), plans[k]) {
      assert BesideName(source, Zs(k + 1))[0] == 'r';
      Unloaded(t, summaryBytes, BesideName(source, Zs(k + 1)));
    }
    LoadedJoined(t, OneLoads(t, summaryBytes), plans);
  }

  lemma ExportLoaded(t: Tools, summaryBytes: Bytes)
    ensures LoadedPlan(t, OneLoads(t, summaryBytes), ExportPlan(t, Some([[]]), Digest(t, [])))
  {
    var exports: seq<Bytes> := [[]];
    assert exports[..0] == [] && Matching(t, exports[..0], Digest(t, [])) == [];
    assert Matching(t, exports, Digest(t, [])) == [[]];
    assert ExportName(Digest(t, []))[0] == 'p';
    Unloaded(t, summaryBytes, ExportName(Digest(t, [])));
  }

  lemma ImagesLoaded(t: Tools, summaryBytes: Bytes)
    requires HexHash(t)
    ensures LoadedPlan(t, OneLoads(t, summaryBytes), Joined(ImagePlans(_ => Some(PNG_MAGIC), [OneModule(t)])))
  {
    var plans := ImagePlans(_ => Some(PNG_MAGIC), [OneModule(t)]);
    HexDigest(t, PNG_MAGIC);
    LoadsApart(t, summaryBytes);
    assert LoadedPlan(t, OneLoads(t, summaryBytes), plans[0]);
    LoadedJoined(t, OneLoads(t, summaryBytes), plans);
  }

  lemma RequestLoaded(t: Tools, summaryBytes: Bytes, source: string, n: nat)
    requires HexHash(t) && SafePath(source) && '\0' !in source
    ensures LoadedPlan(t, OneLoads(t, summaryBytes), RequestPlan(t, OneRequest(t, source), ManyInputs(t, n)))
  {
    EvidenceLoaded(t, summaryBytes, source, n);
    ZipsLoaded(t, summaryBytes, source, n);
    ExportLoaded(t, summaryBytes);
    ImagesLoaded(t, summaryBytes);
  }

  // ---------------------------------------------------------------- any number of members

  lemma ZsSheltered(t: Tools, source: string, n: nat)
    requires '/' in source
    ensures Sheltered(OneRequest(t, source), ManyFiles(t, n))
  {
    forall k | 0 <= k < n ensures PlainName(EmptyZips(t, n)[k].name) {
      assert Zs(k + 1)[0] == 'z';
      SinglePart(Zs(k + 1));
    }
  }

  /** The names of the empty files are all different. */
  lemma ManyNames(source: string, n: nat, names: set<string>)
    requires forall k :: 0 <= k < n ==> EmptyName(source, k) in names
    ensures |names| >= n
  {
    var all := seq(n, k requires 0 <= k < n => EmptyName(source, k));
    forall i, j | 0 <= i < j < n ensures all[i] != all[j] {
      assert |all[i]| < |all[j]|;
    }
    CountDistinct(all);
    Included(Elements(all), names);
  }

  lemma Included(a: set<string>, b: set<string>)
    requires a <= b
    ensures |a| <= |b|
  {
    assert b == a + (b - a);
  }

  lemma UnnamedLoaded(t: Tools, summaryBytes: Bytes, source: string, n: nat)
    requires HexHash(t) && SafePath(source) && '\0' !in source && |summaryBytes| + |PNG_MAGIC| <= MAX_ARCHIVE
    ensures
      var ms := UnnamedContents(t, summaryBytes, [OneRequest(t, source)], ManyInputs(t, n));
      ms.Some? && Carries(OneLoads(t, summaryBytes), ms.value)
  {
    RequestsLoaded(t, summaryBytes, source, n);
    LoadsApart(t, summaryBytes);
    FirstLoaded(t, OneLoads(t, summaryBytes), Joined(RequestPlans(t, [OneRequest(t, source)], ManyInputs(t, n))));
  }

  lemma RequestsLoaded(t: Tools, summaryBytes: Bytes, source: string, n: nat)
    requires HexHash(t) && SafePath(source) && '\0' !in source
    ensures
      LoadedPlan(t, OneLoads(t, summaryBytes), Joined(RequestPlans(t, [OneRequest(t, source)], ManyInputs(t, n))))
  {
    RequestLoaded(t, summaryBytes, source, n);
    LoadedJoined(t, OneLoads(t, summaryBytes), RequestPlans(t, [OneRequest(t, source)], ManyInputs(t, n)));
  }

  lemma LoadsApart(t: Tools, summaryBytes: Bytes)
    ensures OneLoads(t, summaryBytes).Apart()
  {
    assert SUMMARY[0] == 's' && ImageName(OneModule(t))[0] == 'i' && MANIFEST[0] == 'm';
  }

  lemma FirstLoaded(t: Tools, loads: Loads, later: Plan)
    requires loads.Apart() && loads.Sum() <= MAX_ARCHIVE
    requires LoadedPlan(t, loads, later)
    ensures
      var plan := Then(Some([Addition(loads.first, loads.firstBytes, None)]), later);
      && plan.Some? && PutUnnamed(t, map[], plan.value).Some?
      && Carries(loads, PutUnnamed(t, map[], plan.value).value)
  {
    LoadedPuts(t, loads, [Addition(loads.first, loads.firstBytes, None)] + later.value);
  }

  /** For every number there is a request with one module, beside any storable evidence in a directory, whose
      packing succeeds with at least as many members. */
  lemma AnyNumberPacks(t: Tools, summaryBytes: Bytes, source: string, n: nat)
    requires HexHash(t) && SafePath(source) && '/' in source && '\0' !in source
    requires |summaryBytes| + |PNG_MAGIC| <= MAX_ARCHIVE
    ensures
      var requests := [OneRequest(t, source)];
      var ms := Contents(t, summaryBytes, requests, ManyInputs(t, n));
      && ms.Some? && n <= |ms.value| && CountModules(requests) == 1
      && Carries(OneLoads(t, summaryBytes), ms.value)
  {
    var requests, inputs := [OneRequest(t, source)], ManyInputs(t, n);
    UnnamedLoaded(t, summaryBytes, source, n);
    ZsSheltered(t, source, n);
    ShelteredPacks(t, summaryBytes, requests, inputs);
    AllZipsPlaced(t, summaryBytes, source, n);
    ManyNames(source, n, Contents(t, summaryBytes, requests, inputs).value.Keys);
    assert requests[..0] == [];
  }

  lemma AllZipsPlaced(t: Tools, summaryBytes: Bytes, source: string, n: nat)
    requires Contents(t, summaryBytes, [OneRequest(t, source)], ManyInputs(t, n)).Some?
    ensures forall k :: 0 <= k < n ==>
      EmptyName(source, k) in Contents(t, summaryBytes, [OneRequest(t, source)], ManyInputs(t, n)).value
  {
    var request, inputs := OneRequest(t, source), ManyInputs(t, n);
    var ms := Contents(t, summaryBytes, [request], inputs).value;
    RequestPlaced(t, summaryBytes, [request], inputs, 0);
    PartsPlaced(t, ms, request, inputs);
    var plans := ZipPlans(source, EmptyZips(t, n));
    forall k | 0 <= k < n ensures EmptyName(source, k) in ms {
      JoinedPlaced(t, ms, plans, k);
      var plan := plans[k].value;
      assert plan[0] in plan;
    }
  }

  // ---------------------------------------------------------------- a delivery that cannot be opened

  /** At most `k` additions, with names of at most `longest` characters. */
  ghost predicate Modest(plan: Plan, k: nat, longest: nat) {
    plan.Some? ==> |plan.value| <= k && forall a :: a in plan.value ==> |a.name| <= longest
  }

  lemma ModestThen(p: Plan, k: nat, q: Plan, l: nat, longest: nat)
    requires Modest(p, k, longest) && Modest(q, l, longest)
    ensures Modest(Then(p, q), k + l, longest)
  {
  }

  lemma {:induction false} ModestJoined(plans: seq<Plan>, longest: nat)
    requires forall i :: 0 <= i < |plans| ==> Modest(plans[i], 1, longest)
    ensures Modest(Joined(plans), |plans|, longest)
  {
    if plans != [] {
      var front, last := plans[..|plans| - 1], plans[|plans| - 1];
      ModestJoined(front, longest);
      ModestThen(Joined(front), |front|, last, 1, longest);
    }
  }

  lemma {:induction false} ParentShort(name: string)
    ensures |Parent(name)| <= |name| + 1
  {
    if name != "" && name[|name| - 1] != '/' {
      ParentShort(name[..|name| - 1]);
    }
  }

  lemma ModestRequest(t: Tools, source: string, n: nat, longest: nat)
    requires HexHash(t) && longest >= |source| + n + 100
    ensures Modest(RequestPlan(t, OneRequest(t, source), ManyInputs(t, n)), n + 4, longest)
  {
    var request, inputs := OneRequest(t, source), ManyInputs(t, n);
    var evidence, zips := EvidencePlan(request, ManyFiles(t, n)), ZipPlans(source, EmptyZips(t, n));
    var reexport := ExportPlan(t, inputs.exports, request.export_);
    var images := ImagePlans(inputs.pictures, request.modules);
    ParentShort(source);
    assert Modest(evidence, 2, longest);
    forall k | 0 <= k < n ensures Modest(zips[k], 1, longest) {
    }
    ModestJoined(zips, longest);
    ModestThen(evidence, 2, Joined(zips), n, longest);
    HexDigest(t, []);
    assert Modest(reexport, 1, longest);
    ModestThen(Then(evidence, Joined(zips)), n + 2, reexport, 1, longest);
    HexDigest(t, PNG_MAGIC);
    assert Modest(images[0], 1, longest);
    ModestJoined(images, longest);
    ModestThen(Then(Then(evidence, Joined(zips)), reexport), n + 3, Joined(images), 1, longest);
  }

  lemma {:induction false} FewNames(additions: seq<Addition>)
    ensures |AddedNames(additions)| <= |additions|
  {
    if additions != [] {
      FewNames(additions[..|additions| - 1]);
      LastAddedName(additions);
    }
  }

  lemma ModestContents(t: Tools, summaryBytes: Bytes, source: string, n: nat, longest: nat)
    requires HexHash(t) && longest >= |source| + n + 100
    requires Contents(t, summaryBytes, [OneRequest(t, source)], ManyInputs(t, n)).Some?
    ensures
      var ms := Contents(t, summaryBytes, [OneRequest(t, source)], ManyInputs(t, n)).value;
      |ms| <= n + 5 && forall name :: name in ms ==> |name| <= longest
  {
    var plans := RequestPlans(t, [OneRequest(t, source)], ManyInputs(t, n));
    var first := Some([Addition(SUMMARY, summaryBytes, None)]);
    ModestRequest(t, source, n, longest);
    assert Joined(plans) == Then(Joined(plans[..0]), plans[0]);
    ModestThen(Some([]), 0, plans[0], n + 4, longest);
    ModestThen(first, 1, Joined(plans), n + 4, longest);
    var additions := Then(first, Joined(plans)).value;
    PutAllKeys(t, map[], additions);
    FewNames(additions);
  }

  /** Per member, enough for its headers, its name in any encoding, and padding. */
  function Footprint(es: seq<(string, Bytes)>): nat {
    if es == [] then 0
    else Footprint(es[..|es| - 1]) + 4096 + 4 * |es[|es| - 1].0| + |es[|es| - 1].1|
  }

  /** The tar library adds little, and age seals what is not too large. */
  ghost predicate Thrifty(t: Tools) {
    && (forall es :: Writes(es) ==> |t.writeTar(es)| <= 20480 + Footprint(es))
    && (forall b :: |b| <= MAX_ARCHIVE ==> t.seal(b).Some? && Sealable(t.seal(b).value))
  }

  const LONGEST := 2200

  lemma {:induction false} FootprintBound(es: seq<(string, Bytes)>)
    requires forall i :: 0 <= i < |es| ==> |es[i].0| <= LONGEST
    ensures Footprint(es) <= 12896 * |es| + SumLengths(es)
  {
    if es != [] {
      FootprintBound(es[..|es| - 1]);
    }
  }

  const PART := 16 * 1024 * 1024

  lemma ArchiveBound(t: Tools, loads: Loads, all: Members)
    requires Thrifty(t) && AllStorable(all) && Carries(loads, all) && loads.Apart() && |all| <= 1100
    requires |loads.firstBytes| <= PART && |loads.secondBytes| <= PART && |loads.thirdBytes| <= PART
    requires forall name :: name in all ==> |name| <= LONGEST
    ensures |t.writeTar(Items(all))| <= MAX_ARCHIVE
  {
    var es := Items(all);
    ItemsWritten(all);
    FewBytesInAll(loads, all);
    SortedCount(all.Keys);
    FootprintBound(es);
  }

  /** What 1025 empty files and one picture pack to, in bounds that a tar of it keeps to. */
  lemma ManyPacked(t: Tools, summaryBytes: Bytes, source: string) returns (ms: Members)
    requires HexHash(t) && |summaryBytes| <= PART
    requires SafePath(source) && '/' in source && '\0' !in source && |source| <= 1000
    ensures Contents(t, summaryBytes, [OneRequest(t, source)], ManyInputs(t, MAX_ENTRIES)) == Some(ms)
    ensures Packed(ms, summaryBytes) && AllBound(t, ms, [OneRequest(t, source)])
    ensures Carries(OneLoads(t, summaryBytes), ms) && MAX_ENTRIES <= |ms| <= MAX_ENTRIES + 5
    ensures forall name :: name in ms ==> |name| <= LONGEST
  {
    var requests, inputs := [OneRequest(t, source)], ManyInputs(t, MAX_ENTRIES);
    AnyNumberPacks(t, summaryBytes, source, MAX_ENTRIES);
    ms := Contents(t, summaryBytes, requests, inputs).value;
    ContentsPacked(t, summaryBytes, requests, inputs);
    ContentsBound(t, summaryBytes, requests, inputs);
    ModestContents(t, summaryBytes, source, MAX_ENTRIES, LONGEST);
  }

  /** With a manifest among its members, an archive still keeps to those bounds. */
  lemma ManyArchived(t: Tools, summaryBytes: Bytes, ms: Members, manifest: Manifest)
    requires Thrifty(t) && |summaryBytes| <= PART && |t.dumpManifest(manifest)| <= PART
    requires Packed(ms, summaryBytes) && Carries(OneLoads(t, summaryBytes), ms) && |ms| <= MAX_ENTRIES + 5
    requires forall name :: name in ms ==> |name| <= LONGEST
    ensures |t.writeTar(Items(Payloads(t, manifest, ms)))| <= MAX_ARCHIVE
  {
    var loads := OneLoads(t, summaryBytes).(thirdBytes := t.dumpManifest(manifest));
    LoadsApart(t, summaryBytes);
    PayloadsSafe(t, manifest, ms);
    PayloadsOnly(t, manifest, ms);
    ManifestCarried(t, OneLoads(t, summaryBytes), ms, t.dumpManifest(manifest));
    ArchiveBound(t, loads, Payloads(t, manifest, ms));
  }

  lemma ManifestCarried(t: Tools, loads: Loads, ms: Members, data: Bytes)
    requires Carries(loads, ms) && loads.Apart() && loads.third !in ms
    ensures Carries(loads.(thirdBytes := data), ms[loads.third := data])
  {
  }

  function ReceiptOf(t: Tools, summaryBytes: Bytes, manifest: Manifest, ciphertext: Bytes): Receipt {
    Receipt(manifest.scope, manifest.executionId, manifest.attempt, manifest.lane, Digest(t, summaryBytes),
            Digest(t, ciphertext), |ciphertext|, CountModules(manifest.requests))
  }

  lemma SealedDelivered(t: Tools, summaryBytes: Bytes, summary: Summary, ms: Members, manifest: Manifest)
    returns (ciphertext: Bytes)
    requires Thrifty(t) && Packed(ms, summaryBytes) && AllBound(t, ms, summary.requests) && summary.local.None?
    requires manifest
          == ManifestOf(t, summaryBytes, summary, ms, manifest.executionId, manifest.attempt, manifest.scope)
    requires |t.writeTar(Items(Payloads(t, manifest, ms)))| <= MAX_ARCHIVE
    ensures Delivered(t, summaryBytes, summary, ms, manifest, ReceiptOf(t, summaryBytes, manifest, ciphertext),
                      ciphertext)
  {
    ciphertext := t.seal(t.writeTar(Items(Payloads(t, manifest, ms)))).value;
  }

  lemma OverfullNeverOpens(t: Tools, summaryBytes: Bytes, summary: Summary, ms: Members, manifest: Manifest,
                           receipt: Receipt, ciphertext: Bytes)
    requires Faithful(t) && Delivered(t, summaryBytes, summary, ms, manifest, receipt, ciphertext)
    requires |ms| >= MAX_ENTRIES
    ensures !Opens(t, summaryBytes, summary, receipt, ciphertext)
  {
    DeliveryRoundTrip(t, summaryBytes, summary, ms, manifest, receipt, ciphertext);
  }

  /** A delivery of 1025 members besides the manifest is made like any other, and cannot be opened. */
  lemma TooManyDelivered(t: Tools, summaryBytes: Bytes, source: string, summary: Summary, executionId: string,
                         attempt: int)
    returns (ms: Members, manifest: Manifest, ciphertext: Bytes)
    requires HexHash(t) && Thrifty(t) && Faithful(t)
    requires SafePath(source) && '/' in source && '\0' !in source && |source| <= 1000 && |summaryBytes| <= PART
    requires summary.requests == [OneRequest(t, source)] && summary.local.None?
    requires
      var packed := Contents(t, summaryBytes, summary.requests, ManyInputs(t, MAX_ENTRIES));
      packed.Some? ==>
        |t.dumpManifest(ManifestOf(t, summaryBytes, summary, packed.value, executionId, attempt,
                                   OfficialRunReviewOnly))| <= PART
    ensures Contents(t, summaryBytes, summary.requests, ManyInputs(t, MAX_ENTRIES)) == Some(ms)
    ensures |ms| >= MAX_ENTRIES && CountModules(summary.requests) == 1
    ensures
      var receipt := ReceiptOf(t, summaryBytes, manifest, ciphertext);
      && Delivered(t, summaryBytes, summary, ms, manifest, receipt, ciphertext)
      && !Opens(t, summaryBytes, summary, receipt, ciphertext)
  {
    ms := ManyPacked(t, summaryBytes, source);
    manifest := ManifestOf(t, summaryBytes, summary, ms, executionId, attempt, OfficialRunReviewOnly);
    ManyArchived(t, summaryBytes, ms, manifest);
    ciphertext := SealedDelivered(t, summaryBytes, summary, ms, manifest);
    OneModuleCounts(t, source, summary.requests);
    OverfullNeverOpens(t, summaryBytes, summary, ms, manifest, ReceiptOf(t, summaryBytes, manifest, ciphertext),
                       ciphertext);
  }

  lemma OneModuleCounts(t: Tools, source: string, requests: seq<Request>)
    requires requests == [OneRequest(t, source)]
    ensures CountModules(requests) == 1
  {
    assert requests[..0] == [];
  }
}

/** Opening a private review delivery: unpacking the archive, checking its manifest, and showing its images. */
module ReviewOpening {
  import opened Bytes
  import opened Text
  import opened ReviewDelivery
  import opened ReviewPaths

  // ---------------------------------------------------------------- unpacking

  /** The members that a list of entries fills in. */
  function MapOf(es: seq<Entry>): Members {
    if es == [] then map[] else MapOf(es[..|es| - 1])[es[|es| - 1].name := es[|es| - 1].data]
  }

  ghost predicate Distinct(es: seq<Entry>) {
    forall i, j :: 0 <= i < j < |es| ==> es[i].name != es[j].name
  }

  predicate GoodEntry(e: Entry) {
    e.regular && SafePath(e.name) && e.size <= MAX_ARCHIVE && |e.data| == e.size
  }

  /** The running total stays within the limit at every entry. */
  ghost predicate TotalsWithin(es: seq<Entry>) {
    es == [] || (TotalsWithin(es[..|es| - 1]) && Total(MapOf(es)) <= MAX_ARCHIVE)
  }

  ghost predicate AllGood(es: seq<Entry>) {
    forall i :: 0 <= i < |es| ==> GoodEntry(es[i])
  }

  /** What `Unpack` admits. */
  ghost predicate Admissible(es: seq<Entry>) {
    AllGood(es) && Distinct(es) && |es| <= MAX_ENTRIES && TotalsWithin(es)
  }

  ghost predicate Unpackable(t: Tools, value: Bytes) {
    |value| <= MAX_ARCHIVE && t.readTar(value).Some? && Admissible(t.readTar(value).value)
  }

  lemma {:induction false} MapOfNames(es: seq<Entry>)
    ensures forall name :: name in MapOf(es) <==> exists i :: 0 <= i < |es| && es[i].name == name
    ensures |MapOf(es)| <= |es| && (Distinct(es) ==> |MapOf(es)| == |es|)
  {
    if es != [] {
      var front, last := es[..|es| - 1], es[|es| - 1];
      MapOfNames(front);
      assert forall i :: 0 <= i < |front| ==> front[i] == es[i];
      forall name ensures name in MapOf(es) <==> exists i :: 0 <= i < |es| && es[i].name == name {
        if name in MapOf(front) {
          var i :| 0 <= i < |front| && front[i].name == name;
          assert es[i].name == name;
        }
        assert name == last.name ==> es[|es| - 1].name == name;
      }
      assert MapOf(es).Keys == MapOf(front).Keys + {last.name};
    }
  }

  lemma {:induction false} MapOfValues(es: seq<Entry>, i: nat)
    requires Distinct(es) && i < |es|
    ensures es[i].name in MapOf(es) && MapOf(es)[es[i].name] == es[i].data
  {
    if i < |es| - 1 {
      MapOfValues(es[..|es| - 1], i);
    }
  }

  lemma DistinctStep(es: seq<Entry>, n: nat)
    requires n < |es| && Distinct(es[..n])
    ensures Distinct(es[..n + 1]) <==> es[n].name !in MapOf(es[..n])
  {
    var before, after := es[..n], es[..n + 1];
    MapOfNames(before);
    assert forall i :: 0 <= i < n ==> before[i] == after[i];
    if es[n].name !in MapOf(before) {
      assert forall i :: 0 <= i < n ==> before[i].name != es[n].name;
    } else {
      var i :| 0 <= i < n && before[i].name == es[n].name;
      assert after[i].name == after[n].name;
    }
  }

  lemma TotalsStep(es: seq<Entry>, n: nat)
    requires n < |es|
    ensures TotalsWithin(es[..n + 1]) <==>
      TotalsWithin(es[..n]) && Total(MapOf(es[..n])[es[n].name := es[n].data]) <= MAX_ARCHIVE
  {
    assert es[..n + 1][..n] == es[..n];
  }

  lemma GoodStep(es: seq<Entry>, n: nat)
    requires n < |es|
    ensures AllGood(es[..n + 1]) <==> AllGood(es[..n]) && GoodEntry(es[n])
  {
    assert forall i :: 0 <= i < n ==> es[..n][i] == es[..n + 1][i];
    assert es[..n + 1][n] == es[n];
  }

  /** One more entry is admitted exactly by the checks of the loop. */
  lemma AdmissibleStep(es: seq<Entry>, n: nat)
    requires n < |es| && Admissible(es[..n])
    ensures Admissible(es[..n + 1]) <==>
      && GoodEntry(es[n]) && es[n].name !in MapOf(es[..n]) && |MapOf(es[..n])| < MAX_ENTRIES
      && Total(MapOf(es[..n])[es[n].name := es[n].data]) <= MAX_ARCHIVE
  {
    GoodStep(es, n);
    DistinctStep(es, n);
    TotalsStep(es, n);
    MapOfNames(es[..n]);
  }

  lemma {:induction false} AdmissiblePrefix(es: seq<Entry>, n: nat)
    requires n <= |es| && Admissible(es)
    ensures Admissible(es[..n])
  {
    if n < |es| {
      var front := es[..|es| - 1];
      assert forall i :: 0 <= i < |front| ==> front[i] == es[i];
      AdmissiblePrefix(front, n);
      assert front[..n] == es[..n];
    } else {
      assert es[..n] == es;
    }
  }

  lemma MapOfStep(es: seq<Entry>, n: nat)
    requires n < |es|
    ensures MapOf(es[..n + 1]) == MapOf(es[..n])[es[n].name := es[n].data]
  {
    assert es[..n + 1][..n] == es[..n];
  }

  /** One pass of the unpacking loop. */
  method Enter(es: seq<Entry>, n: nat, members: Members) returns (r: Option<Members>)
    requires n < |es| && Admissible(es[..n]) && members == MapOf(es[..n])
    ensures r.Some? <==> Admissible(es[..n + 1])
    ensures r.Some? ==> r.value == MapOf(es[..n + 1])
  {
    AdmissibleStep(es, n);
    MapOfStep(es, n);
    var e := es[n];
    if !SafePath(e.name) || !e.regular || e.size > MAX_ARCHIVE || |e.data| != e.size || e.name in members
       || |members| > 1024
    {
      return None;
    }
    var entered := members[es[n].name := es[n].data];
    if Total(entered) > MAX_ARCHIVE {
      return None;
    }
    return Some(entered);
  }

  method Unpack(t: Tools, value: Bytes) returns (r: Option<Members>)
    ensures r.Some? <==> Unpackable(t, value)
    ensures r.Some? ==> r.value == MapOf(t.readTar(value).value)
  {
    if |value| > MAX_ARCHIVE || t.readTar(value).None? {
      return None;
    }
    var es := t.readTar(value).value;
    var members: Members := map[];
    var i := 0;
    while i < |es|
      invariant 0 <= i <= |es|
      invariant Admissible(es[..i]) && members == MapOf(es[..i])
    {
      var entered := Enter(es, i, members);
      if entered.None? {
        if Admissible(es) {
          AdmissiblePrefix(es, i + 1);
        }
        return None;
      }
      members := entered.value;
      i := i + 1;
    }
    assert es[..i] == es;
    return Some(members);
  }

  // ---------------------------------------------------------------- showing images

  /** Every module of every request, in order. */
  function Modules(requests: seq<Request>): (ms: seq<Module>)
    ensures |ms| == CountModules(requests)
  {
    if requests == [] then [] else Modules(requests[..|requests| - 1]) + requests[|requests| - 1].modules
  }

  /** The pictures of some modules, under their names in the archive. */
  function ImagesOf(ms: Members, modules: seq<Module>): Members {
    if modules == [] then map[]
    else AddImage(ms, ImagesOf(ms, modules[..|modules| - 1]), ImageName(modules[|modules| - 1]))
  }

  function AddImage(ms: Members, images: Members, name: string): Members {
    if name in ms then images[name := ms[name]] else images
  }

  lemma {:induction false} ImageShown(ms: Members, modules: seq<Module>, i: nat)
    requires i < |modules| && ImageName(modules[i]) in ms
    ensures ImageName(modules[i]) in ImagesOf(ms, modules)
  {
    if i < |modules| - 1 {
      ImageShown(ms, modules[..|modules| - 1], i);
    }
  }

  lemma {:induction false} ImageFrom(ms: Members, modules: seq<Module>, name: string) returns (i: nat)
    requires name in ImagesOf(ms, modules)
    ensures i < |modules| && ImageName(modules[i]) == name && name in ms
  {
    i := |modules| - 1;
    if ImageName(modules[i]) != name || name !in ms {
      i := ImageFrom(ms, modules[..i], name);
    }
  }

  /** Nothing but the members named by the modules. */
  lemma ImagesExact(ms: Members, modules: seq<Module>)
    ensures forall name :: name in ImagesOf(ms, modules) <==>
      name in ms && exists i :: 0 <= i < |modules| && ImageName(modules[i]) == name
  {
    forall name | name in ImagesOf(ms, modules)
      ensures name in ms && exists i :: 0 <= i < |modules| && ImageName(modules[i]) == name
    {
      var i := ImageFrom(ms, modules, name);
    }
    forall i | 0 <= i < |modules| && ImageName(modules[i]) in ms
      ensures ImageName(modules[i]) in ImagesOf(ms, modules)
    {
      ImageShown(ms, modules, i);
    }
  }

  lemma {:induction false} ImagesUnchanged(ms: Members, modules: seq<Module>)
    ensures forall name :: name in ImagesOf(ms, modules) ==> name in ms && ImagesOf(ms, modules)[name] == ms[name]
  {
    if modules != [] {
      ImagesUnchanged(ms, modules[..|modules| - 1]);
    }
  }

  /** The path and digest checks on opening amount to the checks made on packing. */
  lemma PathAndDigest(t: Tools, value: Bytes, screenshot: string)
    requires Digest(t, value) == screenshot && IsHex64(Tail(screenshot))
    ensures IsDigest(screenshot)
  {
    forall i | 7 <= i < |screenshot| ensures '0' <= screenshot[i] <= '9' || 'a' <= screenshot[i] <= 'f' {
      assert screenshot[i] == Tail(screenshot)[i - 7];
    }
  }

  /** The checks made for one module on opening. */
  method ShowModule(t: Tools, ms: Members, m: Module) returns (ok: bool)
    ensures ok <==> ImageBound(t, ms, m)
  {
    var name := ImageName(m);
    if !IsHex64(Tail(m.screenshot)) || name !in ms {
      if IsDigest(m.screenshot) {
        HexTail(m.screenshot);
      }
      return false;
    }
    if Digest(t, ms[name]) != m.screenshot {
      return false;
    }
    PathAndDigest(t, ms[name], m.screenshot);
    return PNG_MAGIC <= ms[name];
  }

  lemma ImagesOfStep(ms: Members, modules: seq<Module>, shown: Members, n: nat)
    requires n < |modules| && ImageName(modules[n]) in ms
    ensures shown + ImagesOf(ms, modules[..n + 1]) ==
            (shown + ImagesOf(ms, modules[..n]))[ImageName(modules[n]) := ms[ImageName(modules[n])]]
  {
    assert modules[..n + 1][..n] == modules[..n];
  }

  lemma BoundStep(t: Tools, ms: Members, modules: seq<Module>, n: nat)
    requires n < |modules| && AllImages(t, ms, modules[..n]) && ImageBound(t, ms, modules[n])
    ensures AllImages(t, ms, modules[..n + 1])
  {
    Snoc(modules, n);
  }

  /** What the loop over the modules has made of the first `n`. */
  ghost predicate ShownSoFar(t: Tools, ms: Members, modules: seq<Module>, shown: Members, n: nat, images: Members)
    requires n <= |modules|
  {
    AllImages(t, ms, modules[..n]) && images == shown + ImagesOf(ms, modules[..n])
  }

  lemma ShownOneMore(t: Tools, ms: Members, modules: seq<Module>, shown: Members, n: nat, images: Members)
    requires n < |modules| && ShownSoFar(t, ms, modules, shown, n, images) && ImageBound(t, ms, modules[n])
    ensures ShownSoFar(t, ms, modules, shown, n + 1, images[ImageName(modules[n]) := ms[ImageName(modules[n])]])
  {
    BoundStep(t, ms, modules, n);
    ImagesOfStep(ms, modules, shown, n);
  }

  lemma ShownAll(t: Tools, ms: Members, modules: seq<Module>, shown: Members, images: Members)
    requires ShownSoFar(t, ms, modules, shown, |modules|, images)
    ensures AllImages(t, ms, modules) && images == shown + ImagesOf(ms, modules)
  {
    assert modules[..|modules|] == modules;
  }

  lemma NotAllImages(t: Tools, ms: Members, modules: seq<Module>, n: nat)
    requires n < |modules| && !ImageBound(t, ms, modules[n])
    ensures !AllImages(t, ms, modules)
  {
  }

  method ShowModules(t: Tools, ms: Members, modules: seq<Module>, shown: Members, cards: nat)
    returns (r: Option<(Members, nat)>)
    ensures r.Some? <==> AllImages(t, ms, modules)
    ensures r.Some? ==> r.value.0 == shown + ImagesOf(ms, modules) && r.value.1 == cards + |modules|
  {
    var images, count := shown, cards;
    var i := 0;
    while i < |modules|
      invariant 0 <= i <= |modules|
      invariant ShownSoFar(t, ms, modules, shown, i, images) && count == cards + i
    {
      var ok := ShowModule(t, ms, modules[i]);
      if !ok {
        NotAllImages(t, ms, modules, i);
        return None;
      }
      ShownOneMore(t, ms, modules, shown, i, images);
      images := images[ImageName(modules[i]) := ms[ImageName(modules[i])]];
      count := count + 1;
      i := i + 1;
    }
    ShownAll(t, ms, modules, shown, images);
    return Some((images, count));
  }

  lemma AddImageLast(ms: Members, a: Members, b: Members, name: string)
    ensures AddImage(ms, a + b, name) == a + AddImage(ms, b, name)
  {
  }

  lemma {:induction false} ImagesOfConcat(ms: Members, a: seq<Module>, b: seq<Module>)
    ensures ImagesOf(ms, a + b) == ImagesOf(ms, a) + ImagesOf(ms, b)
  {
    if b == [] {
      assert a + b == a;
      assert ImagesOf(ms, b) == map[];
    } else {
      var front, last := b[..|b| - 1], b[|b| - 1];
      ImagesOfConcat(ms, a, front);
      assert (a + b)[..|a + b| - 1] == a + front && (a + b)[|a + b| - 1] == last;
      AddImageLast(ms, ImagesOf(ms, a), ImagesOf(ms, front), ImageName(last));
    }
  }

  method ShowRequests(t: Tools, ms: Members, requests: seq<Request>) returns (r: Option<(Members, nat)>)
    ensures r.Some? <==> AllBound(t, ms, requests)
    ensures r.Some? ==> r.value.0 == ImagesOf(ms, Modules(requests)) && r.value.1 == CountModules(requests)
  {
    var images: Members, cards := map[], 0;
    var i := 0;
    while i < |requests|
      invariant 0 <= i <= |requests| && RequestsShown(t, ms, requests, i, images, cards)
    {
      var one := ShowModules(t, ms, requests[i].modules, images, cards);
      if one.None? {
        return None;
      }
      ShownStep(t, ms, requests, i, images, cards);
      images, cards := one.value.0, one.value.1;
      i := i + 1;
    }
    assert requests[..i] == requests;
    return Some((images, cards));
  }

  ghost predicate RequestsShown(t: Tools, ms: Members, requests: seq<Request>, n: nat, images: Members, cards: nat)
    requires n <= |requests|
  {
    && (forall k :: 0 <= k < n ==> AllImages(t, ms, requests[k].modules))
    && images == ImagesOf(ms, Modules(requests[..n])) && cards == CountModules(requests[..n])
  }

  lemma ShownStep(t: Tools, ms: Members, requests: seq<Request>, n: nat, images: Members, cards: nat)
    requires n < |requests| && RequestsShown(t, ms, requests, n, images, cards)
    requires AllImages(t, ms, requests[n].modules)
    ensures RequestsShown(t, ms, requests, n + 1, images + ImagesOf(ms, requests[n].modules),
                          cards + |requests[n].modules|)
  {
    ImagesOfConcat(ms, Modules(requests[..n]), requests[n].modules);
    assert requests[..n + 1][..n] == requests[..n];
  }

  // ---------------------------------------------------------------- opening

  /** The receipt speaks of this ciphertext and this summary. */
  predicate ReceiptMatches(t: Tools, summaryBytes: Bytes, receipt: Receipt, ciphertext: Bytes) {
    && |ciphertext| <= MAX_CIPHERTEXT
    && receipt.summaryDigest == Digest(t, summaryBytes)
    && receipt.ciphertextDigest == Digest(t, ciphertext) && receipt.ciphertextBytes == |ciphertext|
  }

  predicate ManifestMatches(t: Tools, summaryBytes: Bytes, summary: Summary, receipt: Receipt, manifest: Manifest,
                            ms: Members) {
    && manifest.summaryDigest == Digest(t, summaryBytes) && manifest.requests == summary.requests
    && manifest.members == Table(t, ms)
    && SUMMARY in ms && ms[SUMMARY] == summaryBytes
    && manifest.lane == summary.lane
    && (summary.local.Some? ==> manifest.scope.LocalDeveloperFeedback?)
    && manifest.scope == receipt.scope && manifest.executionId == receipt.executionId
    && manifest.attempt == receipt.attempt
  }

  /** What the archive inside a ciphertext unpacks to. */
  ghost function Unsealed(t: Tools, ciphertext: Bytes): Option<Members> {
    if t.unseal(ciphertext).Some? && Unpackable(t, t.unseal(ciphertext).value)
    then Some(MapOf(t.readTar(t.unseal(ciphertext).value).value))
    else None
  }

  ghost predicate Opens(t: Tools, summaryBytes: Bytes, summary: Summary, receipt: Receipt, ciphertext: Bytes) {
    && ReceiptMatches(t, summaryBytes, receipt, ciphertext)
    && Unsealed(t, ciphertext).Some?
    && var all := Unsealed(t, ciphertext).value;
    && MANIFEST in all && t.manifestOf(all[MANIFEST]).Some?
    && ManifestMatches(t, summaryBytes, summary, receipt, t.manifestOf(all[MANIFEST]).value, all - {MANIFEST})
    && AllBound(t, all - {MANIFEST}, summary.requests)
    && 0 < CountModules(summary.requests) == receipt.imageCount
  }

  method CheckReceipt(t: Tools, summaryBytes: Bytes, receipt: Receipt, ciphertext: Bytes) returns (ok: bool)
    ensures ok <==> ReceiptMatches(t, summaryBytes, receipt, ciphertext)
  {
    if |ciphertext| > MAX_ARCHIVE + 1024 * 1024 || receipt.summaryDigest != Digest(t, summaryBytes) {
      return false;
    }
    return receipt.ciphertextDigest == Digest(t, ciphertext) && receipt.ciphertextBytes == |ciphertext|;
  }

  method CheckManifest(t: Tools, summaryBytes: Bytes, summary: Summary, receipt: Receipt, manifest: Manifest,
                       ms: Members)
    returns (ok: bool)
    ensures ok <==> ManifestMatches(t, summaryBytes, summary, receipt, manifest, ms)
  {
    if manifest.summaryDigest != Digest(t, summaryBytes) || manifest.requests != summary.requests
       || manifest.lane != summary.lane
    {
      return false;
    }
    if manifest.members != (map name | name in ms :: (Digest(t, ms[name]), |ms[name]|)) {
      return false;
    }
    if SUMMARY !in ms || ms[SUMMARY] != summaryBytes {
      return false;
    }
    if summary.local.Some? && manifest.scope != LocalDeveloperFeedback {
      return false;
    }
    return manifest.scope == receipt.scope && manifest.executionId == receipt.executionId
           && manifest.attempt == receipt.attempt;
  }

  method OpenReview(t: Tools, summaryBytes: Bytes, summary: Summary, receipt: Receipt, ciphertext: Bytes,
                    destinationFree: bool)
    returns (r: Option<Members>)
    ensures r.Some? <==> Opens(t, summaryBytes, summary, receipt, ciphertext) && destinationFree
    ensures r.Some? ==> r.value == ImagesOf(Unsealed(t, ciphertext).value - {MANIFEST}, Modules(summary.requests))
  {
    var bound := CheckReceipt(t, summaryBytes, receipt, ciphertext);
    if !bound || t.unseal(ciphertext).None? {
      return None;
    }
    var unpacked := Unpack(t, t.unseal(ciphertext).value);
    if unpacked.None? || MANIFEST !in unpacked.value {
      return None;
    }
    var members := unpacked.value - {MANIFEST};
    var manifest := t.manifestOf(unpacked.value[MANIFEST]);
    if manifest.None? {
      return None;
    }
    bound := CheckManifest(t, summaryBytes, summary, receipt, manifest.value, members);
    if !bound {
      return None;
    }
    var shown := ShowRequests(t, members, summary.requests);
    if shown.None? || shown.value.1 == 0 || receipt.imageCount != shown.value.1 || !destinationFree {
      return None;
    }
    return Some(shown.value.0);
  }

  // ---------------------------------------------------------------- packing, then opening

  lemma SortedDistinct(ps: seq<(string, Bytes)>)
    requires StrictlySorted(Names(ps))
    ensures Distinct(AsEntries(ps))
  {
    forall i, j | 0 <= i < j < |ps| ensures AsEntries(ps)[i].name != AsEntries(ps)[j].name {
      assert Less(Names(ps)[i], Names(ps)[j]);
    }
  }

  /** Listing the members that a sorted list fills in gives the list back. */
  lemma ItemsOfSorted(ps: seq<(string, Bytes)>)
    requires StrictlySorted(Names(ps))
    ensures Items(MapOf(AsEntries(ps))) == ps
  {
    var es := AsEntries(ps);
    var ms := MapOf(es);
    SortedDistinct(ps);
    MapOfNames(es);
    assert Elements(Names(ps)) == ms.Keys by {
      forall name ensures name in Names(ps) <==> name in ms {
        if name in Names(ps) {
          var i :| 0 <= i < |ps| && Names(ps)[i] == name;
          assert es[i].name == name;
        }
      }
    }
    SortedUnique(Sorted(ms.Keys), Names(ps));
    forall i | 0 <= i < |ps| ensures Items(ms)[i] == ps[i] {
      MapOfValues(es, i);
      assert Items(ms)[i].0 == ps[i].0;
    }
  }

  lemma ItemsSorted(ms: Members)
    ensures StrictlySorted(Names(Items(ms)))
  {
    assert Names(Items(ms)) == Sorted(ms.Keys);
  }

  lemma NamesOfItems(ms: Members)
    ensures Elements(Names(Items(ms))) == ms.Keys
  {
    assert Names(Items(ms)) == Sorted(ms.Keys);
  }

  /** The items of a dictionary determine it. */
  lemma ItemsInjective(a: Members, b: Members)
    requires Items(a) == Items(b)
    ensures a == b
  {
    NamesOfItems(a);
    NamesOfItems(b);
    assert a.Keys == b.Keys;
    forall name | name in a ensures a[name] == b[name] {
      var i := ItemAt(a, name);
      assert Items(b)[i].1 == b[name];
    }
  }

  lemma ItemAt(ms: Members, name: string) returns (i: nat)
    requires name in ms
    ensures i < |Items(ms)| && Items(ms)[i] == (name, ms[name])
  {
    NamesOfItems(ms);
    assert name in Elements(Names(Items(ms)));
    i :| 0 <= i < |Items(ms)| && Names(Items(ms))[i] == name;
  }

  /** Reading back the items of a dictionary gives the dictionary. */
  lemma MapOfItems(ms: Members)
    ensures MapOf(AsEntries(Items(ms))) == ms
  {
    ItemsSorted(ms);
    ItemsOfSorted(Items(ms));
    ItemsInjective(MapOf(AsEntries(Items(ms))), ms);
  }

  lemma {:induction false} PrefixSum(ps: seq<(string, Bytes)>, n: nat)
    requires n <= |ps|
    ensures SumLengths(ps[..n]) <= SumLengths(ps)
    ensures n > 0 ==> |ps[n - 1].1| <= SumLengths(ps)
  {
    if n < |ps| {
      PrefixSum(ps[..|ps| - 1], n);
      assert ps[..|ps| - 1][..n] == ps[..n];
    } else {
      assert ps[..n] == ps;
    }
  }

  /** Sorted items within the archive's size stay within it at every prefix. */
  lemma {:induction false} SortedTotals(ps: seq<(string, Bytes)>)
    requires StrictlySorted(Names(ps)) && SumLengths(ps) <= MAX_ARCHIVE
    ensures TotalsWithin(AsEntries(ps))
  {
    if ps != [] {
      var front := ps[..|ps| - 1];
      assert AsEntries(ps)[..|ps| - 1] == AsEntries(front);
      assert Names(front) == Names(ps)[..|front|];
      ItemsOfSorted(ps);
      SortedTotals(front);
    }
  }

  lemma ItemsWritten(ms: Members)
    requires AllStorable(ms)
    ensures Writes(Items(ms))
  {
    ItemsSorted(ms);
  }

  /** What is packed is unpacked, unless there are too many members. */
  lemma PackedUnpacks(ms: Members)
    requires AllStorable(ms) && Total(ms) <= MAX_ARCHIVE
    ensures Admissible(AsEntries(Items(ms))) <==> |ms| <= MAX_ENTRIES
  {
    var ps := Items(ms);
    ItemsSorted(ms);
    SortedDistinct(ps);
    SortedTotals(ps);
    SortedCount(ms.Keys);
    forall i | 0 <= i < |ps| ensures GoodEntry(AsEntries(ps)[i]) {
      PrefixSum(ps, i + 1);
    }
  }

  lemma ManifestStorable()
    ensures Storable(MANIFEST)
  {
    SingleStorable(MANIFEST);
  }

  lemma SingleStorable(name: string)
    requires '/' !in name && PlainCharacters(name) && GoodPart(name) && '\0' !in name
    ensures Storable(name)
  {
    SinglePart(name);
  }

  lemma PayloadsSafe(t: Tools, manifest: Manifest, ms: Members)
    requires AllStorable(ms)
    ensures AllStorable(Payloads(t, manifest, ms))
  {
    ManifestStorable();
    forall name | name in Payloads(t, manifest, ms) ensures Storable(name) {
      assert name in ms || name == MANIFEST;
    }
  }

  lemma UnsealedDelivery(t: Tools, summaryBytes: Bytes, summary: Summary, ms: Members, manifest: Manifest,
                         receipt: Receipt, ciphertext: Bytes)
    requires Faithful(t) && Delivered(t, summaryBytes, summary, ms, manifest, receipt, ciphertext)
    ensures Unsealed(t, ciphertext) == if |ms| < MAX_ENTRIES then Some(Payloads(t, manifest, ms)) else None
  {
    var all := Payloads(t, manifest, ms);
    PayloadsSafe(t, manifest, ms);
    assert t.unseal(ciphertext) == Some(t.writeTar(Items(all)));
    WrittenUnpacks(t, all);
    PayloadsOnly(t, manifest, ms);
  }

  lemma WrittenUnpacks(t: Tools, all: Members)
    requires Faithful(t) && AllStorable(all) && |t.writeTar(Items(all))| <= MAX_ARCHIVE
    ensures t.readTar(t.writeTar(Items(all))) == Some(AsEntries(Items(all)))
    ensures Unpackable(t, t.writeTar(Items(all))) <==> |all| <= MAX_ENTRIES
    ensures MapOf(AsEntries(Items(all))) == all
  {
    ItemsWritten(all);
    assert SumLengths(Items(all)) <= |t.writeTar(Items(all))|;
    PackedUnpacks(all);
    MapOfItems(all);
  }

  lemma PayloadsOnly(t: Tools, manifest: Manifest, ms: Members)
    requires MANIFEST !in ms
    ensures Payloads(t, manifest, ms) - {MANIFEST} == ms && |Payloads(t, manifest, ms)| == |ms| + 1
  {
    assert Payloads(t, manifest, ms).Keys == ms.Keys + {MANIFEST};
  }

  /** A delivery's manifest, members and images pass every check on opening. */
  lemma DeliveryMatches(t: Tools, summaryBytes: Bytes, summary: Summary, ms: Members, manifest: Manifest,
                        receipt: Receipt, ciphertext: Bytes)
    requires Faithful(t) && Delivered(t, summaryBytes, summary, ms, manifest, receipt, ciphertext)
    ensures ReceiptMatches(t, summaryBytes, receipt, ciphertext)
    ensures t.manifestOf(Payloads(t, manifest, ms)[MANIFEST]) == Some(manifest)
    ensures ManifestMatches(t, summaryBytes, summary, receipt, manifest, ms)
  {
    assert t.manifestOf(t.dumpManifest(manifest)) == Some(manifest);
  }

  /** Opening a delivery succeeds exactly when it has at least one module and at most 1025 members with its manifest,
      and yields exactly the bound picture of every module. */
  lemma DeliveryRoundTrip(t: Tools, summaryBytes: Bytes, summary: Summary, ms: Members, manifest: Manifest,
                          receipt: Receipt, ciphertext: Bytes)
    requires Faithful(t) && Delivered(t, summaryBytes, summary, ms, manifest, receipt, ciphertext)
    ensures Opens(t, summaryBytes, summary, receipt, ciphertext) <==>
      |ms| + 1 <= MAX_ENTRIES && CountModules(summary.requests) > 0
    ensures |ms| + 1 <= MAX_ENTRIES ==>
      Unsealed(t, ciphertext).Some? && Unsealed(t, ciphertext).value - {MANIFEST} == ms
  {
    UnsealedDelivery(t, summaryBytes, summary, ms, manifest, receipt, ciphertext);
    DeliveryMatches(t, summaryBytes, summary, ms, manifest, receipt, ciphertext);
    PayloadsOnly(t, manifest, ms);
  }

  ghost predicate Injective(t: Tools) {
    forall a, b :: t.hash(a) == t.hash(b) ==> a == b
  }

  lemma SameBytes(t: Tools, a: Bytes, b: Bytes)
    requires Injective(t) && Digest(t, a) == Digest(t, b)
    ensures a == b
  {
    assert Digest(t, a)[7..] == t.hash(a) && Digest(t, b)[7..] == t.hash(b);
  }

  /** With a collision-free hash, the modules alone determine the pictures that can be shown for them. */
  lemma {:induction false} ModulesDetermineImages(t: Tools, a: Members, b: Members, modules: seq<Module>)
    requires Injective(t) && AllImages(t, a, modules) && AllImages(t, b, modules)
    ensures ImagesOf(a, modules) == ImagesOf(b, modules)
  {
    forall i | 0 <= i < |modules|
      ensures ImageName(modules[i]) in a && ImageName(modules[i]) in b
      ensures a[ImageName(modules[i])] == b[ImageName(modules[i])]
    {
      assert ImageBound(t, a, modules[i]) && ImageBound(t, b, modules[i]);
      SameBytes(t, a[ImageName(modules[i])], b[ImageName(modules[i])]);
    }
    ImagesAgree(a, b, modules);
  }

  lemma {:induction false} ImagesAgree(a: Members, b: Members, modules: seq<Module>)
    requires forall i :: 0 <= i < |modules| ==>
      && ImageName(modules[i]) in a && ImageName(modules[i]) in b
      && a[ImageName(modules[i])] == b[ImageName(modules[i])]
    ensures ImagesOf(a, modules) == ImagesOf(b, modules)
  {
    if modules != [] {
      ImagesAgree(a, b, modules[..|modules| - 1]);
    }
  }

  lemma {:induction false} BoundModules(t: Tools, ms: Members, requests: seq<Request>)
    requires AllBound(t, ms, requests)
    ensures AllImages(t, ms, Modules(requests))
  {
    if requests != [] {
      BoundModules(t, ms, requests[..|requests| - 1]);
      assert AllImages(t, ms, requests[|requests| - 1].modules);
    }
  }

  /** With a collision-free hash, any two deliveries that open for one summary show the same pictures. */
  lemma SummaryDeterminesImages(t: Tools, summaryBytes: Bytes, summary: Summary, receipt: Receipt, ciphertext: Bytes,
                                receipt': Receipt, ciphertext': Bytes)
    requires Injective(t)
    requires Opens(t, summaryBytes, summary, receipt, ciphertext)
    requires Opens(t, summaryBytes, summary, receipt', ciphertext')
    ensures ImagesOf(Unsealed(t, ciphertext).value - {MANIFEST}, Modules(summary.requests)) ==
            ImagesOf(Unsealed(t, ciphertext').value - {MANIFEST}, Modules(summary.requests))
  {
    var a, b := Unsealed(t, ciphertext).value - {MANIFEST}, Unsealed(t, ciphertext').value - {MANIFEST};
    BoundModules(t, a, summary.requests);
    BoundModules(t, b, summary.requests);
    ModulesDetermineImages(t, a, b, Modules(summary.requests));
  }
}

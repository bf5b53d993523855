/** Reading the configuration of a loaded candidate back from the archive that Docker exports it as. */
module CandidateExport {
  import opened Bytes
  import opened OciAdmission
  import TarScan

  /** What a manifest states of its configuration; the size is the whole number it equals, however it is written. */
  datatype Stated = Stated(mediaType: Option<string>, digest: Option<string>, size: Option<int>)

  /** SHA-256 in hexadecimal, the tar library's listing and its reading of number fields, and the `config` object of a
      manifest that is a JSON object. */
  datatype Readings = Readings(
    hash: Bytes -> string,
    entries: Bytes -> Option<seq<Entry>>,
    nti: TarScan.NumberField,
    config: Bytes -> Option<Stated>)

  /** What follows the first colon. */
  function AfterColon(digest: string): string {
    if digest == "" then "" else if digest[0] == ':' then digest[1..] else AfterColon(digest[1..])
  }

  function ExportName(digest: string): string {
    "blobs/sha256/" + AfterColon(digest)
  }

  /** The name is taken from the digest after its first colon, */
  lemma {:induction false} AfterColonExact(algorithm: string, rest: string)
    requires ':' !in algorithm
    ensures AfterColon(algorithm + ":" + rest) == rest
  {
    var digest := algorithm + ":" + rest;
    if algorithm == "" {
      assert digest == ":" + rest && digest[1..] == rest;
    } else {
      AfterColonExact(algorithm[1..], rest);
      assert digest[1..] == algorithm[1..] + ":" + rest;
    }
  }

  /** so a pinned digest is exported where an image layout keeps the blob. */
  lemma ExportNameExact(digest: string)
    requires IsDigest(digest)
    ensures ExportName(digest) == BlobName(digest)
  {
    AfterColonExact("sha256", digest[|DIGEST_PREFIX|..]);
    assert digest == "sha256" + ":" + digest[|DIGEST_PREFIX|..];
  }

  /** Members under their names without "./"; nothing else is asked of a name here. */
  function Stripped(es: seq<Entry>): (ns: seq<Named>)
    ensures |ns| == |es|
    ensures forall i :: 0 <= i < |es| ==> ns[i] == Named(Some(StripDotSlash(es[i].name)), es[i].kind, es[i].data)
  {
    seq(|es|, i requires 0 <= i < |es| => Named(Some(StripDotSlash(es[i].name)), es[i].kind, es[i].data))
  }

  /** The regular members with a wanted name. */
  function Selected(ns: seq<Named>, wanted: set<string>): Members {
    map name | name in RegularMembers(ns) && name in wanted :: RegularMembers(ns)[name]
  }

  predicate Small(selected: Members) {
    forall name :: name in selected ==> |selected[name]| <= MAX_METADATA_BYTES
  }

  /** Two members are hashed to the pinned digests, and the one states the other as its configuration. */
  predicate Identifies(readings: Readings, digest: string, configDigest: string, manifest: Bytes, config: Bytes) {
    && DIGEST_PREFIX + readings.hash(config) == configDigest
    && DIGEST_PREFIX + readings.hash(manifest) == digest
    && readings.config(manifest) == Some(Stated(Some(OCI_CONFIG), Some(configDigest), Some(|config|)))
  }

  predicate ShowsConfig(readings: Readings, digest: string, configDigest: string, ns: seq<Named>) {
    && var members := RegularMembers(ns);
    && ExportName(digest) in members && ExportName(configDigest) in members
    && |members[ExportName(digest)]| <= MAX_METADATA_BYTES
    && |members[ExportName(configDigest)]| <= MAX_METADATA_BYTES
    && Identifies(readings, digest, configDigest, members[ExportName(digest)], members[ExportName(configDigest)])
  }

  /** A readable export of the pinned manifest together with the configuration it names. */
  ghost predicate Exports(readings: Readings, digest: string, configDigest: string, archive: Bytes) {
    && 0 < |archive| <= MAX_ARCHIVE_BYTES
    && TarScan.Admits(readings.nti, MAX_ARCHIVE_MEMBERS, archive)
    && readings.entries(archive).Some?
    && var ns := Stripped(readings.entries(archive).value);
       AdmissibleMembers(ns) && ShowsConfig(readings, digest, configDigest, ns)
  }

  // ---------------------------------------------------------------- the member loop

  ghost predicate SelectedSoFar(ns: seq<Named>, wanted: set<string>, n: nat, g: Gathered, selected: Members) {
    && n <= |ns| && AdmissibleMembers(ns[..n])
    && g == Gather(ns[..n])
    && selected == Selected(ns[..n], wanted) && Small(selected)
  }

  lemma SelectedStep(ns: seq<Named>, wanted: set<string>, n: nat)
    requires n < |ns| && ns[n].name.Some? && AdmissibleMembers(ns[..n])
    ensures Selected(ns[..n + 1], wanted) ==
      if ns[n].kind.Regular? && ns[n].name.value in wanted
      then Selected(ns[..n], wanted)[ns[n].name.value := ns[n].data] else Selected(ns[..n], wanted)
  {
    MembersStep(ns, n);
  }

  lemma {:induction false} RegularStays(ns: seq<Named>, n: nat)
    requires DistinctNames(ns) && n < |ns| && ns[n].kind.Regular? && ns[n].name.Some?
    ensures ns[n].name.value in RegularMembers(ns) && RegularMembers(ns)[ns[n].name.value] == ns[n].data
    decreases |ns|
  {
    if n < |ns| - 1 {
      RegularStays(ns[..|ns| - 1], n);
      assert ns[n].name != ns[|ns| - 1].name;
    }
  }

  /** A wanted member that is too large spoils the whole archive. */
  lemma TooLarge(ns: seq<Named>, wanted: set<string>, n: nat)
    requires n < |ns| && ns[n].kind.Regular? && ns[n].name.Some? && ns[n].name.value in wanted
    requires |ns[n].data| > MAX_METADATA_BYTES
    ensures !(AdmissibleMembers(ns) && Small(Selected(ns, wanted)))
  {
    if AdmissibleMembers(ns) {
      RegularStays(ns, n);
      assert Selected(ns, wanted)[ns[n].name.value] == ns[n].data;
    }
  }

  predicate Wanted(m: Named, wanted: set<string>) {
    m.kind.Regular? && m.name.Some? && m.name.value in wanted
  }

  /** One more member either spoils the whole archive or extends what has been gathered and selected. */
  lemma SelectedOneMore(ns: seq<Named>, wanted: set<string>, n: nat, g: Gathered, selected: Members)
    requires SelectedSoFar(ns, wanted, n, g, selected) && n < |ns| && ns[n].name.Some?
    ensures
      if !Fits(g, n, ns[n]) || (Wanted(ns[n], wanted) && |ns[n].data| > MAX_METADATA_BYTES)
      then !(AdmissibleMembers(ns) && Small(Selected(ns, wanted)))
      else SelectedSoFar(ns, wanted, n + 1, Enter(g, ns[n]),
                         if Wanted(ns[n], wanted) then selected[ns[n].name.value := ns[n].data] else selected)
  {
    GatherStep(ns, n);
    SelectedStep(ns, wanted, n);
    if Wanted(ns[n], wanted) && |ns[n].data| > MAX_METADATA_BYTES {
      TooLarge(ns, wanted, n);
    }
  }

  /** The members with the wanted names; directories are passed over, and other members only counted. */
  method SelectMembers(es: seq<Entry>, wanted: set<string>) returns (r: Result<Members>)
    ensures r.Success? <==> AdmissibleMembers(Stripped(es)) && Small(Selected(Stripped(es), wanted))
    ensures r.Success? ==> r.value == Selected(Stripped(es), wanted)
  {
    ghost var ns := Stripped(es);
    assert ns[..|ns|] == ns;
    var g := Gathered(map[], {}, {}, 0);
    var selected: Members := map[];
    var i := 0;
    while i < |es|
      invariant 0 <= i <= |es| && SelectedSoFar(ns, wanted, i, g, selected)
    {
      var m := Named(Some(StripDotSlash(es[i].name)), es[i].kind, es[i].data);
      assert m == ns[i];
      SelectedOneMore(ns, wanted, i, g, selected);
      if !Fits(g, i, m) {
        return Failure("exported candidate image contains too many, duplicate or non-regular members");
      }
      if m.kind.Regular? && m.name.value in wanted {
        if |m.data| > MAX_METADATA_BYTES {
          return Failure("exported candidate identity member is too large");
        }
        selected := selected[m.name.value := m.data];
      }
      g := Enter(g, m);
      i := i + 1;
    }
    return Success(selected);
  }

  /** The pinned configuration digest, from exactly the archives that show it. */
  method ReadExport(readings: Readings, digest: string, configDigest: string, archive: Bytes)
    returns (r: Result<string>)
    ensures r.Success? <==> Exports(readings, digest, configDigest, archive)
    ensures r.Success? ==> r.value == configDigest
  {
    if !(0 < |archive| <= MAX_ARCHIVE_BYTES) {
      return Failure("exported candidate image is too large or empty");
    }
    var source := new TarScan.Source(archive);
    var scanned := TarScan.ScanTarHeaders(readings.nti, source, |archive|, MAX_ARCHIVE_MEMBERS);
    assert archive[..|archive|] == archive;
    if scanned.Failure? {
      return Failure(scanned.reason);
    }
    var es := readings.entries(archive);
    if es.None? {
      return Failure("exported candidate image is not a readable OCI archive");
    }
    var manifestName, configName := ExportName(digest), ExportName(configDigest);
    var selected := SelectMembers(es.value, {manifestName, configName});
    if selected.Failure? {
      return Failure(selected.reason);
    }
    if selected.value.Keys != {manifestName, configName} {
      return Failure("exported candidate identity members are missing");
    }
    var config, manifest := selected.value[configName], selected.value[manifestName];
    if DIGEST_PREFIX + readings.hash(config) != configDigest || DIGEST_PREFIX + readings.hash(manifest) != digest {
      return Failure("exported candidate identity members do not match");
    }
    if readings.config(manifest) != Some(Stated(Some(OCI_CONFIG), Some(configDigest), Some(|config|))) {
      return Failure("exported candidate config identity changed");
    }
    return Success(configDigest);
  }

  /** With a collision-free hash, a manifest digest can be exported with one configuration digest only. */
  lemma ExportDetermines(readings: Readings, digest: string, one: string, other: string, a: Bytes, b: Bytes)
    requires forall x, y :: readings.hash(x) == readings.hash(y) ==> x == y
    requires Exports(readings, digest, one, a) && Exports(readings, digest, other, b)
    ensures one == other
  {
    var x := RegularMembers(Stripped(readings.entries(a).value))[ExportName(digest)];
    var y := RegularMembers(Stripped(readings.entries(b).value))[ExportName(digest)];
    assert (DIGEST_PREFIX + readings.hash(x))[|DIGEST_PREFIX|..] == readings.hash(x);
    assert (DIGEST_PREFIX + readings.hash(y))[|DIGEST_PREFIX|..] == readings.hash(y);
  }
}

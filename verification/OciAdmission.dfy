/** Admission of a candidate OCI archive ("oci-layout file" and "index.json file", OCI Image Layout Specification;
    `rootfs.diff_ids`, OCI Image Configuration). Library readings are parameters; see `Tools`. */
module OciAdmission {
  import opened Bytes
  import TarScan
  import Text

  const MAX_ARCHIVE_BYTES := 512 * 1024 * 1024
  const MAX_ARCHIVE_MEMBERS := 512
  const MAX_ARCHIVE_REGULAR_MEMBERS := 256
  const MAX_METADATA_BYTES := 16 * 1024 * 1024
  const MAX_LAYERS := 64
  const MAX_COMPRESSED_LAYER_BYTES := 128 * 1024 * 1024
  const MAX_TOTAL_COMPRESSED_LAYER_BYTES := 512 * 1024 * 1024
  const MAX_EXPANDED_LAYER_BYTES := 256 * 1024 * 1024
  const MAX_TOTAL_EXPANDED_LAYER_BYTES := 1024 * 1024 * 1024
  const MAX_LAYER_MEMBERS := 20000
  const MAX_TOTAL_LAYER_MEMBERS := 50000

  const OCI_INDEX := "application/vnd.oci.image.index.v1+json"
  const OCI_MANIFEST := "application/vnd.oci.image.manifest.v1+json"
  const OCI_CONFIG := "application/vnd.oci.image.config.v1+json"
  const OCI_GZIP_LAYER := "application/vnd.oci.image.layer.v1.tar+gzip"

  // ---------------------------------------------------------------- documents and tools

  datatype Kind = Directory | Regular | Special

  /** One member as the tar library lists it. */
  datatype Entry = Entry(name: string, kind: Kind, data: Bytes)

  datatype Platform = NoPlatform | LinuxAmd64 | OtherPlatform

  /** `None` for a field that is absent or of the wrong type. */
  datatype Descriptor = Descriptor(
    mediaType: Option<string>, digest: Option<string>, size: Option<int>, platform: Platform,
    refName: Option<string>, imageName: Option<string>)

  /** A JSON object, with the fields of every document kind; a `mediaType` that is not a string reads as some string
      that names no type. `layout` says that it is the version 1.0.0 layout and
      nothing else, `amd64` that architecture and system are plain linux/amd64; `runtime` is its runtime
      configuration as written, and `diffIds` the list of a `layers` root file system. */
  datatype Document = Document(
    layout: bool, schemaVersion: Option<int>, mediaType: Option<string>,
    manifests: Option<seq<Option<Descriptor>>>, config: Option<Descriptor>, layers: Option<seq<Option<Descriptor>>>,
    amd64: bool, runtime: string, diffIds: Option<seq<Option<string>>>)

  /** What a decoder gives before it ends or fails. */
  datatype Decoded<T> = Decoded(content: T, complete: bool)

  /** SHA-256 in hexadecimal, the tar library's listing, JSON objects, gzip, the tar library's count of a layer's
      members, and its reading of number fields. */
  datatype Tools = Tools(
    hash: Bytes -> string,
    entries: Bytes -> Option<seq<Entry>>,
    parse: Bytes -> Option<Document>,
    gunzip: Bytes -> Decoded<Bytes>,
    countMembers: Bytes -> Decoded<nat>,
    nti: TarScan.NumberField)

  datatype Pin = Pin(
    digest: string, configDigest: string, archiveTag: string, archiveReference: string, runtimeMatches: string -> bool)

  // ---------------------------------------------------------------- members

  function StripDotSlash(name: string): string {
    if "./" <= name then name[2..] else name
  }

  /** The name a member is entered under, unless it is empty, absolute or climbs. */
  function Normalized(raw: string): Option<string> {
    var name := StripDotSlash(raw);
    if "/" <= name || ".." in Text.Split(name)
       || (forall i :: 0 <= i < |Text.Split(name)| ==> Text.Split(name)[i] in {"", "."})
    then None else Some(name)
  }

  ghost predicate IsParts(parts: seq<string>) {
    parts != [] && forall i :: 0 <= i < |parts| ==> '/' !in parts[i]
  }

  lemma LeadingPart(parts: seq<string>, head: string)
    requires IsParts(parts) && '/' !in head
    ensures head + "/" <= Text.Slashed(parts) <==> |parts| > 1 && parts[0] == head
  {
    var name, first := Text.Slashed(parts), head + "/";
    if first <= name {
      Text.SplitAfter(head, name[|first|..]);
      Text.SplitUnique(parts);
      assert name == first + name[|first|..];
    }
    if |parts| > 1 && parts[0] == head {
      assert name == first + Text.Slashed(parts[1..]);
    }
  }

  lemma StripExact(name: string, rest: string)
    ensures StripDotSlash("./" + rest) == rest
    ensures !("./" <= name) ==> StripDotSlash(name) == name
  {
  }

  /** A name is taken without one leading "./", and refused when it is absolute, climbs or names nothing. */
  lemma NormalizedExact(raw: string, parts: seq<string>)
    requires IsParts(parts) && StripDotSlash(raw) == Text.Slashed(parts)
    ensures Normalized(raw).Some? <==>
      && (|parts| > 1 ==> parts[0] != "") && ".." !in parts
      && exists i :: 0 <= i < |parts| && parts[i] != "" && parts[i] != "."
    ensures Normalized(raw).Some? ==> Normalized(raw).value == Text.Slashed(parts)
  {
    var name := StripDotSlash(raw);
    Text.SplitUnique(parts);
    assert Text.Split(name) == parts;
    LeadingPart(parts, "");
    assert "" + "/" == "/";
    assert "/" <= name <==> |parts| > 1 && parts[0] == "";
  }

  /** A member under its normalized name. */
  datatype Named = Named(name: Option<string>, kind: Kind, data: Bytes)

  function NameAll(es: seq<Entry>): (ns: seq<Named>)
    ensures |ns| == |es| && forall i :: 0 <= i < |es| ==> ns[i] == Named(Normalized(es[i].name), es[i].kind, es[i].data)
  {
    seq(|es|, i requires 0 <= i < |es| => Named(Normalized(es[i].name), es[i].kind, es[i].data))
  }

  function CountRegular(ns: seq<Named>): nat {
    if ns == [] then 0 else CountRegular(ns[..|ns| - 1]) + if ns[|ns| - 1].kind.Regular? then 1 else 0
  }

  predicate DistinctNames(ns: seq<Named>) {
    forall i, j :: 0 <= i < j < |ns| ==> ns[i].name != ns[j].name
  }

  predicate AdmissibleMembers(ns: seq<Named>) {
    && |ns| <= MAX_ARCHIVE_MEMBERS
    && (forall i :: 0 <= i < |ns| ==> ns[i].name.Some? && !ns[i].kind.Special?)
    && DistinctNames(ns)
    && CountRegular(ns) <= MAX_ARCHIVE_REGULAR_MEMBERS
  }

  /** The regular members by name. */
  function RegularMembers(ns: seq<Named>): map<string, Bytes> {
    if ns == [] then map[]
    else
      var front, last := RegularMembers(ns[..|ns| - 1]), ns[|ns| - 1];
      if last.kind.Regular? && last.name.Some? then front[last.name.value := last.data] else front
  }

  function Directories(ns: seq<Named>): set<string> {
    set i | 0 <= i < |ns| && ns[i].kind.Directory? && ns[i].name.Some? :: ns[i].name.value
  }

  function NamesOf(ns: seq<Named>): set<Option<string>> {
    set i | 0 <= i < |ns| :: ns[i].name
  }

  lemma NamesStep(ns: seq<Named>, n: nat)
    requires n < |ns|
    ensures NamesOf(ns[..n + 1]) == NamesOf(ns[..n]) + {ns[n].name}
    ensures DistinctNames(ns[..n + 1]) <==> DistinctNames(ns[..n]) && ns[n].name !in NamesOf(ns[..n])
  {
    var front, longer := ns[..n], ns[..n + 1];
    assert longer == front + [ns[n]];
    if ns[n].name in NamesOf(front) {
      var i :| 0 <= i < n && front[i].name == ns[n].name;
      assert longer[i].name == longer[n].name;
    }
    if DistinctNames(longer) {
      assert forall i, j :: 0 <= i < j < n ==> longer[i].name != longer[j].name;
    }
  }

  /** One more member either spoils the list or extends everything that is collected from it. */
  lemma MembersStep(ns: seq<Named>, n: nat)
    requires n < |ns| && AdmissibleMembers(ns[..n])
    ensures AdmissibleMembers(ns[..n + 1]) <==>
      && n < MAX_ARCHIVE_MEMBERS && ns[n].name.Some? && ns[n].name !in NamesOf(ns[..n]) && !ns[n].kind.Special?
      && (ns[n].kind.Regular? ==> CountRegular(ns[..n]) < MAX_ARCHIVE_REGULAR_MEMBERS)
    ensures CountRegular(ns[..n + 1]) == CountRegular(ns[..n]) + if ns[n].kind.Regular? then 1 else 0
    ensures ns[n].name.Some? ==>
      && RegularMembers(ns[..n + 1]) ==
         (if ns[n].kind.Regular? then RegularMembers(ns[..n])[ns[n].name.value := ns[n].data]
          else RegularMembers(ns[..n]))
      && Directories(ns[..n + 1]) == Directories(ns[..n]) + if ns[n].kind.Directory? then {ns[n].name.value} else {}
  {
    NamesStep(ns, n);
    assert ns[..n + 1][..n] == ns[..n];
    assert ns[..n + 1] == ns[..n] + [ns[n]];
  }

  lemma {:induction false} CountRegularPrefix(ns: seq<Named>, n: nat)
    requires n <= |ns|
    ensures CountRegular(ns[..n]) <= CountRegular(ns)
    decreases |ns|
  {
    if n < |ns| {
      CountRegularPrefix(ns[..|ns| - 1], n);
      assert ns[..|ns| - 1][..n] == ns[..n];
    } else {
      assert ns[..n] == ns;
    }
  }

  lemma MembersPrefix(ns: seq<Named>, n: nat)
    requires n <= |ns| && AdmissibleMembers(ns)
    ensures AdmissibleMembers(ns[..n])
  {
    CountRegularPrefix(ns, n);
  }

  /** What the member loop has gathered. */
  datatype Gathered = Gathered(members: map<string, Bytes>, directories: set<string>, names: set<Option<string>>,
                               regular: nat)

  function Gather(ns: seq<Named>): Gathered {
    Gathered(RegularMembers(ns), Directories(ns), NamesOf(ns), CountRegular(ns))
  }

  /** Whether one more member is acceptable to what has been gathered. */
  predicate Fits(g: Gathered, n: nat, m: Named) {
    && n < MAX_ARCHIVE_MEMBERS && m.name.Some? && m.name !in g.names && !m.kind.Special?
    && (m.kind.Regular? ==> g.regular < MAX_ARCHIVE_REGULAR_MEMBERS)
  }

  function Enter(g: Gathered, m: Named): Gathered
    requires m.name.Some?
  {
    Gathered(if m.kind.Regular? then g.members[m.name.value := m.data] else g.members,
             if m.kind.Directory? then g.directories + {m.name.value} else g.directories,
             g.names + {m.name},
             if m.kind.Regular? then g.regular + 1 else g.regular)
  }

  lemma GatherStep(ns: seq<Named>, n: nat)
    requires n < |ns| && AdmissibleMembers(ns[..n])
    ensures AdmissibleMembers(ns[..n + 1]) <==> Fits(Gather(ns[..n]), n, ns[n])
    ensures AdmissibleMembers(ns) ==> Fits(Gather(ns[..n]), n, ns[n])
    ensures ns[n].name.Some? ==> Gather(ns[..n + 1]) == Enter(Gather(ns[..n]), ns[n])
  {
    MembersStep(ns, n);
    NamesStep(ns, n);
    if AdmissibleMembers(ns) {
      MembersPrefix(ns, n + 1);
    }
  }

  ghost predicate GatheredSoFar(ns: seq<Named>, n: nat, g: Gathered) {
    n <= |ns| && AdmissibleMembers(ns[..n]) && g == Gather(ns[..n])
  }

  /** One more member either spoils the whole list or extends what has been gathered. */
  lemma GatherOneMore(ns: seq<Named>, n: nat, g: Gathered)
    requires GatheredSoFar(ns, n, g) && n < |ns|
    ensures if Fits(g, n, ns[n]) then GatheredSoFar(ns, n + 1, Enter(g, ns[n])) else !AdmissibleMembers(ns)
  {
    GatherStep(ns, n);
  }

  lemma GatheredAll(ns: seq<Named>, g: Gathered)
    requires GatheredSoFar(ns, |ns|, g)
    ensures AdmissibleMembers(ns) && g.members == RegularMembers(ns) && g.directories == Directories(ns)
  {
    assert ns[..|ns|] == ns;
  }

  /** One pass of the loop over the archive's members. */
  method CollectMember(g: Gathered, n: nat, m: Named) returns (r: Result<Gathered>)
    ensures r.Success? <==> Fits(g, n, m)
    ensures r.Success? ==> r.value == Enter(g, m)
  {
    if n + 1 > MAX_ARCHIVE_MEMBERS || m.name.None? || m.name in g.names {
      return Failure("OCI archive contains too many, unsafe or duplicate members");
    }
    if m.kind.Special? || (m.kind.Regular? && g.regular + 1 > MAX_ARCHIVE_REGULAR_MEMBERS) {
      return Failure("OCI archive contains a non-regular member or too many regular members");
    }
    return Success(Enter(g, m));
  }

  /** The loop over the archive's members. */
  method CollectMembers(es: seq<Entry>) returns (r: Result<(map<string, Bytes>, set<string>)>)
    ensures r.Success? <==> AdmissibleMembers(NameAll(es))
    ensures r.Success? ==>
      r.value.0 == RegularMembers(NameAll(es)) && r.value.1 == Directories(NameAll(es))
  {
    ghost var ns := NameAll(es);
    var g := Gathered(map[], {}, {}, 0);
    var i := 0;
    while i < |es|
      invariant 0 <= i <= |es| && GatheredSoFar(ns, i, g)
    {
      GatherOneMore(ns, i, g);
      var collected := CollectMember(g, i, Named(Normalized(es[i].name), es[i].kind, es[i].data));
      if collected.Failure? {
        return Failure(collected.reason);
      }
      g := collected.value;
      i := i + 1;
    }
    GatheredAll(ns, g);
    return Success((g.members, g.directories));
  }

  // ---------------------------------------------------------------- blobs

  const DIGEST_PREFIX := "sha256:"

  predicate IsHex(s: string) {
    |s| == 64 && forall i :: 0 <= i < |s| ==> '0' <= s[i] <= '9' || 'a' <= s[i] <= 'f'
  }

  predicate IsDigest(s: string) {
    DIGEST_PREFIX <= s && IsHex(s[|DIGEST_PREFIX|..])
  }

  function BlobName(digest: string): string
    requires IsDigest(digest)
  {
    "blobs/sha256/" + digest[|DIGEST_PREFIX|..]
  }

  type Members = map<string, Bytes>

  /** The blob a descriptor names is there, with the size and digest it states. */
  predicate BlobMatches(tools: Tools, members: Members, d: Descriptor, limit: nat) {
    && d.digest.Some? && IsDigest(d.digest.value) && d.size.Some?
    && BlobName(d.digest.value) in members
    && |members[BlobName(d.digest.value)]| == d.size.value <= limit
    && DIGEST_PREFIX + tools.hash(members[BlobName(d.digest.value)]) == d.digest.value
  }

  function BlobOf(members: Members, d: Descriptor): Bytes
    requires d.digest.Some? && IsDigest(d.digest.value) && BlobName(d.digest.value) in members
  {
    members[BlobName(d.digest.value)]
  }

  /** A metadata blob, matched and decoded. */
  function DocumentOf(tools: Tools, members: Members, d: Descriptor): Option<Document> {
    if BlobMatches(tools, members, d, MAX_METADATA_BYTES) then tools.parse(BlobOf(members, d)) else None
  }

  function MemberDocument(tools: Tools, members: Members, name: string): Option<Document> {
    if name in members && |members[name]| <= MAX_METADATA_BYTES then tools.parse(members[name]) else None
  }

  // ---------------------------------------------------------------- the walk

  predicate HasMediaType(doc: Document, expected: string) {
    doc.schemaVersion == Some(2) && doc.mediaType in {None, Some(expected)}
  }

  /** The one descriptor of an index. */
  function OnlyManifest(doc: Document): Option<Descriptor> {
    if HasMediaType(doc, OCI_INDEX) && doc.manifests.Some? && |doc.manifests.value| == 1 then doc.manifests.value[0]
    else None
  }

  /** The layout file and the index name the candidate. */
  function TopDescriptor(tools: Tools, pin: Pin, members: Members): Option<Descriptor> {
    match (MemberDocument(tools, members, "oci-layout"), MemberDocument(tools, members, "index.json"))
    case (Some(layout), Some(index)) =>
      (match OnlyManifest(index)
       case Some(d) =>
         if layout.layout && d.refName == Some(pin.archiveTag) && d.imageName == Some(pin.archiveReference)
         then Some(d) else None
       case None => None)
    case _ => None
  }

  /** From the index, directly or through one nested index, to the manifest's own descriptor. */
  function ManifestDescriptor(tools: Tools, members: Members, top: Descriptor): Option<Descriptor> {
    if top.mediaType != Some(OCI_INDEX) then if top.platform.LinuxAmd64? then Some(top) else None
    else if !top.platform.NoPlatform? then None
    else
      match DocumentOf(tools, members, top)
      case None => None
      case Some(doc) =>
        match OnlyManifest(doc)
        case None => None
        case Some(d) => if d.platform.LinuxAmd64? then Some(d) else None
  }

  /** The pinned manifest. */
  function ManifestDocument(tools: Tools, pin: Pin, members: Members, d: Descriptor): Option<Document> {
    match DocumentOf(tools, members, d)
    case None => None
    case Some(doc) =>
      if d.mediaType == Some(OCI_MANIFEST) && HasMediaType(doc, OCI_MANIFEST) && d.digest == Some(pin.digest)
      then Some(doc) else None
  }

  /** The pinned configuration of a manifest. */
  function ConfigDocument(tools: Tools, pin: Pin, members: Members, manifest: Document): Option<Document> {
    if manifest.config.None? then None
    else
      match DocumentOf(tools, members, manifest.config.value)
      case None => None
      case Some(doc) =>
        if manifest.config.value.mediaType == Some(OCI_CONFIG) && manifest.config.value.digest == Some(pin.configDigest)
           && doc.amd64 && pin.runtimeMatches(doc.runtime)
        then Some(doc) else None
  }

  /** A layer descriptor with its diff ID. */
  datatype Layer = Layer(descriptor: Descriptor, diffId: string)

  function DeclaredSizes(ls: seq<Layer>): int {
    if ls == [] then 0
    else
      var d := ls[|ls| - 1].descriptor;
      DeclaredSizes(ls[..|ls| - 1]) + if d.size.Some? then d.size.value else 0
  }

  predicate PlausibleLayer(d: Option<Descriptor>) {
    d.Some? && d.value.size.Some? && 0 <= d.value.size.value <= MAX_COMPRESSED_LAYER_BYTES
  }

  /** The layers of a manifest paired with the diff IDs of its configuration. */
  function LayersOf(manifest: Document, config: Document): Option<seq<Layer>> {
    if manifest.layers.None? || config.diffIds.None? then None
    else
      var ds, ids := manifest.layers.value, config.diffIds.value;
      if !(1 <= |ds| <= MAX_LAYERS) || |ids| != |ds| then None
      else if exists i :: 0 <= i < |ds| && (!PlausibleLayer(ds[i]) || ids[i].None? || !IsDigest(ids[i].value)) then None
      else
        var ls := seq(|ds|, i requires 0 <= i < |ds| => Layer(ds[i].value, ids[i].value));
        if DeclaredSizes(ls) > MAX_TOTAL_COMPRESSED_LAYER_BYTES then None else Some(ls)
  }

  /** Everything the descriptors lead to before the layers are opened. */
  datatype Walk = Walk(top: Descriptor, manifest: Descriptor, config: Descriptor, layers: seq<Layer>)

  function WalkFrom(tools: Tools, pin: Pin, members: Members): Option<Walk> {
    match TopDescriptor(tools, pin, members)
    case None => None
    case Some(top) =>
      if DocumentOf(tools, members, top).None? then None
      else
        match ManifestDescriptor(tools, members, top)
        case None => None
        case Some(d) =>
          match ManifestDocument(tools, pin, members, d)
          case None => None
          case Some(manifest) =>
            match ConfigDocument(tools, pin, members, manifest)
            case None => None
            case Some(config) =>
              match LayersOf(manifest, config)
              case None => None
              case Some(layers) => Some(Walk(top, d, manifest.config.value, layers))
  }

  // ---------------------------------------------------------------- layers

  function Expansion(tools: Tools, members: Members, d: Descriptor): Bytes
    requires d.digest.Some? && IsDigest(d.digest.value) && BlobName(d.digest.value) in members
  {
    tools.gunzip(BlobOf(members, d)).content
  }

  /** One layer, taken by itself. */
  ghost predicate LayerAdmitted(tools: Tools, members: Members, l: Layer) {
    && l.descriptor.mediaType == Some(OCI_GZIP_LAYER)
    && BlobMatches(tools, members, l.descriptor, MAX_COMPRESSED_LAYER_BYTES)
    && tools.gunzip(BlobOf(members, l.descriptor)).complete
    && var expanded := Expansion(tools, members, l.descriptor);
       && |expanded| <= MAX_EXPANDED_LAYER_BYTES
       && DIGEST_PREFIX + tools.hash(expanded) == l.diffId
       && TarScan.Admits(tools.nti, MAX_LAYER_MEMBERS, expanded)
       && tools.countMembers(expanded).complete && tools.countMembers(expanded).content <= MAX_LAYER_MEMBERS
  }

  /** Expanded bytes and members over all layers. */
  datatype Totals = Totals(expanded: nat, members: nat)

  function TotalsOf(tools: Tools, members: Members, ls: seq<Layer>): Totals {
    if ls == [] then Totals(0, 0)
    else
      var front, d := TotalsOf(tools, members, ls[..|ls| - 1]), ls[|ls| - 1].descriptor;
      if d.digest.Some? && IsDigest(d.digest.value) && BlobName(d.digest.value) in members then
        var expanded := Expansion(tools, members, d);
        Totals(front.expanded + |expanded|, front.members + tools.countMembers(expanded).content)
      else front
  }

  ghost predicate LayersAdmitted(tools: Tools, members: Members, ls: seq<Layer>) {
    && (forall i :: 0 <= i < |ls| ==> LayerAdmitted(tools, members, ls[i]))
    && TotalsOf(tools, members, ls).expanded <= MAX_TOTAL_EXPANDED_LAYER_BYTES
    && TotalsOf(tools, members, ls).members <= MAX_TOTAL_LAYER_MEMBERS
  }

  /** The names a walk uses. */
  ghost function Reachable(w: Walk): set<string> {
    {"oci-layout", "index.json"}
    + BlobNames([w.top, w.manifest, w.config]) + LayerNames(w.layers)
  }

  function BlobNames(ds: seq<Descriptor>): set<string> {
    set i | 0 <= i < |ds| && ds[i].digest.Some? && IsDigest(ds[i].digest.value) :: BlobName(ds[i].digest.value)
  }

  function LayerNames(ls: seq<Layer>): set<string> {
    set i | 0 <= i < |ls| && ls[i].descriptor.digest.Some? && IsDigest(ls[i].descriptor.digest.value)
      :: BlobName(ls[i].descriptor.digest.value)
  }

  /** The directories above a name. */
  function Parents(name: string): set<string> {
    set i | 0 <= i < |name| && name[i] == '/' :: name[..i]
  }

  function AllParents(names: set<string>): set<string> {
    set name, parent | name in names && parent in Parents(name) :: parent
  }

  /** The members are one pinned image and nothing else. */
  ghost predicate HoldsImage(tools: Tools, pin: Pin, members: Members, directories: set<string>) {
    && WalkFrom(tools, pin, members).Some?
    && var w := WalkFrom(tools, pin, members).value;
       && LayersAdmitted(tools, members, w.layers)
       && members.Keys == Reachable(w)
       && directories <= AllParents(Reachable(w))
  }

  ghost predicate Accepts(tools: Tools, pin: Pin, archive: Bytes) {
    && 0 < |archive| <= MAX_ARCHIVE_BYTES
    && !([0x1f, 0x8b] <= archive)
    && TarScan.Admits(tools.nti, MAX_ARCHIVE_MEMBERS, archive)
    && tools.entries(archive).Some?
    && var ns := NameAll(tools.entries(archive).value);
       AdmissibleMembers(ns) && HoldsImage(tools, pin, RegularMembers(ns), Directories(ns))
  }

  // ---------------------------------------------------------------- expanding a layer

  /** Reads a gzip stream in pieces; an invalid stream raises somewhere. */
  class GzipReader {
    const decoded: Decoded<Bytes>
    var position: nat

    constructor (decoded: Decoded<Bytes>)
      ensures this.decoded == decoded && position == 0
    {
      this.decoded := decoded;
      position := 0;
    }

    method Read(n: nat) returns (chunk: Bytes, ok: bool)
      requires n > 0 && position <= |decoded.content|
      modifies this
      ensures !ok ==> !decoded.complete
      ensures ok ==>
        && old(position) <= position <= |decoded.content| && |chunk| <= n
        && chunk == decoded.content[old(position)..position]
        && (chunk == [] ==> old(position) == |decoded.content| && decoded.complete)
    {
      if position == |decoded.content| {
        return [], decoded.complete;
      }
      ok := *;
      if !decoded.complete && !ok {
        return [], false;
      }
      var k: nat :| 1 <= k <= n && position + k <= |decoded.content|;
      chunk, ok := decoded.content[position..position + k], true;
      position := position + k;
    }
  }

  /** The temporary file of the current layer and the image's running total; `Write` states both budgets. */
  class Sink {
    var written: Bytes
    var total: nat

    constructor ()
      ensures written == [] && total == 0
    {
      written, total := [], 0;
    }

    method StartLayer()
      modifies this
      ensures written == [] && total == old(total)
    {
      written := [];
    }

    method Write(chunk: Bytes)
      requires |written| + |chunk| <= MAX_EXPANDED_LAYER_BYTES
      requires total + |chunk| <= MAX_TOTAL_EXPANDED_LAYER_BYTES
      modifies this
      ensures written == old(written) + chunk && total == old(total) + |chunk|
    {
      written, total := written + chunk, total + |chunk|;
    }
  }

  /** However the stream is chunked, the layer is written whole or the budgets stop it first. */
  method ExpandLayer(reader: GzipReader, sink: Sink) returns (r: Result<()>)
    requires reader.position == 0 && sink.total <= MAX_TOTAL_EXPANDED_LAYER_BYTES
    modifies reader, sink
    ensures r.Success? <==>
      && reader.decoded.complete
      && |reader.decoded.content| <= MAX_EXPANDED_LAYER_BYTES
      && old(sink.total) + |reader.decoded.content| <= MAX_TOTAL_EXPANDED_LAYER_BYTES
    ensures r.Success? ==>
      sink.written == reader.decoded.content && sink.total == old(sink.total) + |reader.decoded.content|
    ensures |sink.written| <= MAX_EXPANDED_LAYER_BYTES && sink.total <= MAX_TOTAL_EXPANDED_LAYER_BYTES
  {
    sink.StartLayer();
    ghost var content := reader.decoded.content;
    while true
      invariant reader.position <= |content| && sink.written == content[..reader.position]
      invariant sink.total == old(sink.total) + reader.position
      invariant |sink.written| <= MAX_EXPANDED_LAYER_BYTES && sink.total <= MAX_TOTAL_EXPANDED_LAYER_BYTES
      decreases |content| - reader.position
    {
      ghost var before := reader.position;
      var chunk, ok := reader.Read(1024 * 1024);
      if !ok {
        return Failure("OCI layer is not valid gzip content");
      }
      if chunk == [] {
        return Success(());
      }
      if |sink.written| + |chunk| > MAX_EXPANDED_LAYER_BYTES {
        return Failure("OCI expanded layer is too large");
      }
      if sink.total + |chunk| > MAX_TOTAL_EXPANDED_LAYER_BYTES {
        return Failure("OCI aggregate expanded layers are too large");
      }
      sink.Write(chunk);
      assert content[..before] + content[before..reader.position] == content[..reader.position];
    }
  }

  /** Counts a layer's members against its own budget and the image's. */
  method CountLayerMembers(listing: Decoded<nat>, before: nat) returns (r: Result<nat>)
    requires before <= MAX_TOTAL_LAYER_MEMBERS
    ensures r.Success? <==>
      listing.complete && listing.content <= MAX_LAYER_MEMBERS && before + listing.content <= MAX_TOTAL_LAYER_MEMBERS
    ensures r.Success? ==> r.value == before + listing.content
  {
    var count: nat := 0;
    while count < listing.content
      invariant count <= listing.content
      invariant count <= MAX_LAYER_MEMBERS && before + count <= MAX_TOTAL_LAYER_MEMBERS
    {
      count := count + 1;
      if count > MAX_LAYER_MEMBERS {
        return Failure("OCI layer contains too many members");
      }
      if before + count > MAX_TOTAL_LAYER_MEMBERS {
        return Failure("OCI aggregate layer members are too large");
      }
    }
    if !listing.complete {
      return Failure("OCI layer is not a readable tar archive");
    }
    return Success(before + count);
  }

  // ---------------------------------------------------------------- the inspection

  class Inspection {
    const tools: Tools
    const members: Members
    var reachable: set<string>

    constructor (tools: Tools, members: Members)
      ensures this.tools == tools && this.members == members && reachable == {"oci-layout", "index.json"}
    {
      this.tools, this.members := tools, members;
      reachable := {"oci-layout", "index.json"};
    }

    /** Reads a blob in full and records that it is needed. */
    method DescriptorBlob(d: Descriptor, limit: nat) returns (r: Result<Bytes>)
      modifies this
      ensures r.Success? <==> BlobMatches(tools, members, d, limit)
      ensures r.Success? ==> r.value == BlobOf(members, d) && reachable == old(reachable) + BlobNames([d])
    {
      if d.digest.None? || !IsDigest(d.digest.value) || d.size.None? {
        return Failure("OCI descriptor digest or size changed");
      }
      var name := BlobName(d.digest.value);
      if name !in members {
        return Failure("OCI archive member is missing");
      }
      if |members[name]| != d.size.value || |members[name]| > limit {
        return Failure("OCI descriptor size does not match its blob");
      }
      reachable := reachable + {name};
      if DIGEST_PREFIX + tools.hash(members[name]) != d.digest.value {
        return Failure("OCI descriptor digest does not match its blob");
      }
      assert BlobNames([d]) == {name} by {
        assert [d][0] == d;
      }
      return Success(members[name]);
    }

    method ReadDescriptor(d: Descriptor) returns (r: Result<Document>)
      modifies this
      ensures r.Success? <==> DocumentOf(tools, members, d).Some?
      ensures r.Success? ==>
        r.value == DocumentOf(tools, members, d).value && reachable == old(reachable) + BlobNames([d])
    {
      var raw := DescriptorBlob(d, MAX_METADATA_BYTES);
      if raw.Failure? {
        return Failure(raw.reason);
      }
      var doc := tools.parse(raw.value);
      return if doc.None? then Failure("OCI descriptor blob must be a JSON object") else Success(doc.value);
    }

    /** Follows the descriptors from the index to the layers, recording every blob on the way. */
    method FindWalk(pin: Pin) returns (r: Result<Walk>)
      modifies this
      ensures r.Success? <==> WalkFrom(tools, pin, members).Some?
      ensures r.Success? ==>
        && r.value == WalkFrom(tools, pin, members).value
        && reachable == old(reachable) + BlobNames([r.value.top, r.value.manifest, r.value.config])
    {
      var top := TopDescriptor(tools, pin, members);
      if top.None? {
        return Failure("OCI layout, index or annotations changed");
      }
      var topDocument := ReadDescriptor(top.value);
      if topDocument.Failure? {
        return Failure(topDocument.reason);
      }
      var d := ManifestDescriptor(tools, members, top.value);
      if d.None? {
        return Failure("OCI image index or candidate platform changed");
      }
      var manifestDocument := ReadDescriptor(d.value);
      var manifest := ManifestDocument(tools, pin, members, d.value);
      if manifestDocument.Failure? || manifest.None? {
        return Failure("OCI manifest does not match the candidate pin");
      }
      if manifest.value.config.None? {
        return Failure("OCI image config descriptor is missing");
      }
      var configDocument := ReadDescriptor(manifest.value.config.value);
      var config := ConfigDocument(tools, pin, members, manifest.value);
      if configDocument.Failure? || config.None? {
        return Failure("OCI config does not match the candidate pin");
      }
      var layers := LayersOf(manifest.value, config.value);
      if layers.None? {
        return Failure("OCI image layers or rootfs diff IDs changed");
      }
      var w := Walk(top.value, d.value, manifest.value.config.value, layers.value);
      BlobNamesThree(w.top, w.manifest, w.config);
      return Success(w);
    }

    /** One layer: its blob, its expansion, its diff ID, its headers and its members. */
    method InspectLayer(l: Layer, sink: Sink, before: nat) returns (r: Result<nat>)
      requires sink.total <= MAX_TOTAL_EXPANDED_LAYER_BYTES && before <= MAX_TOTAL_LAYER_MEMBERS
      modifies this, sink
      ensures sink.total <= MAX_TOTAL_EXPANDED_LAYER_BYTES
      ensures r.Success? <==>
        && LayerAdmitted(tools, members, l)
        && old(sink.total) + |Expansion(tools, members, l.descriptor)| <= MAX_TOTAL_EXPANDED_LAYER_BYTES
        && before + tools.countMembers(Expansion(tools, members, l.descriptor)).content <= MAX_TOTAL_LAYER_MEMBERS
      ensures r.Success? ==>
        && reachable == old(reachable) + BlobNames([l.descriptor])
        && sink.written == Expansion(tools, members, l.descriptor)
        && sink.total == old(sink.total) + |Expansion(tools, members, l.descriptor)|
        && r.value == before + tools.countMembers(Expansion(tools, members, l.descriptor)).content
    {
      if l.descriptor.mediaType != Some(OCI_GZIP_LAYER) {
        return Failure("OCI layer media type changed");
      }
      var compressed := DescriptorBlob(l.descriptor, MAX_COMPRESSED_LAYER_BYTES);
      if compressed.Failure? {
        return Failure(compressed.reason);
      }
      var reader := new GzipReader(tools.gunzip(compressed.value));
      var expanded := ExpandLayer(reader, sink);
      if expanded.Failure? {
        return Failure(expanded.reason);
      }
      if DIGEST_PREFIX + tools.hash(sink.written) != l.diffId {
        return Failure("OCI layer does not match its rootfs diff ID");
      }
      var source := new TarScan.Source(sink.written);
      var scanned := TarScan.ScanTarHeaders(tools.nti, source, |sink.written|, MAX_LAYER_MEMBERS);
      assert source.content[..|source.content|] == source.content;
      if scanned.Failure? {
        return Failure(scanned.reason);
      }
      r := CountLayerMembers(tools.countMembers(sink.written), before);
    }
  }

  lemma LayersStep(tools: Tools, members: Members, ls: seq<Layer>, n: nat)
    requires n < |ls| && LayersAdmitted(tools, members, ls[..n])
    ensures LayerAdmitted(tools, members, ls[n]) ==>
      var expanded := Expansion(tools, members, ls[n].descriptor);
      TotalsOf(tools, members, ls[..n + 1]) ==
      Totals(TotalsOf(tools, members, ls[..n]).expanded + |expanded|,
             TotalsOf(tools, members, ls[..n]).members + tools.countMembers(expanded).content)
    ensures LayersAdmitted(tools, members, ls[..n + 1]) <==>
      && LayerAdmitted(tools, members, ls[n])
      && TotalsOf(tools, members, ls[..n + 1]).expanded <= MAX_TOTAL_EXPANDED_LAYER_BYTES
      && TotalsOf(tools, members, ls[..n + 1]).members <= MAX_TOTAL_LAYER_MEMBERS
    ensures LayerNames(ls[..n + 1]) == LayerNames(ls[..n]) + BlobNames([ls[n].descriptor])
  {
    var front, longer := ls[..n], ls[..n + 1];
    assert longer[..n] == front && longer == front + [ls[n]];
    assert [ls[n].descriptor][0] == ls[n].descriptor;
  }

  /** Totals only grow, so budgets kept at the end were kept after every layer. */
  lemma {:induction false} TotalsPrefix(tools: Tools, members: Members, ls: seq<Layer>, n: nat)
    requires n <= |ls|
    ensures TotalsOf(tools, members, ls[..n]).expanded <= TotalsOf(tools, members, ls).expanded
    ensures TotalsOf(tools, members, ls[..n]).members <= TotalsOf(tools, members, ls).members
    decreases |ls|
  {
    if n < |ls| {
      TotalsPrefix(tools, members, ls[..|ls| - 1], n);
      assert ls[..|ls| - 1][..n] == ls[..n];
    } else {
      assert ls[..n] == ls;
    }
  }

  lemma LayersPrefix(tools: Tools, members: Members, ls: seq<Layer>, n: nat)
    requires n <= |ls| && LayersAdmitted(tools, members, ls)
    ensures LayersAdmitted(tools, members, ls[..n])
  {
    TotalsPrefix(tools, members, ls, n);
  }

  /** The loop over layers, with one sink and one member count for the whole image. */
  method InspectLayers(inspection: Inspection, ls: seq<Layer>) returns (r: Result<Totals>)
    modifies inspection
    ensures r.Success? <==> LayersAdmitted(inspection.tools, inspection.members, ls)
    ensures r.Success? ==>
      && r.value == TotalsOf(inspection.tools, inspection.members, ls)
      && inspection.reachable == old(inspection.reachable) + LayerNames(ls)
  {
    var sink := new Sink();
    var counted: nat := 0;
    var i := 0;
    assert ls[..|ls|] == ls;
    while i < |ls|
      invariant 0 <= i <= |ls| && LayersAdmitted(inspection.tools, inspection.members, ls[..i])
      invariant Totals(sink.total, counted) == TotalsOf(inspection.tools, inspection.members, ls[..i])
      invariant inspection.reachable == old(inspection.reachable) + LayerNames(ls[..i])
      invariant fresh(sink)
    {
      LayersStep(inspection.tools, inspection.members, ls, i);
      if LayersAdmitted(inspection.tools, inspection.members, ls) {
        LayersPrefix(inspection.tools, inspection.members, ls, i + 1);
      }
      var inspected := inspection.InspectLayer(ls[i], sink, counted);
      if inspected.Failure? {
        return Failure(inspected.reason);
      }
      counted := inspected.value;
      i := i + 1;
    }
    return Success(Totals(sink.total, counted));
  }

  /** Walks the image, expands its layers, and then demands that nothing is left over. */
  method InspectMembers(tools: Tools, pin: Pin, members: Members, directories: set<string>) returns (r: Result<()>)
    ensures r.Success? <==> HoldsImage(tools, pin, members, directories)
  {
    var inspection := new Inspection(tools, members);
    var walk := inspection.FindWalk(pin);
    if walk.Failure? {
      return Failure(walk.reason);
    }
    var layers := InspectLayers(inspection, walk.value.layers);
    if layers.Failure? {
      return Failure(layers.reason);
    }
    if members.Keys != inspection.reachable {
      return Failure("OCI archive contains an unreferenced regular member");
    }
    if !(directories <= AllParents(inspection.reachable)) {
      return Failure("OCI archive contains an unreferenced directory member");
    }
    return Success(());
  }

  /** The archive is accepted exactly when the declarative conditions hold. */
  method InspectOciArchive(tools: Tools, pin: Pin, archive: Bytes) returns (r: Result<(string, string)>)
    ensures r.Success? <==> Accepts(tools, pin, archive)
    ensures r.Success? ==> r.value == (pin.digest, pin.configDigest)
  {
    if !(0 < |archive| <= MAX_ARCHIVE_BYTES) {
      return Failure("OCI archive is too large or empty");
    }
    if [0x1f, 0x8b] <= archive {
      return Failure("outer wrapper must be uncompressed");
    }
    var source := new TarScan.Source(archive);
    var scanned := TarScan.ScanTarHeaders(tools.nti, source, |archive|, MAX_ARCHIVE_MEMBERS);
    assert archive[..|archive|] == archive;
    if scanned.Failure? {
      return Failure(scanned.reason);
    }
    var es := tools.entries(archive);
    if es.None? {
      return Failure("candidate archive is not a readable OCI archive");
    }
    var collected := CollectMembers(es.value);
    if collected.Failure? {
      return Failure(collected.reason);
    }
    var (members, directories) := collected.value;
    var inspected := InspectMembers(tools, pin, members, directories);
    if inspected.Failure? {
      return Failure(inspected.reason);
    }
    return Success((pin.digest, pin.configDigest));
  }

  lemma BlobNamesThree(a: Descriptor, b: Descriptor, c: Descriptor)
    ensures BlobNames([a, b, c]) == BlobNames([a]) + BlobNames([b]) + BlobNames([c])
  {
    var all := [a, b, c];
    assert all[0] == a && all[1] == b && all[2] == c;
    assert [a][0] == a && [b][0] == b && [c][0] == c;
  }

  // ---------------------------------------------------------------- what acceptance means

  ghost predicate Holds(ns: seq<Named>, name: string) {
    exists i :: 0 <= i < |ns| && ns[i].kind.Regular? && ns[i].name == Some(name)
  }

  lemma {:induction false} RegularMembersExact(ns: seq<Named>, name: string)
    requires AdmissibleMembers(ns)
    ensures name in RegularMembers(ns) <==> Holds(ns, name)
    ensures forall i :: 0 <= i < |ns| && ns[i].kind.Regular? && ns[i].name == Some(name) ==>
      RegularMembers(ns)[name] == ns[i].data
    decreases |ns|
  {
    if ns != [] {
      var front, last := ns[..|ns| - 1], ns[|ns| - 1];
      MembersPrefix(ns, |ns| - 1);
      RegularMembersExact(front, name);
      assert forall i :: 0 <= i < |front| ==> front[i] == ns[i] && ns[i].name != last.name;
    }
  }

  /** The only directories above a blob. */
  lemma BlobParents(digest: string)
    requires IsDigest(digest)
    ensures Parents(BlobName(digest)) == {"blobs", "blobs/sha256"}
  {
    var name := BlobName(digest);
    var prefix := "blobs/sha256/";
    assert name[..|prefix|] == prefix;
    assert forall i :: 0 <= i < |prefix| ==> name[i] == prefix[i];
    assert forall i :: |prefix| <= i < |name| ==> name[i] == digest[|DIGEST_PREFIX|..][i - |prefix|];
    assert name[5] == '/' && name[..5] == "blobs";
    assert name[12] == '/' && name[..12] == "blobs/sha256";
    assert forall i :: 0 <= i < |name| && name[i] == '/' ==> i == 5 || i == 12;
  }

  /** What the descriptors and the layers of an accepted archive come to. */
  ghost predicate Sound(tools: Tools, pin: Pin, members: Members, w: Walk) {
    && BlobMatches(tools, members, w.top, MAX_METADATA_BYTES)
    && BlobMatches(tools, members, w.manifest, MAX_METADATA_BYTES) && w.manifest.digest == Some(pin.digest)
    && BlobMatches(tools, members, w.config, MAX_METADATA_BYTES) && w.config.digest == Some(pin.configDigest)
    && forall i :: 0 <= i < |w.layers| ==> LayerAdmitted(tools, members, w.layers[i])
  }

  lemma WalkSound(tools: Tools, pin: Pin, members: Members)
    requires WalkFrom(tools, pin, members).Some?
    requires LayersAdmitted(tools, members, WalkFrom(tools, pin, members).value.layers)
    ensures Sound(tools, pin, members, WalkFrom(tools, pin, members).value)
  {
  }

  predicate BlobNamed(d: Descriptor, name: string) {
    d.digest.Some? && IsDigest(d.digest.value) && BlobName(d.digest.value) == name
  }

  lemma BlobNamedByHash(tools: Tools, members: Members, d: Descriptor, limit: nat)
    requires BlobMatches(tools, members, d, limit)
    ensures BlobName(d.digest.value) == "blobs/sha256/" + tools.hash(BlobOf(members, d))
  {
    assert (DIGEST_PREFIX + tools.hash(BlobOf(members, d)))[|DIGEST_PREFIX|..] == tools.hash(BlobOf(members, d));
  }

  const BLOB_DIRECTORIES: set<string> := {"blobs", "blobs/sha256"}

  /** A fixed member, or a blob under the hash of its own content. */
  predicate OwnName(tools: Tools, m: Named) {
    m.name in {Some("oci-layout"), Some("index.json"), Some("blobs/sha256/" + tools.hash(m.data))}
  }

  /** Every reachable name but the two fixed ones is the name of a matched blob. */
  lemma ReachableIsBlob(tools: Tools, pin: Pin, members: Members, w: Walk, name: string)
    requires Sound(tools, pin, members, w)
    requires name in Reachable(w) && name != "oci-layout" && name != "index.json"
    ensures name in members && name == "blobs/sha256/" + tools.hash(members[name])
    ensures Parents(name) == BLOB_DIRECTORIES
  {
    if name in LayerNames(w.layers) {
      var i :| 0 <= i < |w.layers| && BlobNamed(w.layers[i].descriptor, name);
      assert LayerAdmitted(tools, members, w.layers[i]);
      NamedBlob(tools, members, w.layers[i].descriptor, MAX_COMPRESSED_LAYER_BYTES, name);
    } else {
      var ds := [w.top, w.manifest, w.config];
      assert name in BlobNames(ds);
      var i :| 0 <= i < |ds| && BlobNamed(ds[i], name);
      NamedBlob(tools, members, ds[i], MAX_METADATA_BYTES, name);
    }
  }

  lemma NamedBlob(tools: Tools, members: Members, d: Descriptor, limit: nat, name: string)
    requires BlobMatches(tools, members, d, limit) && BlobNamed(d, name)
    ensures name in members && name == "blobs/sha256/" + tools.hash(members[name])
    ensures Parents(name) == BLOB_DIRECTORIES
  {
    BlobNamedByHash(tools, members, d, limit);
    BlobParents(d.digest.value);
  }

  lemma ReachableParents(tools: Tools, pin: Pin, members: Members, w: Walk)
    requires Sound(tools, pin, members, w)
    ensures AllParents(Reachable(w)) <= BLOB_DIRECTORIES
  {
    forall parent | parent in AllParents(Reachable(w)) ensures parent in BLOB_DIRECTORIES {
      var name :| name in Reachable(w) && parent in Parents(name);
      if name != "oci-layout" && name != "index.json" {
        ReachableIsBlob(tools, pin, members, w, name);
      }
    }
  }

  /** An accepted archive holds, as regular members, exactly the layout file, the index and the blobs on the walk,
      each named by the hash of its own content and of the size its descriptor states, and no directory but the two
      above the blobs. */
  lemma AcceptedContents(tools: Tools, pin: Pin, archive: Bytes) returns (ns: seq<Named>, w: Walk)
    requires Accepts(tools, pin, archive)
    ensures ns == NameAll(tools.entries(archive).value) && WalkFrom(tools, pin, RegularMembers(ns)) == Some(w)
    ensures Sound(tools, pin, RegularMembers(ns), w)
    ensures forall name :: name in Reachable(w) <==> Holds(ns, name)
    ensures forall i :: 0 <= i < |ns| && ns[i].kind.Regular? ==> OwnName(tools, ns[i])
    ensures forall i :: 0 <= i < |ns| && ns[i].kind.Directory? ==> ns[i].name.value in BLOB_DIRECTORIES
  {
    ns, w := AcceptedWalk(tools, pin, archive);
    ReachableParents(tools, pin, RegularMembers(ns), w);
    DirectoriesExact(ns, BLOB_DIRECTORIES);
    ContentsExact(tools, pin, ns, w);
  }

  lemma AcceptedWalk(tools: Tools, pin: Pin, archive: Bytes) returns (ns: seq<Named>, w: Walk)
    requires Accepts(tools, pin, archive)
    ensures ns == NameAll(tools.entries(archive).value) && WalkFrom(tools, pin, RegularMembers(ns)) == Some(w)
    ensures AdmissibleMembers(ns) && Sound(tools, pin, RegularMembers(ns), w)
    ensures RegularMembers(ns).Keys == Reachable(w) && Directories(ns) <= AllParents(Reachable(w))
  {
    ns := NameAll(tools.entries(archive).value);
    w := WalkFrom(tools, pin, RegularMembers(ns)).value;
    WalkSound(tools, pin, RegularMembers(ns));
  }

  lemma DirectoriesExact(ns: seq<Named>, allowed: set<string>)
    requires AdmissibleMembers(ns) && Directories(ns) <= allowed
    ensures forall i :: 0 <= i < |ns| && ns[i].kind.Directory? ==> ns[i].name.value in allowed
  {
    forall i | 0 <= i < |ns| && ns[i].kind.Directory? ensures ns[i].name.value in allowed {
      assert ns[i].name.value in Directories(ns);
    }
  }

  lemma ContentsExact(tools: Tools, pin: Pin, ns: seq<Named>, w: Walk)
    requires AdmissibleMembers(ns) && Sound(tools, pin, RegularMembers(ns), w)
    requires RegularMembers(ns).Keys == Reachable(w)
    ensures forall name :: name in Reachable(w) <==> Holds(ns, name)
    ensures forall i :: 0 <= i < |ns| && ns[i].kind.Regular? ==> OwnName(tools, ns[i])
  {
    forall name ensures name in Reachable(w) <==> Holds(ns, name) {
      RegularMembersExact(ns, name);
    }
    forall i | 0 <= i < |ns| && ns[i].kind.Regular? ensures OwnName(tools, ns[i]) {
      RegularMembersExact(ns, ns[i].name.value);
      if ns[i].name.value != "oci-layout" && ns[i].name.value != "index.json" {
        ReachableIsBlob(tools, pin, RegularMembers(ns), w, ns[i].name.value);
      }
    }
  }

  ghost predicate Injective(hash: Bytes -> string) {
    forall a, b :: hash(a) == hash(b) ==> a == b
  }

  lemma SameBlob(a: Tools, b: Tools, ma: Members, mb: Members, d: Descriptor, e: Descriptor, limit: nat)
    requires a.hash == b.hash && Injective(a.hash) && d.digest == e.digest
    requires BlobMatches(a, ma, d, limit) && BlobMatches(b, mb, e, limit)
    ensures BlobOf(ma, d) == BlobOf(mb, e)
  {
    var x, y := BlobOf(ma, d), BlobOf(mb, e);
    assert (DIGEST_PREFIX + a.hash(x))[|DIGEST_PREFIX|..] == a.hash(x);
    assert (DIGEST_PREFIX + a.hash(y))[|DIGEST_PREFIX|..] == a.hash(y);
  }

  /** With a collision-free hash one pin admits one image: whatever the two archives look like, and however each
      inspection decompresses and lists them, they agree on manifest, configuration and every layer, compressed and
      expanded. */
  lemma PinDeterminesImage(a: Tools, b: Tools, pin: Pin, archiveA: Bytes, archiveB: Bytes)
    returns (ma: Members, mb: Members, wa: Walk, wb: Walk)
    requires a.hash == b.hash && a.parse == b.parse && Injective(a.hash)
    requires Accepts(a, pin, archiveA) && Accepts(b, pin, archiveB)
    ensures ma == RegularMembers(NameAll(a.entries(archiveA).value)) && WalkFrom(a, pin, ma) == Some(wa)
    ensures mb == RegularMembers(NameAll(b.entries(archiveB).value)) && WalkFrom(b, pin, mb) == Some(wb)
    ensures Sound(a, pin, ma, wa) && Sound(b, pin, mb, wb)
    ensures BlobOf(ma, wa.manifest) == BlobOf(mb, wb.manifest) && BlobOf(ma, wa.config) == BlobOf(mb, wb.config)
    ensures wa.layers == wb.layers
    ensures forall i :: 0 <= i < |wa.layers| ==>
      && LayerAdmitted(a, ma, wa.layers[i]) && LayerAdmitted(b, mb, wa.layers[i])
      && BlobOf(ma, wa.layers[i].descriptor) == BlobOf(mb, wa.layers[i].descriptor)
      && Expansion(a, ma, wa.layers[i].descriptor) == Expansion(b, mb, wa.layers[i].descriptor)
  {
    ghost var na, nb;
    na, wa := AcceptedWalk(a, pin, archiveA);
    nb, wb := AcceptedWalk(b, pin, archiveB);
    ma, mb := RegularMembers(na), RegularMembers(nb);
    SameWalk(a, b, pin, ma, mb, wa, wb);
    SameContents(a, b, ma, mb, wa.layers);
  }

  lemma SameWalk(a: Tools, b: Tools, pin: Pin, ma: Members, mb: Members, wa: Walk, wb: Walk)
    requires a.hash == b.hash && a.parse == b.parse && Injective(a.hash)
    requires WalkFrom(a, pin, ma) == Some(wa) && WalkFrom(b, pin, mb) == Some(wb)
    requires Sound(a, pin, ma, wa) && Sound(b, pin, mb, wb)
    ensures BlobOf(ma, wa.manifest) == BlobOf(mb, wb.manifest) && BlobOf(ma, wa.config) == BlobOf(mb, wb.config)
    ensures wa.layers == wb.layers
  {
    SameBlob(a, b, ma, mb, wa.manifest, wb.manifest, MAX_METADATA_BYTES);
    SameBlob(a, b, ma, mb, wa.config, wb.config, MAX_METADATA_BYTES);
    SameLayers(a, b, pin, ma, mb, wa, wb);
  }

  lemma SameContents(a: Tools, b: Tools, ma: Members, mb: Members, layers: seq<Layer>)
    requires a.hash == b.hash && Injective(a.hash)
    requires forall i :: 0 <= i < |layers| ==> LayerAdmitted(a, ma, layers[i])
    requires forall i :: 0 <= i < |layers| ==> LayerAdmitted(b, mb, layers[i])
    ensures forall i :: 0 <= i < |layers| ==>
      && LayerAdmitted(a, ma, layers[i]) && LayerAdmitted(b, mb, layers[i])
      && BlobOf(ma, layers[i].descriptor) == BlobOf(mb, layers[i].descriptor)
      && Expansion(a, ma, layers[i].descriptor) == Expansion(b, mb, layers[i].descriptor)
  {
    forall i | 0 <= i < |layers|
      ensures && LayerAdmitted(a, ma, layers[i]) && LayerAdmitted(b, mb, layers[i])
              && BlobOf(ma, layers[i].descriptor) == BlobOf(mb, layers[i].descriptor)
              && Expansion(a, ma, layers[i].descriptor) == Expansion(b, mb, layers[i].descriptor)
    {
      SameExpansion(a, b, ma, mb, layers[i]);
    }
  }

  /** The same manifest and configuration bytes name the same layers. */
  lemma SameLayers(a: Tools, b: Tools, pin: Pin, ma: Members, mb: Members, wa: Walk, wb: Walk)
    requires a.parse == b.parse && WalkFrom(a, pin, ma) == Some(wa) && WalkFrom(b, pin, mb) == Some(wb)
    requires Sound(a, pin, ma, wa) && Sound(b, pin, mb, wb)
    requires BlobOf(ma, wa.manifest) == BlobOf(mb, wb.manifest) && BlobOf(ma, wa.config) == BlobOf(mb, wb.config)
    ensures wa.layers == wb.layers
  {
    assert DocumentOf(a, ma, wa.manifest) == DocumentOf(b, mb, wb.manifest);
    assert DocumentOf(a, ma, wa.config) == DocumentOf(b, mb, wb.config);
    WalkLayers(a, pin, ma, wa);
    WalkLayers(b, pin, mb, wb);
  }

  lemma WalkLayers(tools: Tools, pin: Pin, members: Members, w: Walk)
    requires WalkFrom(tools, pin, members) == Some(w)
    ensures DocumentOf(tools, members, w.manifest).Some? && DocumentOf(tools, members, w.config).Some?
    ensures LayersOf(DocumentOf(tools, members, w.manifest).value, DocumentOf(tools, members, w.config).value)
         == Some(w.layers)
  {
  }

  lemma SameExpansion(a: Tools, b: Tools, ma: Members, mb: Members, l: Layer)
    requires a.hash == b.hash && Injective(a.hash) && LayerAdmitted(a, ma, l) && LayerAdmitted(b, mb, l)
    ensures BlobOf(ma, l.descriptor) == BlobOf(mb, l.descriptor)
    ensures Expansion(a, ma, l.descriptor) == Expansion(b, mb, l.descriptor)
  {
    SameBlob(a, b, ma, mb, l.descriptor, l.descriptor, MAX_COMPRESSED_LAYER_BYTES);
    var x, y := Expansion(a, ma, l.descriptor), Expansion(b, mb, l.descriptor);
    assert (DIGEST_PREFIX + a.hash(x))[|DIGEST_PREFIX|..] == a.hash(x);
    assert (DIGEST_PREFIX + a.hash(y))[|DIGEST_PREFIX|..] == a.hash(y);
  }
}

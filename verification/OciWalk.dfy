/** The walk through an OCI image written out in one piece: which documents are read, what each must say, and which
    layer goes with which diff ID. */
module OciWalk {
  import opened Bytes
  import opened OciAdmission
  import Text

  /** The five documents of a walk; an image without a nested index has its manifest twice. */
  datatype Documents = Documents(layout: Document, index: Document, top: Document, manifest: Document, config: Document)

  predicate Reads(tools: Tools, members: Members, name: string, doc: Document) {
    name in members && |members[name]| <= 16 * 1024 * 1024 && tools.parse(members[name]) == Some(doc)
  }

  predicate IsSha256(digest: string) {
    && |digest| == 71 && digest[..7] == "sha256:"
    && forall i :: 7 <= i < 71 ==> digest[i] in "0123456789abcdef"
  }

  /** A blob under its digest, of the stated size and hash, decoded. */
  predicate ReadsBlob(tools: Tools, members: Members, d: Descriptor, doc: Document) {
    && d.digest.Some? && IsSha256(d.digest.value)
    && Reads(tools, members, "blobs/sha256/" + d.digest.value[7..], doc)
    && d.size == Some(|members["blobs/sha256/" + d.digest.value[7..]]|)
    && "sha256:" + tools.hash(members["blobs/sha256/" + d.digest.value[7..]]) == d.digest.value
  }

  predicate Schema2(doc: Document, mediaType: string) {
    doc.schemaVersion == Some(2) && (doc.mediaType.Some? ==> doc.mediaType.value == mediaType)
  }

  predicate NamesOne(index: Document, d: Descriptor) {
    Schema2(index, "application/vnd.oci.image.index.v1+json") && index.manifests == Some([Some(d)])
  }

  /** Directly, or through one nested index without a platform of its own. */
  predicate LeadsTo(top: Descriptor, document: Document, manifest: Descriptor) {
    && manifest.platform == LinuxAmd64
    && if top.mediaType == Some("application/vnd.oci.image.index.v1+json")
       then top.platform == NoPlatform && NamesOne(document, manifest)
       else manifest == top
  }

  function CompressedTotal(ls: seq<Layer>): int {
    if ls == [] then 0
    else (if ls[0].descriptor.size.Some? then ls[0].descriptor.size.value else 0) + CompressedTotal(ls[1..])
  }

  /** The k-th layer of the manifest goes with the k-th diff ID of the configuration. */
  ghost predicate Paired(manifest: Document, config: Document, ls: seq<Layer>) {
    && manifest.layers.Some? && config.diffIds.Some?
    && 1 <= |ls| <= 64 && |manifest.layers.value| == |ls| && |config.diffIds.value| == |ls|
    && (forall k :: 0 <= k < |ls| ==> manifest.layers.value[k] == Some(ls[k].descriptor))
    && (forall k :: 0 <= k < |ls| ==> config.diffIds.value[k] == Some(ls[k].diffId) && IsSha256(ls[k].diffId))
    && (forall k :: 0 <= k < |ls| ==>
          ls[k].descriptor.size.Some? && 0 <= ls[k].descriptor.size.value <= 128 * 1024 * 1024)
    && CompressedTotal(ls) <= 512 * 1024 * 1024
  }

  /** A walk of the pinned image. */
  ghost predicate Walks(tools: Tools, pin: Pin, members: Members, w: Walk, ds: Documents) {
    && Reads(tools, members, "oci-layout", ds.layout) && ds.layout.layout
    && Reads(tools, members, "index.json", ds.index) && NamesOne(ds.index, w.top)
    && w.top.refName == Some(pin.archiveTag) && w.top.imageName == Some(pin.archiveReference)
    && ReadsBlob(tools, members, w.top, ds.top) && LeadsTo(w.top, ds.top, w.manifest)
    && ReadsBlob(tools, members, w.manifest, ds.manifest)
    && w.manifest.mediaType == Some("application/vnd.oci.image.manifest.v1+json")
    && Schema2(ds.manifest, "application/vnd.oci.image.manifest.v1+json") && w.manifest.digest == Some(pin.digest)
    && ds.manifest.config == Some(w.config)
    && ReadsBlob(tools, members, w.config, ds.config)
    && w.config.mediaType == Some("application/vnd.oci.image.config.v1+json")
    && w.config.digest == Some(pin.configDigest) && ds.config.amd64 && pin.runtimeMatches(ds.config.runtime)
    && Paired(ds.manifest, ds.config, w.layers)
  }

  // ---------------------------------------------------------------- digests and sizes

  lemma DigestExact(digest: string)
    ensures IsDigest(digest) <==> IsSha256(digest)
    ensures IsDigest(digest) ==> BlobName(digest) == "blobs/sha256/" + digest[7..]
  {
    HexExact();
    if IsDigest(digest) {
      assert digest[7..] == digest[|DIGEST_PREFIX|..];
      forall i | 7 <= i < 71 ensures digest[i] in "0123456789abcdef" {
        assert digest[i] == digest[7..][i - 7];
      }
    }
    if IsSha256(digest) {
      assert forall i :: 0 <= i < 64 ==> digest[7..][i] == digest[i + 7];
    }
  }

  lemma HexExact()
    ensures forall c: char :: c in "0123456789abcdef" <==> '0' <= c <= '9' || 'a' <= c <= 'f'
  {
    var digits := "0123456789abcdef";
    forall c: char | '0' <= c <= '9' || 'a' <= c <= 'f' ensures c in digits {
      assert digits[if c <= '9' then c as int - 48 else c as int - 87] == c;
    }
  }

  lemma BlobExact(tools: Tools, members: Members, d: Descriptor, doc: Document)
    ensures DocumentOf(tools, members, d) == Some(doc) <==> ReadsBlob(tools, members, d, doc)
  {
    if d.digest.Some? {
      DigestExact(d.digest.value);
    }
  }

  lemma {:induction false} TotalSnoc(ls: seq<Layer>, l: Layer)
    ensures CompressedTotal(ls + [l])
         == CompressedTotal(ls) + if l.descriptor.size.Some? then l.descriptor.size.value else 0
  {
    if ls != [] {
      assert (ls + [l])[1..] == ls[1..] + [l];
      TotalSnoc(ls[1..], l);
    }
  }

  lemma {:induction false} TotalExact(ls: seq<Layer>)
    ensures DeclaredSizes(ls) == CompressedTotal(ls)
  {
    if ls != [] {
      var front, last := ls[..|ls| - 1], ls[|ls| - 1];
      TotalExact(front);
      TotalSnoc(front, last);
      assert ls == front + [last];
    }
  }

  // ---------------------------------------------------------------- both directions

  lemma {:induction false} LayersExact(manifest: Document, config: Document, ls: seq<Layer>)
    ensures LayersOf(manifest, config) == Some(ls) <==> Paired(manifest, config, ls)
  {
    TotalExact(ls);
    forall k | 0 <= k < |ls| ensures IsDigest(ls[k].diffId) <==> IsSha256(ls[k].diffId) {
      DigestExact(ls[k].diffId);
    }
    if LayersOf(manifest, config) == Some(ls) {
      assert forall k :: 0 <= k < |ls| ==> PlausibleLayer(manifest.layers.value[k]);
    }
    if Paired(manifest, config, ls) {
      PairedLayers(manifest, config, ls);
    }
  }

  lemma {:induction false} PairedLayers(manifest: Document, config: Document, ls: seq<Layer>)
    requires Paired(manifest, config, ls) && DeclaredSizes(ls) == CompressedTotal(ls)
    requires forall k :: 0 <= k < |ls| ==> IsDigest(ls[k].diffId)
    ensures LayersOf(manifest, config) == Some(ls)
  {
    var ds, ids := manifest.layers.value, config.diffIds.value;
    assert forall k :: 0 <= k < |ds| ==> PlausibleLayer(ds[k]) && ids[k].Some? && IsDigest(ids[k].value);
    assert seq(|ds|, i requires 0 <= i < |ds| => Layer(ds[i].value, ids[i].value)) == ls;
  }

  lemma {:induction false} NamesOneExact(index: Document, d: Descriptor)
    ensures OnlyManifest(index) == Some(d) <==> NamesOne(index, d)
  {
    if OnlyManifest(index) == Some(d) {
      assert index.manifests.value == [Some(d)];
    }
  }

  lemma {:induction false} TopExact(tools: Tools, pin: Pin, members: Members, top: Descriptor)
    ensures TopDescriptor(tools, pin, members) == Some(top) <==>
      exists layout, index ::
        && Reads(tools, members, "oci-layout", layout) && layout.layout
        && Reads(tools, members, "index.json", index) && NamesOne(index, top)
        && top.refName == Some(pin.archiveTag) && top.imageName == Some(pin.archiveReference)
  {
    if TopDescriptor(tools, pin, members) == Some(top) {
      var layout := MemberDocument(tools, members, "oci-layout").value;
      var index := MemberDocument(tools, members, "index.json").value;
      NamesOneExact(index, top);
      assert Reads(tools, members, "oci-layout", layout) && Reads(tools, members, "index.json", index);
    }
    if layout, index :|
      && Reads(tools, members, "oci-layout", layout) && layout.layout
      && Reads(tools, members, "index.json", index) && NamesOne(index, top)
      && top.refName == Some(pin.archiveTag) && top.imageName == Some(pin.archiveReference)
    {
      NamesOneExact(index, top);
    }
  }

  lemma {:induction false} LeadsExact(tools: Tools, members: Members, top: Descriptor, document: Document,
                                      manifest: Descriptor)
    requires ReadsBlob(tools, members, top, document)
    ensures ManifestDescriptor(tools, members, top) == Some(manifest) <==> LeadsTo(top, document, manifest)
  {
    BlobExact(tools, members, top, document);
    NamesOneExact(document, manifest);
  }

  lemma {:induction false} ManifestExact(tools: Tools, pin: Pin, members: Members, d: Descriptor, doc: Document)
    ensures ManifestDocument(tools, pin, members, d) == Some(doc) <==>
      && ReadsBlob(tools, members, d, doc)
      && d.mediaType == Some("application/vnd.oci.image.manifest.v1+json")
      && Schema2(doc, "application/vnd.oci.image.manifest.v1+json") && d.digest == Some(pin.digest)
  {
    BlobExact(tools, members, d, doc);
  }

  lemma {:induction false} ConfigExact(tools: Tools, pin: Pin, members: Members, manifest: Document, doc: Document)
    ensures ConfigDocument(tools, pin, members, manifest) == Some(doc) <==>
      && manifest.config.Some?
      && ReadsBlob(tools, members, manifest.config.value, doc)
      && manifest.config.value.mediaType == Some("application/vnd.oci.image.config.v1+json")
      && manifest.config.value.digest == Some(pin.configDigest) && doc.amd64 && pin.runtimeMatches(doc.runtime)
  {
    if manifest.config.Some? {
      BlobExact(tools, members, manifest.config.value, doc);
    }
  }

  /** The walk that the inspection finds, if it finds one, is one; */
  lemma {:induction false} WalkFound(tools: Tools, pin: Pin, members: Members, w: Walk) returns (ds: Documents)
    requires WalkFrom(tools, pin, members) == Some(w)
    ensures Walks(tools, pin, members, w, ds)
  {
    TopExact(tools, pin, members, w.top);
    var layout, index :|
      && Reads(tools, members, "oci-layout", layout) && layout.layout
      && Reads(tools, members, "index.json", index) && NamesOne(index, w.top);
    var top := DocumentOf(tools, members, w.top).value;
    BlobExact(tools, members, w.top, top);
    LeadsExact(tools, members, w.top, top, w.manifest);
    var manifest := ManifestDocument(tools, pin, members, w.manifest).value;
    ManifestExact(tools, pin, members, w.manifest, manifest);
    var config := ConfigDocument(tools, pin, members, manifest).value;
    ConfigExact(tools, pin, members, manifest, config);
    LayersExact(manifest, config, w.layers);
    ds := Documents(layout, index, top, manifest, config);
  }

  /** and whatever is a walk is found. */
  lemma {:induction false} WalkComplete(tools: Tools, pin: Pin, members: Members, w: Walk, ds: Documents)
    requires Walks(tools, pin, members, w, ds)
    ensures WalkFrom(tools, pin, members) == Some(w)
  {
    TopExact(tools, pin, members, w.top);
    BlobExact(tools, members, w.top, ds.top);
    LeadsExact(tools, members, w.top, ds.top, w.manifest);
    ManifestExact(tools, pin, members, w.manifest, ds.manifest);
    ConfigExact(tools, pin, members, ds.manifest, ds.config);
    LayersExact(ds.manifest, ds.config, w.layers);
  }

  lemma WalkExact(tools: Tools, pin: Pin, members: Members, w: Walk)
    ensures WalkFrom(tools, pin, members) == Some(w) <==> exists ds :: Walks(tools, pin, members, w, ds)
  {
    if WalkFrom(tools, pin, members) == Some(w) {
      var ds := WalkFound(tools, pin, members, w);
    }
    if ds :| Walks(tools, pin, members, w, ds) {
      WalkComplete(tools, pin, members, w, ds);
    }
  }

  /** In an accepted archive the k-th layer of the manifest expands to what the k-th diff ID of the configuration
      names. */
  lemma {:induction false} AcceptedLayers(tools: Tools, pin: Pin, archive: Bytes)
    returns (members: Members, w: Walk, ds: Documents)
    requires Accepts(tools, pin, archive)
    ensures members == RegularMembers(NameAll(tools.entries(archive).value)) && Walks(tools, pin, members, w, ds)
    ensures |w.layers| == |ds.manifest.layers.value| == |ds.config.diffIds.value|
    ensures forall k :: 0 <= k < |w.layers| ==>
      && ds.manifest.layers.value[k] == Some(w.layers[k].descriptor) && LayerAdmitted(tools, members, w.layers[k])
      && ds.config.diffIds.value[k]
           == Some("sha256:" + tools.hash(Expansion(tools, members, w.layers[k].descriptor)))
  {
    ghost var ns;
    ns, w := AcceptedWalk(tools, pin, archive);
    members := RegularMembers(ns);
    ds := WalkFound(tools, pin, members, w);
  }
}

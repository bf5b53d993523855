/** The CycloneDX inventory of a candidate image: the loops that check its components, dependencies and labels. */
module CandidateSbom {
  import opened Bytes
  import Text

  const MAX_TOP_LEVEL_KEYS := 64
  const MAX_COMPONENTS := 100000
  const MAX_DEPENDENCIES := 100000
  const MAX_EDGES_PER_ENTRY := 20000
  const MAX_TOTAL_EDGES := 100000
  const MAX_PROPERTIES := 4096
  const MAX_SCANNERS := 64

  const COMPONENT_TYPES := {
    "application", "container", "cryptographic-asset", "data", "device", "device-driver", "file", "firmware",
    "framework", "library", "machine-learning-model", "operating-system", "platform"
  }
  const CONTRADICTORY := {"purl", "cpe", "hashes", "properties", "swid"}
  const SOURCE_LABEL := "syft:image:labels:org.opencontainers.image.source"
  const REVISION_LABEL := "syft:image:labels:org.opencontainers.image.revision"
  const VERSION_LABEL := "syft:image:labels:org.opencontainers.image.version"
  const SOURCE := "https://github.com/ElevenID/marty-ui"

  // ---------------------------------------------------------------- the document

  /** In all of these `None` is a field that is absent or of the wrong type, and a list item that is no object. */
  datatype Component = Component(kind: Option<string>, name: Option<string>, reference: Option<string>)

  datatype Dependency = Dependency(reference: Option<string>, dependsOn: Option<seq<Option<string>>>)

  datatype Property = Property(name: Option<string>, value: Option<string>)

  /** The component that stands for the image; `fields` are the names of all its fields. */
  datatype Root = Root(kind: Option<string>, name: Option<string>, version: Option<string>, reference: Option<string>,
                       fields: set<string>)

  /** `scanners` are the names of the tool components. */
  datatype Metadata = Metadata(scanners: Option<seq<Option<string>>>, root: Option<Root>,
                               properties: Option<seq<Option<Property>>>)

  /** `dependencies` is the empty list when the field is absent. */
  datatype Sbom = Sbom(topLevelKeys: nat, format: Option<string>, version: Option<string>,
                       components: Option<seq<Option<Component>>>, metadata: Option<Metadata>,
                       dependencies: Option<seq<Option<Dependency>>>)

  datatype Pin = Pin(imageUri: string, digest: string, commit: string, version: string)

  // ---------------------------------------------------------------- what is accepted

  predicate Blank(s: string) {
    forall i :: 0 <= i < |s| ==> Text.IsSpace(s[i])
  }

  predicate GoodComponent(c: Option<Component>) {
    && c.Some? && c.value.kind.Some? && c.value.kind.value in COMPONENT_TYPES
    && c.value.name.Some? && !Blank(c.value.name.value)
    && c.value.reference.Some? && c.value.reference.value != ""
  }

  ghost predicate ComponentsAccepted(cs: seq<Option<Component>>) {
    && (forall i :: 0 <= i < |cs| ==> GoodComponent(cs[i]))
    && (forall i, j :: 0 <= i < j < |cs| ==> cs[i].value.reference != cs[j].value.reference)
  }

  ghost function References(cs: seq<Option<Component>>): set<string>
    requires ComponentsAccepted(cs)
  {
    set i | 0 <= i < |cs| :: cs[i].value.reference.value
  }

  /** Edges lead to known references, none twice. */
  ghost predicate EdgesAccepted(edges: seq<Option<string>>, known: set<string>) {
    && |edges| <= MAX_EDGES_PER_ENTRY
    && (forall i :: 0 <= i < |edges| ==> edges[i].Some? && edges[i].value in known)
    && (forall i, j :: 0 <= i < j < |edges| ==> edges[i] != edges[j])
  }

  ghost predicate GoodDependency(d: Option<Dependency>, known: set<string>) {
    && d.Some? && d.value.reference.Some? && d.value.reference.value in known
    && d.value.dependsOn.Some? && EdgesAccepted(d.value.dependsOn.value, known)
  }

  function EdgeCount(ds: seq<Option<Dependency>>): nat {
    if ds == [] then 0
    else
      var last := ds[|ds| - 1];
      EdgeCount(ds[..|ds| - 1]) + if last.Some? && last.value.dependsOn.Some? then |last.value.dependsOn.value| else 0
  }

  ghost predicate DependenciesAccepted(ds: seq<Option<Dependency>>, known: set<string>) {
    && (forall i :: 0 <= i < |ds| ==> GoodDependency(ds[i], known))
    && (forall i, j :: 0 <= i < j < |ds| ==> ds[i].value.reference != ds[j].value.reference)
    && EdgeCount(ds) <= MAX_TOTAL_EDGES
  }

  predicate GoodProperty(p: Option<Property>) {
    p.Some? && p.value.name.Some? && p.value.value.Some?
  }

  predicate Labelled(ps: seq<Option<Property>>, name: string, value: string) {
    Some(Property(Some(name), Some(value))) in ps
  }

  ghost predicate PropertiesNamed(ps: seq<Option<Property>>) {
    && (forall i :: 0 <= i < |ps| ==> GoodProperty(ps[i]))
    && (forall i, j :: 0 <= i < j < |ps| ==> ps[i].value.name != ps[j].value.name)
  }

  ghost predicate PropertiesAccepted(ps: seq<Option<Property>>, pin: Pin) {
    && PropertiesNamed(ps)
    && Labelled(ps, SOURCE_LABEL, SOURCE) && Labelled(ps, REVISION_LABEL, pin.commit)
    && Labelled(ps, VERSION_LABEL, pin.version)
  }

  predicate RootAccepted(root: Root, pin: Pin) {
    && root.kind == Some("container") && root.name == Some(pin.imageUri) && root.version == Some(pin.digest)
    && root.reference.Some? && root.reference.value != "" && CONTRADICTORY * root.fields == {}
  }

  predicate Sized<T>(items: Option<seq<T>>, most: nat) {
    items.Some? && |items.value| <= most
  }

  ghost predicate MetadataAccepted(m: Metadata, pin: Pin) {
    && Sized(m.scanners, MAX_SCANNERS) && Some("syft") in m.scanners.value
    && m.root.Some? && RootAccepted(m.root.value, pin)
    && Sized(m.properties, MAX_PROPERTIES) && PropertiesAccepted(m.properties.value, pin)
  }

  ghost predicate Accepts(b: Sbom, pin: Pin) {
    && b.topLevelKeys <= MAX_TOP_LEVEL_KEYS && b.format == Some("CycloneDX") && b.version == Some("1.6")
    && Sized(b.components, MAX_COMPONENTS) && b.components.value != [] && ComponentsAccepted(b.components.value)
    && b.metadata.Some? && MetadataAccepted(b.metadata.value, pin)
    && b.metadata.value.root.value.reference.value !in References(b.components.value)
    && Sized(b.dependencies, MAX_DEPENDENCIES)
    && DependenciesAccepted(b.dependencies.value,
                            References(b.components.value) + {b.metadata.value.root.value.reference.value})
  }

  // ---------------------------------------------------------------- the loops

  method CheckComponents(cs: seq<Option<Component>>) returns (r: Option<set<string>>)
    ensures r.Some? <==> ComponentsAccepted(cs)
    ensures r.Some? ==> r.value == References(cs)
  {
    var references: set<string> := {};
    var i := 0;
    while i < |cs|
      invariant 0 <= i <= |cs|
      invariant ComponentsAccepted(cs[..i]) && references == References(cs[..i])
    {
      var c := cs[i];
      if c.None? || c.value.kind.None? || c.value.kind.value !in COMPONENT_TYPES {
        return None;
      }
      if c.value.name.None? {
        return None;
      }
      var name := c.value.name.value;
      if forall i :: 0 <= i < |name| ==> Text.IsSpace(name[i]) {
        return None;
      }
      if c.value.reference.None? || c.value.reference.value == "" {
        return None;
      }
      if c.value.reference.value in references {
        return None;
      }
      ComponentsStep(cs, i);
      references := references + {c.value.reference.value};
      i := i + 1;
    }
    assert cs[..i] == cs;
    return Some(references);
  }

  lemma ComponentsStep(cs: seq<Option<Component>>, n: nat)
    requires n < |cs| && ComponentsAccepted(cs[..n]) && GoodComponent(cs[n])
    requires cs[n].value.reference.value !in References(cs[..n])
    ensures ComponentsAccepted(cs[..n + 1])
    ensures References(cs[..n + 1]) == References(cs[..n]) + {cs[n].value.reference.value}
  {
    var front, longer := cs[..n], cs[..n + 1];
    assert longer == front + [cs[n]];
    forall i | 0 <= i < n ensures longer[i].value.reference != longer[n].value.reference {
      assert front[i].value.reference.value in References(front);
    }
    assert ComponentsAccepted(longer);
    forall s ensures s in References(longer) <==> s in References(front) || s == cs[n].value.reference.value {
      if s in References(front) {
        var i :| 0 <= i < n && front[i].value.reference.value == s;
        assert longer[i].value.reference.value == s;
      }
      assert longer[n].value.reference.value == cs[n].value.reference.value;
    }
  }

  method CheckEdges(edges: seq<Option<string>>, known: set<string>) returns (ok: bool)
    ensures ok <==> EdgesAccepted(edges, known)
  {
    Text.CountDistinct(edges);
    if |edges| > MAX_EDGES_PER_ENTRY {
      return false;
    }
    if i :| 0 <= i < |edges| && (edges[i].None? || edges[i].value !in known) {
      return false;
    }
    return |Text.Elements(edges)| == |edges|;
  }

  /** References used as a source so far. */
  ghost function Sources(ds: seq<Option<Dependency>>): set<Option<string>>
    requires forall i :: 0 <= i < |ds| ==> ds[i].Some?
  {
    set i | 0 <= i < |ds| :: ds[i].value.reference
  }

  method CheckDependencies(ds: seq<Option<Dependency>>, known: set<string>) returns (ok: bool)
    ensures ok <==> DependenciesAccepted(ds, known)
  {
    var roots: set<Option<string>>, total := {}, 0;
    var i := 0;
    while i < |ds|
      invariant 0 <= i <= |ds|
      invariant DependenciesAccepted(ds[..i], known)
      invariant roots == Sources(ds[..i]) && total == EdgeCount(ds[..i])
    {
      var d := ds[i];
      DependenciesStep(ds, known, i);
      if d.None? || d.value.reference.None? || d.value.reference.value !in known || d.value.reference in roots {
        return false;
      }
      if d.value.dependsOn.None? {
        return false;
      }
      var good := CheckEdges(d.value.dependsOn.value, known);
      if !good {
        return false;
      }
      total := total + |d.value.dependsOn.value|;
      if total > MAX_TOTAL_EDGES {
        return false;
      }
      roots := roots + {d.value.reference};
      i := i + 1;
    }
    assert ds[..i] == ds;
    return true;
  }

  lemma {:induction false} EdgeCountGrows(ds: seq<Option<Dependency>>, n: nat)
    requires n <= |ds|
    ensures EdgeCount(ds[..n]) <= EdgeCount(ds)
  {
    if n < |ds| {
      EdgeCountGrows(ds[..|ds| - 1], n);
      assert ds[..|ds| - 1][..n] == ds[..n];
    } else {
      assert ds[..n] == ds;
    }
  }

  lemma AcceptedEntry(ds: seq<Option<Dependency>>, known: set<string>, n: nat)
    requires n < |ds| && DependenciesAccepted(ds, known)
    ensures GoodDependency(ds[n], known) && ds[n].value.reference !in Sources(ds[..n])
  {
    assert forall i :: 0 <= i < n ==> ds[..n][i] == ds[i];
  }

  /** The loop's own condition on one more entry; an entry that fails it fails the whole list. */
  lemma DependenciesStep(ds: seq<Option<Dependency>>, known: set<string>, n: nat)
    requires n < |ds| && DependenciesAccepted(ds[..n], known)
    ensures
      var now := GoodDependency(ds[n], known) && ds[n].value.reference !in Sources(ds[..n])
                 && EdgeCount(ds[..n]) + |ds[n].value.dependsOn.value| <= MAX_TOTAL_EDGES;
      && (DependenciesAccepted(ds, known) ==> now)
      && (now ==> DependenciesAccepted(ds[..n + 1], known)
                  && Sources(ds[..n + 1]) == Sources(ds[..n]) + {ds[n].value.reference}
                  && EdgeCount(ds[..n + 1]) == EdgeCount(ds[..n]) + |ds[n].value.dependsOn.value|)
  {
    var front, longer := ds[..n], ds[..n + 1];
    assert longer == front + [ds[n]] && longer[..n] == front;
    EdgeCountGrows(ds, n + 1);
    if DependenciesAccepted(ds, known) {
      AcceptedEntry(ds, known, n);
    }
    if GoodDependency(ds[n], known) && ds[n].value.reference !in Sources(front)
       && EdgeCount(front) + |ds[n].value.dependsOn.value| <= MAX_TOTAL_EDGES
    {
      forall i | 0 <= i < n ensures longer[i].value.reference != longer[n].value.reference {
        assert front[i].value.reference in Sources(front);
      }
      assert forall i :: 0 <= i < n ==> front[i] == longer[i];
      SourcesStep(ds, n);
    }
  }

  lemma SourcesStep(ds: seq<Option<Dependency>>, n: nat)
    requires n < |ds| && forall i :: 0 <= i <= n ==> ds[i].Some?
    ensures Sources(ds[..n + 1]) == Sources(ds[..n]) + {ds[n].value.reference}
  {
    var front, longer := ds[..n], ds[..n + 1];
    assert longer == front + [ds[n]];
    forall s ensures s in Sources(longer) <==> s in Sources(front) || s == ds[n].value.reference {
      if s in Sources(front) {
        var i :| 0 <= i < n && front[i].value.reference == s;
        assert longer[i].value.reference == s;
      }
      assert longer[n].value.reference == ds[n].value.reference;
    }
  }

  /** The properties as a dictionary. */
  ghost predicate Collected(ps: seq<Option<Property>>, values: map<string, string>) {
    && (forall i :: 0 <= i < |ps| ==> GoodProperty(ps[i]) && ps[i].value.name.value in values)
    && (forall name :: name in values ==> Labelled(ps, name, values[name]))
  }

  lemma CollectedStep(ps: seq<Option<Property>>, values: map<string, string>, n: nat)
    requires n < |ps| && PropertiesNamed(ps[..n]) && Collected(ps[..n], values) && GoodProperty(ps[n])
    ensures PropertiesNamed(ps[..n + 1]) <==> ps[n].value.name.value !in values
    ensures ps[n].value.name.value !in values ==>
      Collected(ps[..n + 1], values[ps[n].value.name.value := ps[n].value.value.value])
  {
    var front, longer := ps[..n], ps[..n + 1];
    var name := ps[n].value.name.value;
    assert longer == front + [ps[n]];
    if name in values {
      assert Labelled(front, name, values[name]);
      var i :| 0 <= i < n && front[i] == Some(Property(Some(name), Some(values[name])));
      assert longer[i].value.name == longer[n].value.name;
    } else {
      assert forall i :: 0 <= i < n ==> front[i].value.name.value in values;
      assert forall i :: 0 <= i < n ==> longer[i] == front[i];
      var more := values[name := ps[n].value.value.value];
      forall other | other in more ensures Labelled(longer, other, more[other]) {
        if other == name {
          assert longer[n] == Some(Property(Some(name), Some(more[name])));
        } else {
          assert Labelled(front, other, values[other]);
        }
      }
    }
  }

  method CollectProperties(ps: seq<Option<Property>>) returns (r: Option<map<string, string>>)
    ensures r.Some? <==> PropertiesNamed(ps)
    ensures r.Some? ==> Collected(ps, r.value)
  {
    var values: map<string, string> := map[];
    var i := 0;
    while i < |ps|
      invariant 0 <= i <= |ps|
      invariant PropertiesNamed(ps[..i]) && Collected(ps[..i], values)
    {
      var p := ps[i];
      if p.None? || p.value.name.None? || p.value.value.None? {
        return None;
      }
      CollectedStep(ps, values, i);
      if p.value.name.value in values {
        NamedPrefix(ps, i + 1);
        return None;
      }
      values := values[p.value.name.value := p.value.value.value];
      i := i + 1;
    }
    assert ps[..i] == ps;
    return Some(values);
  }

  lemma NamedPrefix(ps: seq<Option<Property>>, n: nat)
    requires n <= |ps|
    ensures PropertiesNamed(ps) ==> PropertiesNamed(ps[..n])
  {
    assert forall i :: 0 <= i < n ==> ps[..n][i] == ps[i];
  }

  /** Looking a name up in the dictionary finds what the list says. */
  lemma LabelLookup(ps: seq<Option<Property>>, values: map<string, string>, name: string, value: string)
    requires PropertiesNamed(ps) && Collected(ps, values)
    ensures Labelled(ps, name, value) <==> name in values && values[name] == value
  {
    if Labelled(ps, name, value) {
      var i :| 0 <= i < |ps| && ps[i] == Some(Property(Some(name), Some(value)));
      assert ps[i].value.name.value in values;
      assert Labelled(ps, name, values[name]);
      var j :| 0 <= j < |ps| && ps[j] == Some(Property(Some(name), Some(values[name])));
      assert ps[i].value.name == ps[j].value.name;
    }
  }

  method CheckProperties(ps: seq<Option<Property>>, pin: Pin) returns (ok: bool)
    ensures ok <==> PropertiesAccepted(ps, pin)
  {
    var values := CollectProperties(ps);
    if values.None? {
      return false;
    }
    LabelLookup(ps, values.value, SOURCE_LABEL, SOURCE);
    LabelLookup(ps, values.value, REVISION_LABEL, pin.commit);
    LabelLookup(ps, values.value, VERSION_LABEL, pin.version);
    return
      && SOURCE_LABEL in values.value && values.value[SOURCE_LABEL] == SOURCE
      && REVISION_LABEL in values.value && values.value[REVISION_LABEL] == pin.commit
      && VERSION_LABEL in values.value && values.value[VERSION_LABEL] == pin.version;
  }

  method CheckMetadata(m: Metadata, pin: Pin) returns (ok: bool)
    ensures ok <==> MetadataAccepted(m, pin)
  {
    if m.scanners.None? || |m.scanners.value| > MAX_SCANNERS || Some("syft") !in m.scanners.value {
      return false;
    }
    if m.root.None? {
      return false;
    }
    var root := m.root.value;
    if root.kind != Some("container") || root.name != Some(pin.imageUri) || root.version != Some(pin.digest) {
      return false;
    }
    if root.reference.None? || root.reference.value == "" || CONTRADICTORY * root.fields != {} {
      return false;
    }
    if m.properties.None? || |m.properties.value| > MAX_PROPERTIES {
      return false;
    }
    ok := CheckProperties(m.properties.value, pin);
  }

  method ValidateSbom(b: Sbom, pin: Pin) returns (ok: bool)
    ensures ok <==> Accepts(b, pin)
  {
    if b.topLevelKeys > MAX_TOP_LEVEL_KEYS || b.format != Some("CycloneDX") || b.version != Some("1.6") {
      return false;
    }
    if b.components.None? || b.components.value == [] || |b.components.value| > MAX_COMPONENTS {
      return false;
    }
    var references := CheckComponents(b.components.value);
    if references.None? || b.metadata.None? {
      return false;
    }
    ok := CheckMetadata(b.metadata.value, pin);
    if !ok {
      return;
    }
    var root := b.metadata.value.root.value.reference.value;
    if root in references.value || b.dependencies.None? || |b.dependencies.value| > MAX_DEPENDENCIES {
      return false;
    }
    ok := CheckDependencies(b.dependencies.value, references.value + {root});
  }

  // ---------------------------------------------------------------- the dependency graph

  /** The edges of one entry. */
  ghost function EntryEdges(d: Dependency): set<(string, string)>
  {
    if d.reference.None? || d.dependsOn.None? then {}
    else set e | e in d.dependsOn.value && e.Some? :: (d.reference.value, e.value)
  }

  ghost function Edges(ds: seq<Option<Dependency>>): set<(string, string)> {
    if ds == [] then {}
    else Edges(ds[..|ds| - 1]) + if ds[|ds| - 1].Some? then EntryEdges(ds[|ds| - 1].value) else {}
  }

  lemma {:induction false} EntryEdgesCount(d: Dependency, known: set<string>)
    requires GoodDependency(Some(d), known)
    ensures |EntryEdges(d)| == |d.dependsOn.value|
    ensures forall e :: e in EntryEdges(d) ==> e.0 == d.reference.value && e.1 in known
    decreases |d.dependsOn.value|
  {
    var edges := d.dependsOn.value;
    if edges == [] {
      assert EntryEdges(d) == {};
    } else {
      var front, last := edges[..|edges| - 1], edges[|edges| - 1];
      var shorter := d.(dependsOn := Some(front));
      EntryEdgesCount(shorter, known);
      assert edges == front + [last];
      assert EntryEdges(d) == EntryEdges(shorter) + {(d.reference.value, last.value)};
    }
  }

  lemma {:induction false} EdgesFrom(ds: seq<Option<Dependency>>, known: set<string>, e: (string, string))
    requires (forall i :: 0 <= i < |ds| ==> GoodDependency(ds[i], known)) && e in Edges(ds)
    ensures e.0 in known && e.1 in known
    ensures exists i :: 0 <= i < |ds| && ds[i].Some? && ds[i].value.reference == Some(e.0)
  {
    var front, last := ds[..|ds| - 1], ds[|ds| - 1].value;
    assert GoodDependency(ds[|ds| - 1], known);
    EntryEdgesCount(last, known);
    if e in Edges(front) {
      EdgesFrom(front, known, e);
      var i :| 0 <= i < |front| && front[i].value.reference == Some(e.0);
      assert ds[i].value.reference == Some(e.0);
    } else {
      assert ds[|ds| - 1].value.reference == Some(e.0);
    }
  }

  /** Accepted dependencies are a graph over the known references with as many edges as the list has entries for,
      so the cap bounds the graph itself. */
  lemma {:induction false} DependencyGraph(ds: seq<Option<Dependency>>, known: set<string>)
    requires DependenciesAccepted(ds, known)
    ensures |Edges(ds)| == EdgeCount(ds) <= MAX_TOTAL_EDGES
    ensures forall e :: e in Edges(ds) ==> e.0 in known && e.1 in known
  {
    forall e | e in Edges(ds) ensures e.0 in known && e.1 in known {
      EdgesFrom(ds, known, e);
    }
    if ds != [] {
      var front, last := ds[..|ds| - 1], ds[|ds| - 1];
      EdgeCountGrows(ds, |ds| - 1);
      assert forall i :: 0 <= i < |front| ==> front[i] == ds[i];
      DependencyGraph(front, known);
      EntryEdgesCount(last.value, known);
      assert Edges(front) !! EntryEdges(last.value) by {
        forall e | e in Edges(front) ensures e !in EntryEdges(last.value) {
          EdgesFrom(front, known, e);
          var i :| 0 <= i < |front| && front[i].value.reference == Some(e.0);
          assert ds[i].value.reference != last.value.reference;
        }
      }
    }
  }
}

/** The Compose files reached from a command line through `extends`, and the environment their variables need. */
module ComposeSources {
  import opened Bytes
  import Text

  /** What the two patterns find in a file: the files it extends, already joined to its own directory, and the
      variables it requires. */
  datatype SourceFile = SourceFile(extended: seq<string>, required: seq<string>)

  /** `resolve` follows links and makes a path absolute; `files` holds what can be read, by resolved path. */
  datatype FileSystem = FileSystem(resolve: string -> string, files: map<string, SourceFile>)

  /** The argument after every `--file`. */
  function FileArguments(compose: seq<string>): (paths: seq<string>) {
    if |compose| < 2 then []
    else (if compose[0] == "--file" then [compose[1]] else []) + FileArguments(compose[1..])
  }

  lemma {:induction false} FileArgumentsExact(compose: seq<string>, path: string)
    ensures path in FileArguments(compose) <==>
      exists i :: 0 <= i < |compose| - 1 && compose[i] == "--file" && compose[i + 1] == path
    decreases |compose|
  {
    if |compose| >= 2 {
      FileArgumentsExact(compose[1..], path);
      if path in FileArguments(compose[1..]) {
        var i :| 0 <= i < |compose[1..]| - 1 && compose[1..][i] == "--file" && compose[1..][i + 1] == path;
        assert compose[i + 1] == "--file" && compose[i + 1 + 1] == path;
      }
      if i :| 0 <= i < |compose| - 1 && compose[i] == "--file" && compose[i + 1] == path {
        if i > 0 {
          assert compose[1..][i - 1] == "--file" && compose[1..][i - 1 + 1] == path;
        }
      }
    }
  }

  function Resolved(fs: FileSystem, paths: seq<string>): set<string> {
    set path | path in paths :: fs.resolve(path)
  }

  /** The resolved targets of one file; a file that cannot be read has none. */
  function Targets(fs: FileSystem, source: string): set<string> {
    if source in fs.files then Resolved(fs, fs.files[source].extended) else {}
  }

  /** A walk along `extends` from some root. */
  ghost predicate Walk(fs: FileSystem, roots: set<string>, walk: seq<string>) {
    && walk != [] && walk[0] in roots
    && forall i :: 0 <= i < |walk| - 1 ==> walk[i + 1] in Targets(fs, walk[i])
  }

  ghost predicate Reached(fs: FileSystem, roots: set<string>, source: string) {
    exists walk :: Walk(fs, roots, walk) && walk[|walk| - 1] == source
  }

  ghost predicate Closed(fs: FileSystem, roots: set<string>, found: set<string>, pending: set<string>) {
    && roots <= found + pending
    && forall source :: source in found ==> Targets(fs, source) <= found + pending
  }

  /** A set that holds the roots and is closed under `extends` holds everything that is reached. */
  lemma {:induction false} ClosedHoldsWalk(fs: FileSystem, roots: set<string>, found: set<string>, walk: seq<string>)
    requires Closed(fs, roots, found, {}) && Walk(fs, roots, walk)
    ensures walk[|walk| - 1] in found
    decreases |walk|
  {
    if |walk| > 1 {
      var front := walk[..|walk| - 1];
      ClosedHoldsWalk(fs, roots, found, front);
      assert walk[|walk| - 2 + 1] in Targets(fs, walk[|walk| - 2]);
    }
  }

  lemma ReachedStep(fs: FileSystem, roots: set<string>, source: string, target: string)
    requires Reached(fs, roots, source) && target in Targets(fs, source)
    ensures Reached(fs, roots, target)
  {
    var walk :| Walk(fs, roots, walk) && walk[|walk| - 1] == source;
    assert Walk(fs, roots, walk + [target]);
  }

  lemma ClosedHoldsReached(fs: FileSystem, roots: set<string>, found: set<string>)
    requires Closed(fs, roots, found, {})
    ensures forall source :: Reached(fs, roots, source) ==> source in found
  {
    forall source | Reached(fs, roots, source) ensures source in found {
      var walk :| Walk(fs, roots, walk) && walk[|walk| - 1] == source;
      ClosedHoldsWalk(fs, roots, found, walk);
    }
  }

  /** Where the worklist stands: what is found or pending is reached, and nothing has been forgotten. */
  ghost predicate Frontier(fs: FileSystem, roots: set<string>, found: set<string>, pending: set<string>) {
    && found <= fs.files.Keys
    && Closed(fs, roots, found, pending)
    && forall source :: source in found + pending ==> Reached(fs, roots, source)
  }

  lemma FrontierStart(fs: FileSystem, roots: set<string>)
    ensures Frontier(fs, roots, {}, roots)
  {
    forall root | root in roots ensures Reached(fs, roots, root) {
      assert Walk(fs, roots, [root]);
    }
  }

  lemma FrontierVisit(fs: FileSystem, roots: set<string>, found: set<string>, pending: set<string>, source: string)
    requires Frontier(fs, roots, found, pending + {source}) && source in fs.files
    ensures Frontier(fs, roots, found + {source}, pending + Targets(fs, source))
  {
    VisitCloses(fs, roots, found, pending, source);
    VisitReaches(fs, roots, source);
    assert found + {source} + (pending + Targets(fs, source)) == found + (pending + {source}) + Targets(fs, source);
  }

  /** A visit forgets nothing: what the file extends becomes pending. */
  lemma VisitCloses(fs: FileSystem, roots: set<string>, found: set<string>, pending: set<string>, source: string)
    requires Closed(fs, roots, found, pending + {source})
    ensures Closed(fs, roots, found + {source}, pending + Targets(fs, source))
  {
    var before, after := found + (pending + {source}), found + {source} + (pending + Targets(fs, source));
    assert before <= after;
    forall other | other in found + {source} ensures Targets(fs, other) <= after {
      if other in found {
        assert Targets(fs, other) <= before;
      }
    }
  }

  lemma VisitReaches(fs: FileSystem, roots: set<string>, source: string)
    requires Reached(fs, roots, source)
    ensures forall target :: target in Targets(fs, source) ==> Reached(fs, roots, target)
  {
    forall target | target in Targets(fs, source) ensures Reached(fs, roots, target) {
      ReachedStep(fs, roots, source, target);
    }
  }

  lemma ResolvedConcat(fs: FileSystem, a: seq<string>, b: seq<string>)
    ensures Resolved(fs, a + b) == Resolved(fs, a) + Resolved(fs, b)
  {
  }

  /** The worklist ends, cycles or not, with exactly the files reached; it fails exactly when one cannot be read. */
  method Sources(fs: FileSystem, compose: seq<string>) returns (r: Result<set<string>>)
    ensures
      var roots := Resolved(fs, FileArguments(compose));
      && (r.Success? <==> forall source :: Reached(fs, roots, source) ==> source in fs.files)
      && (r.Success? ==> forall source :: source in r.value <==> Reached(fs, roots, source))
  {
    ghost var roots := Resolved(fs, FileArguments(compose));
    var pending := FileArguments(compose);
    var found: set<string> := {};
    FrontierStart(fs, roots);
    while pending != []
      invariant Frontier(fs, roots, found, Resolved(fs, pending))
      decreases fs.files.Keys - found, |pending|
    {
      var source, rest := fs.resolve(pending[|pending| - 1]), pending[..|pending| - 1];
      ResolvedConcat(fs, rest, [pending[|pending| - 1]]);
      assert pending == rest + [pending[|pending| - 1]];
      assert Resolved(fs, pending) == Resolved(fs, rest) + {source};
      if source in found {
        pending := rest;
        continue;
      }
      if source !in fs.files {
        return Failure("a Compose file cannot be read");
      }
      FrontierVisit(fs, roots, found, Resolved(fs, rest), source);
      ResolvedConcat(fs, rest, fs.files[source].extended);
      found, pending := found + {source}, rest + fs.files[source].extended;
    }
    assert Resolved(fs, []) == {};
    ClosedHoldsReached(fs, roots, found);
    return Success(found);
  }

  // ---------------------------------------------------------------- the placeholder environment

  type Environment = map<string, string>

  const PROJECT := "MARTY_CONFORMANCE_PROJECT"
  const KEYCLOAK_IMAGE := "MARTY_KEYCLOAK_IMAGE"
  const KEYCLOAK_DIGEST := "KEYCLOAK_KMS_IMAGE_DIGEST"
  const KMS_ORIGIN := "https://openbao:8200"

  /** What the caller supplies, later sources first. */
  function Supplied(os: Environment, images: Environment, material: Environment, project: string): Environment {
    (os + images + material)[PROJECT := project]
  }

  function EndsWith(s: string, suffix: string): bool {
    |suffix| <= |s| && s[|s| - |suffix|..] == suffix
  }

  function Placeholder(key: string, file: string): string {
    if EndsWith(key, "_FILE") then file else "bootstrap-only"
  }

  /** Everything the reached files require. */
  function Required(fs: FileSystem, sources: set<string>): set<string> {
    set source, key | source in sources && source in fs.files && key in fs.files[source].required :: key
  }

  /** A workload role: its variable prefix and its key. */
  datatype Role = Role(prefix: string, keyName: string)

  /** The defaults in the order they are offered. */
  function Defaults(roles: seq<Role>): seq<(string, string)> {
    if roles == [] then [("KEYCLOAK_KMS_ADDR", KMS_ORIGIN), ("KEYCLOAK_KMS_KEY_VERSION", "1")]
    else
      [(roles[0].prefix + "_TLS_KMS_KEY_NAME", roles[0].keyName),
       (roles[0].prefix + "_TLS_KMS_KEY_VERSION", "1"),
       (roles[0].prefix + "_TLS_KMS_ADDR", KMS_ORIGIN)] + Defaults(roles[1..])
  }

  /** The first default offered for a key. */
  function DefaultOf(defaults: seq<(string, string)>, key: string): Option<string> {
    if defaults == [] then None
    else
      var earlier := DefaultOf(defaults[..|defaults| - 1], key);
      var last := defaults[|defaults| - 1];
      if earlier.None? && last.0 == key then Some(last.1) else earlier
  }

  /** The part of a reference after its last `@`. */
  function AfterAt(reference: string): Option<string> {
    if reference == "" then None
    else if reference[|reference| - 1] == '@' then Some("")
    else
      match AfterAt(reference[..|reference| - 1])
      case None => None
      case Some(rest) => Some(rest + [reference[|reference| - 1]])
  }

  /** What each key ends up as. */
  function Bound(supplied: Environment, required: set<string>, file: string, digest: string,
                 defaults: seq<(string, string)>, key: string): Option<string> {
    if key == KEYCLOAK_DIGEST then Some(digest)
    else if key in supplied then Some(supplied[key])
    else if key in required then Some(Placeholder(key, file))
    else DefaultOf(defaults, key)
  }

  ghost predicate Binds(env: Environment, key: string, value: Option<string>) {
    if value.Some? then key in env && env[key] == value.value else key !in env
  }

  /** A supplied value stays; anything else is a placeholder. */
  ghost predicate Placeholders(env: Environment, supplied: Environment, file: string) {
    forall key :: key in env ==> env[key] == if key in supplied then supplied[key] else Placeholder(key, file)
  }

  /** What the inner loop has made of the first `n` keys. */
  ghost predicate FilledSoFar(env: Environment, before: Environment, supplied: Environment, file: string,
                              keys: seq<string>, n: nat)
    requires n <= |keys|
  {
    && Placeholders(env, supplied, file)
    && supplied.Keys <= before.Keys && env.Keys == before.Keys + Text.Elements(keys[..n])
  }

  lemma FillOneMore(env: Environment, before: Environment, supplied: Environment, file: string, keys: seq<string>,
                    n: nat)
    requires n < |keys| && FilledSoFar(env, before, supplied, file, keys, n)
    ensures
      var more := if keys[n] in env then env else env[keys[n] := Placeholder(keys[n], file)];
      FilledSoFar(more, before, supplied, file, keys, n + 1)
  {
    Text.ElementsSnoc(keys, n);
  }

  /** The inner loop: one file's variables. */
  method FillFile(keys: seq<string>, supplied: Environment, file: string, before: Environment)
    returns (env: Environment)
    requires Placeholders(before, supplied, file) && supplied.Keys <= before.Keys
    ensures Placeholders(env, supplied, file) && env.Keys == before.Keys + Text.Elements(keys)
  {
    env := before;
    var i := 0;
    while i < |keys|
      invariant 0 <= i <= |keys|
      invariant FilledSoFar(env, before, supplied, file, keys, i)
    {
      FillOneMore(env, before, supplied, file, keys, i);
      if keys[i] !in env {
        env := env[keys[i] := Placeholder(keys[i], file)];
      }
      i := i + 1;
    }
    assert keys[..i] == keys;
  }

  lemma RequiredGrows(fs: FileSystem, sources: set<string>, source: string)
    requires source in fs.files
    ensures Required(fs, sources + {source}) == Required(fs, sources) + Text.Elements(fs.files[source].required)
  {
  }

  /** The outer loop, over the reached files in whatever order the set is walked. */
  method FillRequired(fs: FileSystem, sources: set<string>, supplied: Environment, file: string)
    returns (env: Environment)
    requires sources <= fs.files.Keys
    ensures Placeholders(env, supplied, file) && env.Keys == supplied.Keys + Required(fs, sources)
  {
    env := supplied;
    var left := sources;
    while left != {}
      invariant left <= sources
      invariant Placeholders(env, supplied, file) && env.Keys == supplied.Keys + Required(fs, sources - left)
    {
      var source :| source in left;
      RequiredGrows(fs, sources - left, source);
      assert sources - (left - {source}) == sources - left + {source};
      env := FillFile(fs.files[source].required, supplied, file, env);
      left := left - {source};
    }
    assert sources - left == sources;
  }

  method OfferDefaults(start: Environment, defaults: seq<(string, string)>) returns (env: Environment)
    ensures forall key :: Binds(env, key, if key in start then Some(start[key]) else DefaultOf(defaults, key))
  {
    env := start;
    var i := 0;
    while i < |defaults|
      invariant 0 <= i <= |defaults|
      invariant forall key :: Binds(env, key, if key in start then Some(start[key]) else DefaultOf(defaults[..i], key))
    {
      ghost var before, longer := env, defaults[..i + 1];
      assert longer[..i] == defaults[..i] && longer[i] == defaults[i];
      if defaults[i].0 !in env {
        env := env[defaults[i].0 := defaults[i].1];
      }
      forall key ensures Binds(env, key, if key in start then Some(start[key]) else DefaultOf(longer, key)) {
        assert Binds(before, key, if key in start then Some(start[key]) else DefaultOf(defaults[..i], key));
      }
      i := i + 1;
    }
    assert defaults[..i] == defaults;
  }

  /** Every required variable of every reached file is bound; nothing supplied is replaced but the image digest. */
  method PlaceholderEnvironment(fs: FileSystem, compose: seq<string>, os: Environment, images: Environment,
                                material: Environment, project: string, file: string, roles: seq<Role>)
    returns (r: Result<Environment>)
    ensures
      var roots := Resolved(fs, FileArguments(compose));
      r.Success? <==>
        && (forall source :: Reached(fs, roots, source) ==> source in fs.files)
        && KEYCLOAK_IMAGE in images && AfterAt(images[KEYCLOAK_IMAGE]).Some?
    ensures r.Success? ==>
      var roots := Resolved(fs, FileArguments(compose));
      exists sources :: (forall source :: source in sources <==> Reached(fs, roots, source)) &&
        forall key :: Binds(r.value, key,
                            Bound(Supplied(os, images, material, project), Required(fs, sources), file,
                                  AfterAt(images[KEYCLOAK_IMAGE]).value, Defaults(roles), key))
  {
    var supplied := Supplied(os, images, material, project);
    var sources := Sources(fs, compose);
    if sources.Failure? {
      return Failure(sources.reason);
    }
    var env := FillRequired(fs, sources.value, supplied, file);
    if KEYCLOAK_IMAGE !in images || AfterAt(images[KEYCLOAK_IMAGE]).None? {
      return Failure("the Keycloak image has no digest");
    }
    var digest := AfterAt(images[KEYCLOAK_IMAGE]).value;
    var start := env[KEYCLOAK_DIGEST := digest];
    env := OfferDefaults(start, Defaults(roles));
    forall key
      ensures Binds(env, key, Bound(supplied, Required(fs, sources.value), file, digest, Defaults(roles), key))
    {
      assert Binds(env, key, if key in start then Some(start[key]) else DefaultOf(Defaults(roles), key));
    }
    return Success(env);
  }

  // ---------------------------------------------------------------- what the parts of it mean

  /** Certificate material beats image pins, those beat the process environment, and the project is always this one. */
  lemma SuppliedExact(os: Environment, images: Environment, material: Environment, project: string, key: string)
    ensures
      Binds(Supplied(os, images, material, project), key,
            if key == "MARTY_CONFORMANCE_PROJECT" then Some(project)
            else if key in material then Some(material[key])
            else if key in images then Some(images[key])
            else if key in os then Some(os[key])
            else None)
  {
  }

  /** A variable whose name ends in `_FILE` gets the placeholder file, any other a word. */
  lemma PlaceholderExact(key: string, file: string)
    ensures Placeholder(key, file) == if (exists stem :: key == stem + "_FILE") then file else "bootstrap-only"
  {
    if EndsWith(key, "_FILE") {
      assert key == key[..|key| - 5] + "_FILE";
    }
    if stem :| key == stem + "_FILE" {
      assert key[|key| - 5..] == "_FILE";
    }
  }

  /** The digest of a reference is what follows its last `@`. */
  lemma {:induction false} AfterAtExact(reference: string, digest: string)
    ensures AfterAt(reference) == Some(digest) <==>
      '@' !in digest && exists image :: reference == image + ("@" + digest)
  {
    if AfterAt(reference) == Some(digest) {
      AfterAtSound(reference);
    }
    if image :| '@' !in digest && reference == image + ("@" + digest) {
      AfterAtComplete(image, digest);
    }
  }

  lemma {:induction false} AfterAtSound(reference: string)
    requires AfterAt(reference).Some?
    ensures '@' !in AfterAt(reference).value
    ensures exists image :: reference == image + ("@" + AfterAt(reference).value)
  {
    var front, last := reference[..|reference| - 1], reference[|reference| - 1];
    assert reference == front + [last];
    if last == '@' {
      assert reference == front + ("@" + "");
    } else {
      AfterAtSound(front);
      var image :| front == image + ("@" + AfterAt(front).value);
      assert reference == image + ("@" + AfterAt(reference).value);
    }
  }

  lemma {:induction false} AfterAtComplete(image: string, digest: string)
    requires '@' !in digest
    ensures AfterAt(image + ("@" + digest)) == Some(digest)
    decreases |digest|
  {
    var reference := image + ("@" + digest);
    var front, last := reference[..|reference| - 1], reference[|reference| - 1];
    if digest == "" {
      assert last == '@';
    } else {
      var shorter := digest[..|digest| - 1];
      assert front == image + ("@" + shorter) && last == digest[|digest| - 1];
      AfterAtComplete(image, shorter);
      assert digest == shorter + [last];
    }
  }

  /** Three variables for each role and two for Keycloak are offered, in this order. */
  lemma {:induction false} DefaultsExact(roles: seq<Role>, i: nat)
    ensures |Defaults(roles)| == 3 * |roles| + 2
    ensures Defaults(roles)[3 * |roles|..]
         == [("KEYCLOAK_KMS_ADDR", "https://openbao:8200"), ("KEYCLOAK_KMS_KEY_VERSION", "1")]
    ensures i < |roles| ==> Defaults(roles)[3 * i..3 * i + 3] == [
      (roles[i].prefix + "_TLS_KMS_KEY_NAME", roles[i].keyName),
      (roles[i].prefix + "_TLS_KMS_KEY_VERSION", "1"),
      (roles[i].prefix + "_TLS_KMS_ADDR", "https://openbao:8200")]
  {
    if roles != [] {
      var rest := Defaults(roles[1..]);
      DefaultsExact(roles[1..], if i > 0 then i - 1 else 0);
      assert Defaults(roles)[3..] == rest;
      assert Defaults(roles)[3 * |roles|..] == rest[3 * (|roles| - 1)..];
      if 0 < i < |roles| {
        assert Defaults(roles)[3 * i..3 * i + 3] == rest[3 * (i - 1)..3 * (i - 1) + 3];
      }
    }
  }

  /** Of several defaults for one name the first is taken. */
  lemma {:induction false} FirstDefault(defaults: seq<(string, string)>, i: nat, key: string)
    requires i <= |defaults| && (forall j :: 0 <= j < i ==> defaults[j].0 != key)
    requires i < |defaults| ==> defaults[i].0 == key
    ensures DefaultOf(defaults, key) == if i < |defaults| then Some(defaults[i].1) else None
    decreases |defaults|
  {
    if defaults != [] {
      var front := defaults[..|defaults| - 1];
      FirstDefault(front, if i < |defaults| then i else |front|, key);
    }
  }
}

/** Deciding from a hosting service's answers whether a release tag lies in protected main history. */
module ReleaseLineage {
  import opened Bytes

  type Commit = string

  predicate IsSha(s: string) {
    |s| == 40 && forall i :: 0 <= i < |s| ==> '0' <= s[i] <= '9' || 'a' <= s[i] <= 'f'
  }

  // ---------------------------------------------------------------- history

  type Graph = map<Commit, set<Commit>>

  /** Parents are known commits of smaller rank: the history has no cycles. */
  ghost predicate Acyclic(g: Graph, rank: Commit -> nat) {
    && (forall c :: c in g ==> IsSha(c))
    && forall c, p :: c in g && p in g[c] ==> p in g && rank(p) < rank(c)
  }

  /** A commit together with everything reachable through parents. */
  ghost function History(g: Graph, rank: Commit -> nat, c: Commit): (h: set<Commit>)
    requires Acyclic(g, rank) && c in g
    ensures c in h && h <= g.Keys
    ensures forall a :: a in h ==> a == c || rank(a) < rank(c)
    decreases rank(c)
  {
    {c} + set p, a | p in g[c] && a in History(g, rank, p) :: a
  }

  lemma {:induction false} HistoryTransitive(g: Graph, rank: Commit -> nat, c: Commit, b: Commit)
    requires Acyclic(g, rank) && c in g && b in History(g, rank, c)
    ensures History(g, rank, b) <= History(g, rank, c)
    decreases rank(c)
  {
    if b != c {
      var p :| p in g[c] && b in History(g, rank, p);
      HistoryTransitive(g, rank, p, b);
      assert History(g, rank, p) <= History(g, rank, c);
    }
  }

  // ---------------------------------------------------------------- the service's answers

  /** A comparison of `base...head`; `None` marks a field that is absent or of the wrong type. */
  datatype Comparison = Comparison(
    base: Option<string>, mergeBase: Option<string>, status: Option<string>, aheadBy: Option<int>,
    behindBy: Option<int>)

  datatype Target = Target(kind: string, sha: string)

  datatype TagRef = TagRef(name: string, target: Option<Target>)

  datatype AnnotatedTag = AnnotatedTag(sha: string, tag: string, target: Option<Target>)

  datatype Branch = Branch(name: string, isProtected: bool, sha: Option<string>)

  /** Every lookup may fail, which is `None`. */
  datatype Api = Api(
    tagRef: string -> Option<TagRef>,
    annotatedTag: string -> Option<AnnotatedTag>,
    mainBranch: Option<Branch>,
    compare: (string, string) -> Option<Comparison>)

  ghost predicate BestCommonAncestor(g: Graph, rank: Commit -> nat, base: Commit, head: Commit, m: Commit)
    requires Acyclic(g, rank) && base in g && head in g
  {
    var common := History(g, rank, base) * History(g, rank, head);
    m in common && forall c :: c in common && m in History(g, rank, c) ==> c == m
  }

  /** How the service reports two counts. */
  predicate Reports(answer: Comparison, base: Commit, mergeBase: Commit, ahead: nat, behind: nat) {
    && answer.base == Some(base) && answer.mergeBase == Some(mergeBase)
    && answer.aheadBy == Some(ahead) && answer.behindBy == Some(behind)
    && answer.status == Some(
                          if ahead == 0 && behind == 0 then "identical"
                          else if behind == 0 then "ahead"
                          else if ahead == 0 then "behind" else "diverged")
  }

  /** What a comparison means: sizes of history differences, and some best common ancestor if there is one. */
  ghost predicate HonestComparison(g: Graph, rank: Commit -> nat, base: Commit, head: Commit,
                                   answer: Option<Comparison>)
    requires Acyclic(g, rank) && base in g && head in g
  {
    if History(g, rank, base) * History(g, rank, head) == {} then answer.None?
    else
      && answer.Some? && answer.value.mergeBase.Some?
      && BestCommonAncestor(g, rank, base, head, answer.value.mergeBase.value)
      && Reports(answer.value, base, answer.value.mergeBase.value,
                 |History(g, rank, head) - History(g, rank, base)|,
                 |History(g, rank, base) - History(g, rank, head)|)
  }

  // ---------------------------------------------------------------- the decision

  function ValidSha(value: Option<string>): Result<string> {
    if value.Some? && IsSha(value.value) then Success(value.value) else Failure("response is malformed")
  }

  predicate WellFormedComparison(c: Comparison) {
    && c.base.Some? && c.mergeBase.Some? && c.status.Some? && c.aheadBy.Some? && c.behindBy.Some?
    && c.aheadBy.value >= 0 && c.behindBy.value >= 0
    && ValidSha(c.base).Success? && ValidSha(c.mergeBase).Success?
  }

  function RequireMainAncestor(api: Api, tagged: Commit, main: Commit): Result<()> {
    match api.compare(tagged, main)
    case None => Failure("comparison lookup failed")
    case Some(c) =>
      if !WellFormedComparison(c) then Failure("comparison response is malformed")
      else
        var validCounts := (c.status.value == "identical" && c.aheadBy.value == 0)
                           || (c.status.value == "ahead" && c.aheadBy.value > 0);
        if c.base.value != tagged || c.mergeBase.value != tagged || c.behindBy.value != 0 || !validCounts
        then Failure("release tag commit is not an ancestor of protected main")
        else Success(())
  }

  function ObjectTarget(target: Option<Target>): Result<Target> {
    if target.Some? && IsSha(target.value.sha) then Success(target.value) else Failure("response is malformed")
  }

  function ResolveTagCommit(api: Api, tag: string, expected: Commit): Result<Commit> {
    match api.tagRef(tag)
    case None => Failure("tag ref lookup failed")
    case Some(reference) =>
      if reference.name != "refs/tags/" + tag then Failure("tag ref response does not match the requested tag")
      else
        match ObjectTarget(reference.target)
        case Failure(reason) => Failure(reason)
        case Success(found) =>
          if found.kind == "commit" then
            if found.sha == expected then Success(expected)
            else Failure("tag ref does not resolve to the workflow event commit")
          else if found.kind == "tag" then
            ResolveAnnotatedTag(api, tag, found.sha, expected)
          else Failure("tag ref has an unsupported target type")
  }

  function ResolveAnnotatedTag(api: Api, tag: string, sha: string, expected: Commit): Result<Commit> {
    match api.annotatedTag(sha)
    case None => Failure("annotated tag lookup failed")
    case Some(annotated) =>
      if annotated.sha != sha || annotated.tag != tag then
        Failure("annotated tag response does not match the requested tag")
      else
        match ObjectTarget(annotated.target)
        case Failure(reason) => Failure(reason)
        case Success(found) =>
          if found.kind != "commit" then Failure("annotated tag has an unsupported target type")
          else if found.sha != expected then Failure("annotated tag does not resolve to the workflow event commit")
          else Success(expected)
  }

  function CaptureProtectedMain(api: Api): Result<Commit> {
    match api.mainBranch
    case None => Failure("protected main lookup failed")
    case Some(branch) =>
      if branch.name != "main" || branch.sha.None? then Failure("protected main response is malformed")
      else if !branch.isProtected then Failure("main is not protected")
      else ValidSha(branch.sha)
  }

  /** Exactly one slash with something on both sides. */
  predicate IsOwnerRepo(repository: string) {
    exists i :: 0 < i < |repository| - 1 && repository[i] == '/' &&
      forall j :: 0 <= j < |repository| && repository[j] == '/' ==> j == i
  }

  function EnsureReleaseLineage(api: Api, repository: string, tag: string, expected: Commit, token: string)
    : Result<Commit>
  {
    if !IsOwnerRepo(repository) then Failure("repository must use OWNER/REPO format")
    else if tag == "" then Failure("tag must be non-empty")
    else if !IsSha(expected) then Failure("expected commit is invalid")
    else if token == "" then Failure("GH_TOKEN is required")
    else
      match ResolveTagCommit(api, tag, expected)
      case Failure(reason) => Failure(reason)
      case Success(tagged) =>
        match CaptureProtectedMain(api)
        case Failure(reason) => Failure(reason)
        case Success(main) =>
          if RequireMainAncestor(api, tagged, main).Success? then Success(main)
          else Failure(RequireMainAncestor(api, tagged, main).reason)
  }

  // ---------------------------------------------------------------- what the decision means

  lemma HistoryAntisymmetric(g: Graph, rank: Commit -> nat, a: Commit, b: Commit)
    requires Acyclic(g, rank) && a in g && b in g && a in History(g, rank, b) && b in History(g, rank, a)
    ensures a == b
  {
  }

  /** For an ancestor, the only best common ancestor is the ancestor itself, and nothing is behind. */
  lemma AncestorComparison(g: Graph, rank: Commit -> nat, tagged: Commit, main: Commit, m: Commit)
    requires Acyclic(g, rank) && tagged in g && main in g && tagged in History(g, rank, main)
    requires BestCommonAncestor(g, rank, tagged, main, m)
    ensures m == tagged && History(g, rank, tagged) - History(g, rank, main) == {}
  {
    HistoryTransitive(g, rank, main, tagged);
    assert tagged in History(g, rank, tagged) * History(g, rank, main);
    assert m in History(g, rank, tagged);
  }

  lemma NothingBehind(g: Graph, rank: Commit -> nat, tagged: Commit, main: Commit)
    requires Acyclic(g, rank) && tagged in g && main in g
    requires |History(g, rank, tagged) - History(g, rank, main)| == 0
    ensures tagged in History(g, rank, main)
  {
    assert tagged !in History(g, rank, tagged) - History(g, rank, main);
  }

  /** On reported counts the decision comes down to the merge base and to nothing being behind. */
  lemma DecisionIs(api: Api, tagged: Commit, main: Commit, c: Comparison, mergeBase: Commit, ahead: nat, behind: nat)
    requires api.compare(tagged, main) == Some(c) && Reports(c, tagged, mergeBase, ahead, behind)
    requires IsSha(tagged) && IsSha(mergeBase)
    ensures RequireMainAncestor(api, tagged, main).Success? <==> mergeBase == tagged && behind == 0
  {
    assert |"identical"| == 9 && |"ahead"| == 5 && |"behind"| == 6 && |"diverged"| == 8;
  }

  /** Whatever best common ancestor the service picks, the facts it reports decide ancestry exactly. */
  lemma AncestorExact(g: Graph, rank: Commit -> nat, api: Api, tagged: Commit, main: Commit)
    requires Acyclic(g, rank) && tagged in g && main in g
    requires HonestComparison(g, rank, tagged, main, api.compare(tagged, main))
    ensures RequireMainAncestor(api, tagged, main).Success? <==> tagged in History(g, rank, main)
  {
    var ht, hm := History(g, rank, tagged), History(g, rank, main);
    if ht * hm == {} {
      assert tagged !in hm by { assert tagged in ht; }
    } else {
      var c := api.compare(tagged, main).value;
      var m := c.mergeBase.value;
      DecisionIs(api, tagged, main, c, m, |hm - ht|, |ht - hm|);
      if tagged in hm {
        AncestorComparison(g, rank, tagged, main, m);
      } else if |ht - hm| == 0 {
        NothingBehind(g, rank, tagged, main);
      }
    }
  }

  /** The counts alone tell `identical` from `ahead`: nothing is ahead exactly when the commits are one. */
  lemma IdenticalIsEqual(g: Graph, rank: Commit -> nat, tagged: Commit, main: Commit)
    requires Acyclic(g, rank) && tagged in g && main in g && tagged in History(g, rank, main)
    ensures History(g, rank, main) - History(g, rank, tagged) == {} <==> tagged == main
  {
    if History(g, rank, main) - History(g, rank, tagged) == {} {
      assert main !in History(g, rank, main) - History(g, rank, tagged);
    }
  }

  /** The repository as it is: where the tag points, directly or through one annotated tag object, and where main is. */
  datatype Repository = Repository(
    graph: Graph, refs: map<string, Target>, tagObjects: map<string, AnnotatedTag>, main: Commit, mainProtected: bool)

  ghost predicate ServedTags(repo: Repository, api: Api) {
    && (forall tag :: api.tagRef(tag) ==
                      if tag in repo.refs then Some(TagRef("refs/tags/" + tag, Some(repo.refs[tag]))) else None)
    && (forall sha :: api.annotatedTag(sha) == if sha in repo.tagObjects then Some(repo.tagObjects[sha]) else None)
    && forall sha :: sha in repo.tagObjects ==> repo.tagObjects[sha].sha == sha
  }

  ghost predicate ServedHistory(repo: Repository, rank: Commit -> nat, api: Api) {
    && Acyclic(repo.graph, rank) && repo.main in repo.graph
    && api.mainBranch == Some(Branch("main", repo.mainProtected, Some(repo.main)))
    && forall base ::
      if base !in repo.graph then api.compare(base, repo.main).None?
      else HonestComparison(repo.graph, rank, base, repo.main, api.compare(base, repo.main))
  }

  /** A tag names a commit directly, or through one annotated tag object of the same name. */
  ghost predicate TagNames(repo: Repository, tag: string, commit: Commit) {
    && tag in repo.refs && IsSha(repo.refs[tag].sha) && IsSha(commit)
    && var direct := repo.refs[tag];
       || direct == Target("commit", commit)
       || (direct.kind == "tag" && direct.sha in repo.tagObjects
           && repo.tagObjects[direct.sha].tag == tag
           && repo.tagObjects[direct.sha].target == Some(Target("commit", commit)))
  }

  lemma TagExact(repo: Repository, api: Api, tag: string, expected: Commit)
    requires ServedTags(repo, api) && IsSha(expected)
    ensures ResolveTagCommit(api, tag, expected) == Success(expected) <==> TagNames(repo, tag, expected)
    ensures ResolveTagCommit(api, tag, expected).Success? ==> ResolveTagCommit(api, tag, expected).value == expected
  {
    if tag in repo.refs {
      var direct := repo.refs[tag];
      assert api.tagRef(tag) == Some(TagRef("refs/tags/" + tag, Some(direct)));
      if direct.kind == "tag" {
        assert |direct.kind| == 3 && |"commit"| == 6;
        AnnotatedExact(repo, api, tag, direct.sha, expected);
      }
    }
  }

  lemma AnnotatedExact(repo: Repository, api: Api, tag: string, sha: string, expected: Commit)
    requires ServedTags(repo, api) && IsSha(expected)
    ensures ResolveAnnotatedTag(api, tag, sha, expected).Success? <==>
      sha in repo.tagObjects && repo.tagObjects[sha].tag == tag
      && repo.tagObjects[sha].target == Some(Target("commit", expected))
    ensures ResolveAnnotatedTag(api, tag, sha, expected).Success? ==>
      ResolveAnnotatedTag(api, tag, sha, expected).value == expected
  {
  }

  lemma MainExact(repo: Repository, rank: Commit -> nat, api: Api)
    requires ServedHistory(repo, rank, api)
    ensures repo.mainProtected ==> CaptureProtectedMain(api) == Success(repo.main)
    ensures !repo.mainProtected ==> CaptureProtectedMain(api).Failure?
  {
  }

  lemma MainAncestorExact(repo: Repository, rank: Commit -> nat, api: Api, tagged: Commit)
    requires ServedHistory(repo, rank, api)
    ensures RequireMainAncestor(api, tagged, repo.main).Success? <==>
      tagged in repo.graph && tagged in History(repo.graph, rank, repo.main)
  {
    if tagged in repo.graph {
      AncestorExact(repo.graph, rank, api, tagged, repo.main);
    }
  }

  /** A release passes exactly when its tag names the expected commit, main is protected, and main's history holds
      it. */
  lemma LineageExact(repo: Repository, rank: Commit -> nat, api: Api, repository: string, tag: string,
                     expected: Commit, token: string)
    requires ServedTags(repo, api) && ServedHistory(repo, rank, api)
    ensures EnsureReleaseLineage(api, repository, tag, expected, token) == Success(repo.main) <==>
      && IsOwnerRepo(repository) && tag != "" && IsSha(expected) && token != ""
      && TagNames(repo, tag, expected) && repo.mainProtected
      && expected in repo.graph && expected in History(repo.graph, rank, repo.main)
    ensures EnsureReleaseLineage(api, repository, tag, expected, token).Success? ==>
      EnsureReleaseLineage(api, repository, tag, expected, token) == Success(repo.main)
  {
    MainExact(repo, rank, api);
    if IsSha(expected) {
      TagExact(repo, api, tag, expected);
      MainAncestorExact(repo, rank, api, expected);
      var resolved, main, decision :=
        ResolveTagCommit(api, tag, expected), CaptureProtectedMain(api), RequireMainAncestor(api, expected, repo.main);
    }
  }
}

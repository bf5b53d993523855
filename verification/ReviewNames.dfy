/** What the check of member names refuses while packing, told apart from everything else that packing checks. */
module ReviewNames {
  import opened Bytes
  import opened ReviewDelivery
  import opened ReviewPaths

  /** `add` without its check of names. */
  predicate FitsUnnamed(t: Tools, ms: Members, a: Addition) {
    Matches(t, a) && (a.name in ms ==> ms[a.name] == a.value) && Total(ms[a.name := a.value]) <= MAX_ARCHIVE
  }

  function PutUnnamed(t: Tools, ms: Members, additions: seq<Addition>): Option<Members> {
    if additions == [] then Some(ms)
    else
      var front, a := PutUnnamed(t, ms, additions[..|additions| - 1]), additions[|additions| - 1];
      if front.None? || !FitsUnnamed(t, front.value, a) then None else Some(front.value[a.name := a.value])
  }

  /** The members that the inputs would lead to without the check of names. */
  function UnnamedContents(t: Tools, summaryBytes: Bytes, requests: seq<Request>, inputs: Inputs): Option<Members> {
    var plan := Then(Some([Addition(SUMMARY, summaryBytes, None)]), Joined(RequestPlans(t, requests, inputs)));
    if inputs.exports.None? || plan.None? then None else PutUnnamed(t, map[], plan.value)
  }

  ghost predicate SafeNames(additions: seq<Addition>) {
    forall a :: a in additions ==> SafePath(a.name)
  }

  lemma {:induction false} PutAllNamed(t: Tools, ms: Members, additions: seq<Addition>)
    ensures PutAll(t, ms, additions) == if SafeNames(additions) then PutUnnamed(t, ms, additions) else None
  {
    if additions != [] {
      var front, a := additions[..|additions| - 1], additions[|additions| - 1];
      PutAllNamed(t, ms, front);
      LastSafeName(additions);
    }
  }

  lemma LastSafeName(additions: seq<Addition>)
    requires additions != []
    ensures SafeNames(additions) <==>
      SafeNames(additions[..|additions| - 1]) && SafePath(additions[|additions| - 1].name)
  {
    var front, a := additions[..|additions| - 1], additions[|additions| - 1];
    assert additions == front + [a];
    assert a in additions;
  }

  lemma {:induction false} PutUnnamedMatches(t: Tools, ms: Members, additions: seq<Addition>, a: Addition)
    requires PutUnnamed(t, ms, additions).Some? && a in additions
    ensures Matches(t, a)
  {
    var front := additions[..|additions| - 1];
    if a in front {
      PutUnnamedMatches(t, ms, front, a);
    } else {
      assert a == additions[|additions| - 1];
    }
  }

  /** Sheltered requests pass the check of names whenever they pass every other check. */
  lemma ShelteredPacks(t: Tools, summaryBytes: Bytes, requests: seq<Request>, inputs: Inputs)
    requires HexHash(t) && AllSheltered(requests, inputs)
    requires UnnamedContents(t, summaryBytes, requests, inputs).Some?
    ensures Contents(t, summaryBytes, requests, inputs) == UnnamedContents(t, summaryBytes, requests, inputs)
  {
    var summaryFirst := Addition(SUMMARY, summaryBytes, None);
    var later := Joined(RequestPlans(t, requests, inputs)).value;
    RequestsOrdinary(t, true, requests, inputs);
    ShelteredNames(t, summaryFirst, later);
    PutAllNamed(t, map[], [summaryFirst] + later);
  }

  lemma ShelteredNames(t: Tools, first: Addition, later: seq<Addition>)
    requires first.name == SUMMARY && Ordinary(t, true, Some(later)) && PutUnnamed(t, map[], [first] + later).Some?
    ensures SafeNames([first] + later)
  {
    forall a: Addition | a in [first] + later ensures SafePath(a.name) {
      PutUnnamedMatches(t, map[], [first] + later, a);
      ShelteredName(t, first, later, a);
    }
  }

  lemma ShelteredName(t: Tools, first: Addition, later: seq<Addition>, a: Addition)
    requires first.name == SUMMARY && Ordinary(t, true, Some(later)) && a in [first] + later && Matches(t, a)
    ensures SafePath(a.name)
  {
    if a in later {
      assert OrdinaryName(t, true, a);
    } else {
      SinglePart(first.name);
    }
  }

  lemma PackedSheltered(t: Tools, summaryBytes: Bytes, requests: seq<Request>, inputs: Inputs, r: nat)
    requires Contents(t, summaryBytes, requests, inputs).Some? && r < |requests|
    requires Listed(inputs.files(requests[r].source))
    ensures Sheltered(requests[r], inputs.files(requests[r].source))
  {
    var ms, request := Contents(t, summaryBytes, requests, inputs).value, requests[r];
    var files := inputs.files(request.source);
    RequestPlaced(t, summaryBytes, requests, inputs, r);
    PartsPlaced(t, ms, request, inputs);
    var evidence := EvidencePlan(request, files).value;
    assert evidence[1] in evidence;
    ReceiptExact(request.source);
    forall i | 0 <= i < |files.zips| ensures PlainName(files.zips[i].name) {
      JoinedPlaced(t, ms, ZipPlans(request.source, files.zips), i);
      ZipPlaced(t, ms, request.source, files.zips[i]);
      BesideExact(request.source, files.zips[i].name);
    }
  }

  lemma ZipPlaced(t: Tools, ms: Members, source: string, zip: ZipFile)
    requires PlanPlaced(t, ms, ZipPlan(source, zip))
    ensures SafePath(BesideName(source, zip.name))
  {
    var plan := ZipPlan(source, zip).value;
    assert plan[0] in plan;
  }

  /** The names of a directory listing. */
  predicate Listed(files: Files) {
    forall i :: 0 <= i < |files.zips| ==> '/' !in files.zips[i].name
  }

  /** The check of names refuses just what is not sheltered: evidence at the top of its directory, or an export beside
      it whose name is not plain. Everything else packs as it would without the check. */
  lemma ContentsSheltered(t: Tools, summaryBytes: Bytes, requests: seq<Request>, inputs: Inputs)
    requires HexHash(t)
    requires forall r :: 0 <= r < |requests| ==> Listed(inputs.files(requests[r].source))
    ensures Contents(t, summaryBytes, requests, inputs) ==
      if AllSheltered(requests, inputs) then UnnamedContents(t, summaryBytes, requests, inputs) else None
  {
    if Contents(t, summaryBytes, requests, inputs).Some? {
      forall r | 0 <= r < |requests| ensures Sheltered(requests[r], inputs.files(requests[r].source)) {
        PackedSheltered(t, summaryBytes, requests, inputs, r);
      }
      PutAllNamed(t, map[], [Addition(SUMMARY, summaryBytes, None)] + Joined(RequestPlans(t, requests, inputs)).value);
    } else if AllSheltered(requests, inputs) && UnnamedContents(t, summaryBytes, requests, inputs).Some? {
      ShelteredPacks(t, summaryBytes, requests, inputs);
    }
  }
}

/** Loading, binding and removing the candidate image in a Docker tag store where every command may fail. */
module CandidateStore {
  import opened Bytes
  import CandidateExport
  import OciAdmission
  import Text

  /** What `docker image inspect` shows. The identifier is the manifest or the configuration, by store type;
      `conforming` sums up the platform, environment and label checks. */
  datatype Image = Image(manifest: string, id: string, conforming: bool)

  datatype Pin = Pin(commit: string, digest: string, configDigest: string)

  const REPOSITORY := "docker.io/elevenid/marty-ui-verification-candidate"

  function ArchiveReference(pin: Pin): string {
    REPOSITORY + ":candidate-" + pin.commit
  }

  function VerifiedReference(pin: Pin): string {
    REPOSITORY + ":verified-" + pin.commit
  }

  function Scoped(pin: Pin): seq<string> {
    [ArchiveReference(pin), VerifiedReference(pin)]
  }

  lemma ReferencesDiffer(pin: Pin)
    ensures ArchiveReference(pin) != VerifiedReference(pin)
  {
    assert ArchiveReference(pin)[|REPOSITORY| + 1] == 'c';
    assert VerifiedReference(pin)[|REPOSITORY| + 1] == 'v';
  }

  type Tags = map<string, Image>

  /** The store differs from `before` at no tag outside `scope`. */
  ghost predicate OnlyAt(before: Tags, after: Tags, scope: set<string>) {
    forall reference :: reference !in scope ==>
      (reference in before <==> reference in after) && (reference in before ==> before[reference] == after[reference])
  }

  lemma Restored(before: Tags, after: Tags, scope: set<string>)
    requires OnlyAt(before, after, scope) && before.Keys !! scope && after.Keys !! scope
    ensures after == before
  {
    assert after.Keys == before.Keys by {
      forall reference ensures reference in before.Keys <==> reference in after.Keys {
        assert reference in scope || (reference in before <==> reference in after);
      }
    }
  }

  /** A load, even a failing one, binds at most the archive's own tag. */
  ghost predicate LoadStep(before: Tags, after: Tags, reference: string) {
    OnlyAt(before, after, {reference})
  }

  /** A tag command changes at most its target; `late` says that it reported failure after it had. */
  ghost predicate TagStep(before: Tags, after: Tags, reference: string, ok: bool, late: bool) {
    && OnlyAt(before, after, {reference})
    && (late ==> !ok && reference in after)
    && (!ok && !late ==> after == before)
  }

  /** A removal takes away at most its reference. */
  ghost predicate RemoveStep(before: Tags, after: Tags, reference: string) {
    after == before || after == before - {reference}
  }

  /** Some of these references are taken away and nothing else is changed; all of them, if `whole`. */
  ghost predicate Taken(before: Tags, after: Tags, references: set<string>, whole: bool) {
    && OnlyAt(before, after, references) && after.Keys <= before.Keys
    && (whole ==> after == before - references)
  }

  lemma TakenSnoc(
      before: Tags, between: Tags, after: Tags, references: set<string>, whole: bool, reference: string, gone: bool)
    requires Taken(before, between, references, whole)
    requires after == between - {reference} || (after == between && !gone)
    ensures Taken(before, after, references + {reference}, whole && gone)
  {
  }

  /** Content addressing: a manifest digest names the configuration that any manifest hashed to it states. */
  ghost predicate Names(readings: CandidateExport.Readings, configOf: string -> string) {
    forall raw :: readings.config(raw).Some? && readings.config(raw).value.digest.Some? ==>
      configOf(OciAdmission.DIGEST_PREFIX + readings.hash(raw)) == readings.config(raw).value.digest.value
  }

  lemma ExportNames(readings: CandidateExport.Readings, configOf: string -> string, pin: Pin, archive: Bytes)
    requires Names(readings, configOf) && CandidateExport.Exports(readings, pin.digest, pin.configDigest, archive)
    ensures configOf(pin.digest) == pin.configDigest
  {
  }

  // ---------------------------------------------------------------- what a run asks and is told

  datatype Chore = Validation | StagedArchive | Unstaging | Evidence

  /** What the world does; no program chooses how any of it ends. */
  datatype Event =
    | Did(chore: Chore, ok: bool)
    | Asked(reference: string, answer: Result<Option<Image>>)
    | Selected(digest: string, answer: Result<Option<Image>>)
    | Loaded(reference: string, ok: bool)
    | Saved(archive: Option<Bytes>)
    | Tagged(reference: string, ok: bool)
    | Removed(reference: string, completes: bool)

  /** How far a run has come as it should: after so many answers, between two of them, or no longer. */
  datatype Course = At(step: nat) | Exporting(image: Image) | Off

  const BEGUN := At(0)
  const VALIDATED := At(1)
  const BOUND := At(12)
  const FINISHED := At(18)

  /** The pinned manifest on the pinned platform. */
  predicate Conforms(image: Image, pin: Pin) {
    image.manifest == pin.digest && image.conforming
  }

  /** The answer that a run needs at each point, and where it leads. */
  ghost function Follow(readings: CandidateExport.Readings, pin: Pin, c: Course, e: Event): Course {
    var archive, verified := ArchiveReference(pin), VerifiedReference(pin);
    match c
    case Off => Off
    case Exporting(image) =>
      if e.Saved? && e.archive.Some? && Conforms(image, pin)
         && CandidateExport.Exports(readings, pin.digest, pin.configDigest, e.archive.value)
      then At(8) else Off
    case At(n) =>
      if n == 0 then if e == Did(Validation, true) then At(1) else Off
      else if n == 1 then if e == Did(StagedArchive, true) then At(2) else Off
      else if n == 2 then if e == Asked(archive, Success(None)) then At(3) else Off
      else if n == 3 then if e == Selected(pin.digest, Success(None)) then At(4) else Off
      else if n == 4 then if e == Asked(verified, Success(None)) then At(5) else Off
      else if n == 5 then if e == Loaded(archive, true) then At(6) else Off
      else if n == 6 then
        if e.Selected? && e.digest == pin.digest && e.answer.Success? && e.answer.value.Some?
        then Identified(pin, e.answer.value.value) else Off
      else if n == 8 then if e == Tagged(verified, true) then At(9) else Off
      else if n == 9 then
        if e.Asked? && e.reference == verified && e.answer.Success? && e.answer.value.Some?
           && Conforms(e.answer.value.value, pin) && e.answer.value.value.id in {pin.configDigest, pin.digest}
        then At(10) else Off
      else if n == 10 then if e == Removed(archive, true) then At(11) else Off
      else if n == 11 then if e == Asked(archive, Success(None)) then BOUND else Off
      else if n == 12 then if e == Did(Unstaging, true) then At(13) else Off
      else if n == 13 then if e == Did(Evidence, true) then At(14) else Off
      else if n == 14 then if e == Removed(archive, true) then At(15) else Off
      else if n == 15 then if e == Asked(archive, Success(None)) then At(16) else Off
      else if n == 16 then if e == Removed(verified, true) then At(17) else Off
      else if n == 17 then if e == Asked(verified, Success(None)) then FINISHED else Off
      else Off
  }

  /** An image whose identifier is the manifest has to be exported before it is judged. */
  function Identified(pin: Pin, image: Image): Course {
    if image.id == pin.configDigest then if Conforms(image, pin) then At(8) else Off
    else if image.id == pin.digest then Exporting(image) else Off
  }

  class Docker {
    const readings: CandidateExport.Readings
    /** The configuration a manifest digest names. */
    const configOf: string -> string
    var tags: Tags
    /** A `docker image tag` that reported failure had nevertheless bound its target. */
    ghost var late: bool
    /** A `docker image tag` reported success. */
    ghost var bound: bool
    /** The references whose removal was attempted. */
    ghost var attempted: set<string>
    /** The candidate whose run is followed, and how that goes. */
    ghost const pin: Pin
    ghost var course: Course

    /** An image identifier is truthful. */
    predicate Truthful(image: Image) {
      image.id == image.manifest || image.id == configOf(image.manifest)
    }

    ghost predicate Valid()
      reads this
    {
      Names(readings, configOf) && forall reference :: reference in tags ==> Truthful(tags[reference])
    }

    /** `docker image save`: an archive that may hold anything, or none. */
    method Save() returns (archive: Option<Bytes>)
      modifies this`course
      ensures course == Follow(readings, pin, old(course), Saved(archive))
    {
      archive := *;
      course := Follow(readings, pin, course, Saved(archive));
    }

    /** A step of the run that has nothing to do with tags. */
    method Do(chore: Chore) returns (ok: bool)
      modifies this`course
      ensures course == Follow(readings, pin, old(course), Did(chore, ok))
    {
      ok := *;
      course := Follow(readings, pin, course, Did(chore, ok));
    }

    /** Answers truthfully when it answers. */
    method InspectOptional(reference: string) returns (r: Result<Option<Image>>)
      requires Valid()
      modifies this`course
      ensures course == Follow(readings, pin, old(course), Asked(reference, r))
      ensures r.Success? && r.value.None? ==> reference !in tags
      ensures r.Success? && r.value.Some? ==> reference in tags && r.value.value == tags[reference]
    {
      var completes: bool := *;
      r := if !completes then Failure("inspect candidate image could not complete")
           else Success(if reference in tags then Some(tags[reference]) else None);
      course := Follow(readings, pin, course, Asked(reference, r));
    }

    /** A digest selector shows some tagged image with that manifest, or nothing. */
    method InspectSelector(digest: string) returns (r: Result<Option<Image>>)
      requires Valid()
      modifies this`course
      ensures course == Follow(readings, pin, old(course), Selected(digest, r))
      ensures r.Success? && r.value.Some? ==> Truthful(r.value.value) && r.value.value.manifest == digest
    {
      var completes: bool, resolves: bool := *, *;
      r := if completes then Success(None) else Failure("inspect candidate image could not complete");
      if completes && resolves && exists reference :: reference in tags && tags[reference].manifest == digest {
        var reference :| reference in tags && tags[reference].manifest == digest;
        r := Success(Some(tags[reference]));
      }
      course := Follow(readings, pin, course, Selected(digest, r));
    }

    /** Loading an inspected archive binds its own tag, to whatever image; a failing load may have done so too. */
    method Load(reference: string) returns (ok: bool)
      requires Valid()
      modifies this`tags, this`course
      ensures course == Follow(readings, pin, old(course), Loaded(reference, ok))
      ensures Valid() && LoadStep(old(tags), tags, reference)
    {
      var binds: bool, image: Image := *, *;
      ok := *;
      if binds && Truthful(image) {
        tags := tags[reference := image];
      }
      course := Follow(readings, pin, course, Loaded(reference, ok));
    }

    /** Binding a reference to whatever the selector means to Docker; it may fail before or after the fact. */
    method Tag(reference: string) returns (ok: bool)
      requires Valid() && !late
      modifies this`tags, this`late, this`bound, this`course
      ensures course == Follow(readings, pin, old(course), Tagged(reference, ok))
      ensures Valid() && TagStep(old(tags), tags, reference, ok, late) && bound == (old(bound) || ok)
    {
      var binds: bool, image: Image := *, *;
      ok := *;
      if binds && Truthful(image) {
        tags := tags[reference := image];
        late := !ok;
      }
      bound := bound || ok;
      course := Follow(readings, pin, course, Tagged(reference, ok));
    }

    /** `docker image rm -f`: its exit code is ignored, and it may have had no effect. */
    method Remove(reference: string) returns (completes: bool)
      requires Valid()
      modifies this`tags, this`attempted, this`course
      ensures course == Follow(readings, pin, old(course), Removed(reference, completes))
      ensures Valid() && attempted == old(attempted) + {reference}
      ensures RemoveStep(old(tags), tags, reference)
    {
      completes := *;
      var removes: bool := *;
      attempted := attempted + {reference};
      if removes {
        tags := tags - {reference};
      }
      course := Follow(readings, pin, course, Removed(reference, completes));
    }
  }

  /** A run that goes well is at a point where it removes this reference. */
  predicate RemovalDue(pin: Pin, c: Course, reference: string) {
    if c == At(16) then reference == VerifiedReference(pin)
    else c in {At(10), At(14)} && reference == ArchiveReference(pin)
  }

  /** Succeeds only when the reference is seen to be gone. */
  method RemoveCandidateImage(docker: Docker, reference: string) returns (r: Result<()>)
    requires docker.Valid()
    modifies docker`tags, docker`attempted, docker`course
    ensures docker.Valid() && docker.attempted == old(docker.attempted) + {reference}
    ensures docker.tags == old(docker.tags) || docker.tags == old(docker.tags) - {reference}
    ensures r.Success? ==> docker.tags == old(docker.tags) - {reference}
    ensures old(docker.course) == Off ==> docker.course == Off
    ensures old(RemovalDue(docker.pin, docker.course, reference)) ==>
      docker.course == if r.Success? then At(old(docker.course).step + 2) else Off
  {
    var completes := docker.Remove(reference);
    if !completes {
      return Failure("remove candidate image could not complete");
    }
    var left := docker.InspectOptional(reference);
    if left.Failure? {
      return Failure(left.reason);
    }
    if left.value.Some? {
      return Failure("remove candidate image did not remove its scoped reference");
    }
    return Success(());
  }

  /** Every reference is attempted, whatever happens to the ones before it. */
  method RemoveCandidateImages(docker: Docker, references: seq<string>) returns (r: Result<()>)
    requires docker.Valid()
    modifies docker`tags, docker`attempted, docker`course
    ensures docker.Valid()
    ensures docker.attempted == old(docker.attempted) + Text.Elements(references)
    ensures Taken(old(docker.tags), docker.tags, Text.Elements(references), r.Success?)
    ensures old(docker.course) == Off ==> docker.course == Off
    ensures old(docker.course) == At(14) && references == Scoped(docker.pin) ==>
      docker.course == if r.Success? then FINISHED else Off
  {
    ReferencesDiffer(docker.pin);
    var failures := 0;
    var i := 0;
    while i < |references|
      invariant 0 <= i <= |references| && failures >= 0
      invariant docker.Valid()
      invariant docker.attempted == old(docker.attempted) + Text.Elements(references[..i])
      invariant Taken(old(docker.tags), docker.tags, Text.Elements(references[..i]), failures == 0)
      invariant old(docker.course) == Off ==> docker.course == Off
      invariant old(docker.course) == At(14) && references == Scoped(docker.pin) ==>
        docker.course == if failures == 0 then At(14 + 2 * i) else Off
    {
      Text.ElementsSnoc(references, i);
      ghost var before, done, whole := docker.tags, Text.Elements(references[..i]), failures == 0;
      if references[i] !in references[..i] {
        var removed := RemoveCandidateImage(docker, references[i]);
        if removed.Failure? {
          failures := failures + 1;
        }
        TakenSnoc(old(docker.tags), before, docker.tags, done, whole, references[i], removed.Success?);
      }
      i := i + 1;
    }
    assert references[..i] == references;
    if failures > 0 {
      return Failure("candidate image cleanup did not remove every scoped reference");
    }
    return Success(());
  }

  // ---------------------------------------------------------------- identity of the loaded image

  /** The pinned manifest naming the pinned configuration; a pin that gives both one digest says nothing of the
      latter. */
  predicate IsPinned(image: Image, pin: Pin, docker: Docker) {
    image.manifest == pin.digest && ConfigPinned(pin, docker)
  }

  predicate ConfigPinned(pin: Pin, docker: Docker) {
    pin.digest == pin.configDigest || docker.configOf(pin.digest) == pin.configDigest
  }

  /** Without the configuration in the identifier, the image is exported and its manifest read. */
  method ExportedConfigDigest(docker: Docker, pin: Pin, inspected: Image)
    returns (r: Result<string>, ghost saved: Option<Bytes>)
    requires docker.Valid()
    modifies docker`course
    ensures docker.Valid()
    ensures r.Success? <==>
      || inspected.id == pin.configDigest
      || (inspected.id == pin.digest && saved.Some?
          && CandidateExport.Exports(docker.readings, pin.digest, pin.configDigest, saved.value))
    ensures r.Success? ==>
      && r.value == pin.configDigest
      && (inspected.id == pin.configDigest || docker.configOf(pin.digest) == pin.configDigest)
    ensures docker.pin == pin && old(docker.course) == Identified(pin, inspected) ==>
      docker.course == if r.Success? && Conforms(inspected, pin) then At(8) else Off
  {
    saved := None;
    if inspected.id == pin.configDigest {
      return Success(inspected.id), None;
    }
    if inspected.id != pin.digest {
      return Failure("loaded candidate image identity changed"), None;
    }
    var archive := docker.Save();
    saved := archive;
    if archive.None? {
      return Failure("export loaded candidate identity failed"), None;
    }
    r := CandidateExport.ReadExport(docker.readings, pin.digest, pin.configDigest, archive.value);
    if r.Success? {
      ExportNames(docker.readings, docker.configOf, pin, archive.value);
    }
  }

  method AssertLoadedInspection(inspected: Image, pin: Pin, exported: string) returns (r: Result<()>)
    ensures r.Success? <==>
      && inspected.manifest == pin.digest && inspected.conforming
      && (inspected.id == pin.configDigest || (inspected.id == pin.digest && exported == pin.configDigest))
  {
    var manifestBound := inspected.manifest == pin.digest;
    var configBound := inspected.id == pin.configDigest || (inspected.id == pin.digest && exported == pin.configDigest);
    if !manifestBound || !configBound || !inspected.conforming {
      return Failure("loaded candidate image identity changed");
    }
    return Success(());
  }

  // ---------------------------------------------------------------- load, bind, clean up

  /** How a command ends: with a value, with an error, or with an error from its own cleanup. */
  datatype Ending<+T> = Done(value: T) | Failed | CleanupFailed

  /** Looks at the new binding again, and then lets the archive's own tag go. */
  method ConfirmBinding(docker: Docker, pin: Pin, exported: string) returns (ok: bool)
    requires docker.Valid() && ConfigPinned(pin, docker)
    modifies docker`tags, docker`attempted, docker`course
    ensures docker.Valid() && old(docker.attempted) <= docker.attempted
    ensures docker.tags == old(docker.tags) || docker.tags == old(docker.tags) - {ArchiveReference(pin)}
    ensures docker.attempted <= old(docker.attempted) + {ArchiveReference(pin)}
    ensures docker.pin == pin && old(docker.course) == At(9) && exported == pin.configDigest ==>
      docker.course == if ok then BOUND else Off
    ensures ok ==>
      && docker.tags == old(docker.tags) - {ArchiveReference(pin)}
      && VerifiedReference(pin) in docker.tags && IsPinned(docker.tags[VerifiedReference(pin)], pin, docker)
  {
    ReferencesDiffer(pin);
    var rebound := docker.InspectOptional(VerifiedReference(pin));
    if rebound.Failure? || rebound.value.None? {
      return false;
    }
    var reasserted := AssertLoadedInspection(rebound.value.value, pin, exported);
    if reasserted.Failure? {
      return false;
    }
    var removed := RemoveCandidateImage(docker, ArchiveReference(pin));
    return removed.Success?;
  }

  /** Loads the archive and establishes what it holds. */
  method LoadIdentified(docker: Docker, pin: Pin) returns (exported: Result<string>)
    requires docker.Valid()
    modifies docker`tags, docker`course
    ensures docker.Valid() && OnlyAt(old(docker.tags), docker.tags, {ArchiveReference(pin)})
    ensures exported.Success? ==> exported.value == pin.configDigest && ConfigPinned(pin, docker)
    ensures docker.pin == pin && old(docker.course) == At(5) ==>
      docker.course == if exported.Success? then At(8) else Off
  {
    var loads := docker.Load(ArchiveReference(pin));
    if !loads {
      return Failure("load candidate OCI archive failed");
    }
    var inspected := docker.InspectSelector(pin.digest);
    if inspected.Failure? || inspected.value.None? {
      return Failure("loaded candidate image identity changed");
    }
    var image := inspected.value.value;
    var read, _ := ExportedConfigDigest(docker, pin, image);
    if read.Failure? {
      return read;
    }
    var asserted := AssertLoadedInspection(image, pin, read.value);
    return if asserted.Failure? then Failure(asserted.reason) else read;
  }

  /** The guarded part of the load; the flags say what the caller has to clean up. */
  method LoadAndBind(docker: Docker, pin: Pin) returns (ok: bool, bound: bool)
    requires docker.Valid() && !docker.late && !docker.bound
    requires ArchiveReference(pin) !in docker.tags && VerifiedReference(pin) !in docker.tags
    modifies docker
    ensures docker.Valid()
    ensures OnlyAt(old(docker.tags), docker.tags, {ArchiveReference(pin), VerifiedReference(pin)})
    ensures old(docker.attempted) <= docker.attempted && docker.bound == bound
    ensures docker.attempted <= old(docker.attempted) + {ArchiveReference(pin)}
    ensures ok ==>
      && !docker.late && VerifiedReference(pin) in docker.tags
      && docker.tags == old(docker.tags)[VerifiedReference(pin) := docker.tags[VerifiedReference(pin)]]
      && IsPinned(docker.tags[VerifiedReference(pin)], pin, docker)
    ensures !ok && !bound ==> (VerifiedReference(pin) in docker.tags <==> docker.late)
    ensures bound ==> !docker.late
    ensures docker.pin == pin && old(docker.course) == At(5) ==> docker.course == if ok then BOUND else Off
  {
    ReferencesDiffer(pin);
    var exported := LoadIdentified(docker, pin);
    if exported.Failure? {
      return false, false;
    }
    var tags := docker.Tag(VerifiedReference(pin));
    if !tags {
      return false, false;
    }
    ok := ConfirmBinding(docker, pin, exported.value);
    return ok, true;
  }

  /** Neither reference is bound and no image with the pinned manifest is there, as far as Docker answers. */
  method ReferencesFree(docker: Docker, pin: Pin) returns (free: bool)
    requires docker.Valid()
    modifies docker`course
    ensures docker.Valid()
    ensures free ==> ArchiveReference(pin) !in docker.tags && VerifiedReference(pin) !in docker.tags
    ensures docker.pin == pin && old(docker.course) == At(2) ==> docker.course == if free then At(5) else Off
  {
    var archive := docker.InspectOptional(ArchiveReference(pin));
    if archive != Success(None) {
      return false;
    }
    var selected := docker.InspectSelector(pin.digest);
    if selected != Success(None) {
      return false;
    }
    var verified := docker.InspectOptional(VerifiedReference(pin));
    return verified == Success(None);
  }

  /** Ends with just the verified tag added and pinned, or with the store as it was, or with an error of its own
      cleanup; a failing `docker image tag` that took effect is the one thing it does not undo. */
  method LoadCandidateArchive(docker: Docker, pin: Pin) returns (r: Ending<string>)
    requires docker.Valid() && !docker.late && !docker.bound
    modifies docker
    ensures docker.Valid()
    ensures OnlyAt(old(docker.tags), docker.tags, {ArchiveReference(pin), VerifiedReference(pin)})
    ensures r.Done? ==>
      && r.value == VerifiedReference(pin) && !docker.late
      && old(ArchiveReference(pin) !in docker.tags && VerifiedReference(pin) !in docker.tags)
      && VerifiedReference(pin) in docker.tags
      && docker.tags == old(docker.tags)[VerifiedReference(pin) := docker.tags[VerifiedReference(pin)]]
      && IsPinned(docker.tags[VerifiedReference(pin)], pin, docker)
    ensures docker.pin == pin && old(docker.course) == VALIDATED ==> docker.course == if r.Done? then BOUND else Off
    ensures r.Failed? ==> (docker.tags == old(docker.tags) <==> !docker.late)
    ensures r.Failed? && docker.late ==>
      && docker.tags.Keys == old(docker.tags).Keys + {VerifiedReference(pin)}
      && VerifiedReference(pin) !in old(docker.tags)
    ensures docker.attempted <=
      old(docker.attempted) + {ArchiveReference(pin)} + if docker.bound then {VerifiedReference(pin)} else {}
    ensures r.CleanupFailed? ==>
      && ArchiveReference(pin) in docker.attempted && (docker.bound ==> VerifiedReference(pin) in docker.attempted)
      && (VerifiedReference(pin) in docker.tags && !docker.late ==> VerifiedReference(pin) in docker.attempted)
  {
    ReferencesDiffer(pin);
    var staged := docker.Do(StagedArchive);
    if !staged {
      return Failed;
    }
    var archive, verified := ArchiveReference(pin), VerifiedReference(pin);
    var free := ReferencesFree(docker, pin);
    if !free {
      return Failed;
    }
    var ok, bound := LoadAndBind(docker, pin);
    if ok {
      return Done(verified);
    }
    var references := [archive] + if bound then [verified] else [];
    assert archive in references && (bound ==> verified in references);
    var cleaned := RemoveCandidateImages(docker, references);
    if cleaned.Success? && !docker.late {
      Restored(old(docker.tags), docker.tags, {archive, verified});
    }
    return if cleaned.Failure? then CleanupFailed else Failed;
  }

  /** From an empty store: the load binds the archive's tag, the tag command fails after taking effect, and the cleanup
      takes away the one reference it knows of. The verified tag stays. */
  lemma LateTagStays(pin: Pin, image: Image) returns (loaded: Tags, tagged: Tags, cleaned: Tags)
    ensures LoadStep(map[], loaded, ArchiveReference(pin)) && ArchiveReference(pin) in loaded
    ensures TagStep(loaded, tagged, VerifiedReference(pin), false, true)
    ensures RemoveStep(tagged, cleaned, ArchiveReference(pin)) && ArchiveReference(pin) !in cleaned
    ensures cleaned == map[VerifiedReference(pin) := image]
  {
    ReferencesDiffer(pin);
    loaded := map[ArchiveReference(pin) := image];
    tagged := loaded[VerifiedReference(pin) := image];
    cleaned := tagged - {ArchiveReference(pin)};
  }

  /** The evidence run over the loaded image, and the cleanup that follows it however it ends. */
  method RunEvidence(docker: Docker, pin: Pin, verified: string) returns (r: Ending<()>)
    requires docker.Valid()
    modifies docker`tags, docker`attempted, docker`course
    ensures docker.Valid()
    ensures docker.pin == pin && old(docker.course) == BOUND && verified == VerifiedReference(pin) ==>
      docker.course == if r.Done? then FINISHED else Off
    ensures OnlyAt(old(docker.tags), docker.tags, {ArchiveReference(pin), verified})
    ensures !r.CleanupFailed? ==> docker.tags == old(docker.tags) - {ArchiveReference(pin), verified}
    ensures docker.attempted == old(docker.attempted) + {ArchiveReference(pin), verified}
  {
    var tested := docker.Do(Unstaging);
    if tested {
      tested := docker.Do(Evidence);
    }
    var references := [ArchiveReference(pin), verified];
    assert Text.Elements(references) == {ArchiveReference(pin), verified};
    var cleaned := RemoveCandidateImages(docker, references);
    if cleaned.Failure? {
      return CleanupFailed;
    }
    return if tested then Done(()) else Failed;
  }

  /** The whole command: what validation, attestation and the evidence run do leaves tags alone, and the verified
      reference is removed however they end. */
  method RunCandidate(docker: Docker, pin: Pin) returns (r: Ending<()>)
    requires docker.Valid() && !docker.late && !docker.bound
    modifies docker
    ensures docker.Valid()
    ensures docker.pin == pin && old(docker.course) == BEGUN ==>
      docker.course == if r.Done? then FINISHED else Off
    ensures OnlyAt(old(docker.tags), docker.tags, {ArchiveReference(pin), VerifiedReference(pin)})
    ensures !r.CleanupFailed? ==> (docker.tags == old(docker.tags) <==> !docker.late)
    ensures r.Done? ==> docker.tags == old(docker.tags)
    ensures r.CleanupFailed? ==>
      && ArchiveReference(pin) in docker.attempted && (docker.bound ==> VerifiedReference(pin) in docker.attempted)
      && (VerifiedReference(pin) in docker.tags && !docker.late ==> VerifiedReference(pin) in docker.attempted)
  {
    var validated := docker.Do(Validation);
    if !validated {
      return Failed;
    }
    var loaded := LoadCandidateArchive(docker, pin);
    if !loaded.Done? {
      return if loaded.Failed? then Failed else CleanupFailed;
    }
    r := RunEvidence(docker, pin, loaded.value);
    if !r.CleanupFailed? && !docker.late {
      Restored(old(docker.tags), docker.tags, {ArchiveReference(pin), VerifiedReference(pin)});
    }
  }
}

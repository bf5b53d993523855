/** The four interoperability lanes, each with its own way of owning the projects it starts. Whatever stands between a
    lane's suite and its teardown (log capture, diagnostics, attestation) may raise past the handlers around it. */
module Lanes {
  import opened Bytes
  import opened SuiteCompose
  import opened Text

  datatype Lane = IssuerLane(localBinding: bool) | VerifierLane(urlQuery: bool, mdoc: bool) | W3cLane | EudiLane

  /** What the operator's environment decides, the same for every command of a run. */
  datatype Environment = Environment(runId: string, configured: bool, externallyCertified: bool)

  function ComposeCommand(env: Environment, command: Command, lane: Lane, retain: bool): Arguments {
    var native := lane.IssuerLane? && lane.localBinding;
    var haip := lane.VerifierLane? || lane.EudiLane?;
    Arguments(command, env.runId, false, !lane.EudiLane?, lane.EudiLane?, haip, haip, false, retain,
              env.configured, native, env.externallyCertified)
  }

  /** The projects that a lane starts. */
  function Owned(lane: Lane): set<Project> {
    match lane
    case W3cLane => {Marty}
    case EudiLane => {Marty, Eudi}
    case _ => {Marty, Oidf}
  }

  lemma CommandOwns(env: Environment, command: Command, lane: Lane, retain: bool)
    requires !lane.W3cLane?
    ensures Elements(Components(ComposeCommand(env, command, lane, retain))) == Owned(lane)
    ensures
      var args := ComposeCommand(env, command, lane, retain);
      && args.command == command && args.runId == env.runId && args.retainOnUpFailure == retain
      && args.configured == env.configured && args.externallyCertified == env.externallyCertified
      && (args.haip <==> args.haipMaterial) && (args.haip <==> !lane.IssuerLane?)
      && (args.nativeBinding <==> lane == IssuerLane(true))
      && (env.runId != "" && (retain ==> command == CommandUp) ==> ValidArguments(args))
  {
  }

  // ---------------------------------------------------------------- what a lane promises

  /** What stands unguarded between a lane's suite and its `down`. */
  function Unguarded(lane: Lane): set<Site> {
    match lane
    case IssuerLane(local) => if local then {Attestation} else {LogCapture, Diagnosis}
    case W3cLane => {Diagnosis}
    case _ => {LogCapture, Diagnosis}
  }

  /** Such work raised what no handler of its own names, and there was something to take down. */
  predicate Broken(lane: Lane, seen: Reading) {
    !(seen.uncaught !! Unguarded(lane)) && (lane.W3cLane? ==> seen.left)
  }

  /** The lane's projects outlive it: its launcher stranded them, or the way to its `down` was broken. */
  predicate Left(lane: Lane, seen: Reading) {
    Stranded(seen) || Broken(lane, seen)
  }

  function Suite(seen: Reading): Option<Outcome> {
    if seen.suite.None? then None else Some(seen.suite.value.result)
  }

  /** A lane raises if a launch, its suite or work of its own did, and so does a local binding whose last command
      failed. One that ends with an exit code ends with its suite's, or with 1 when the suite never ran; it raises only
      what was raised, or an error of its own for a command that failed. */
  predicate Reports(lane: Lane, outcome: Outcome, seen: Reading) {
    && (seen.faulted || (lane == IssuerLane(true) && seen.failure != Exit(0)) ==> outcome.Raised?)
    && match outcome
       case Exit(_) => outcome == if seen.suite.Some? then seen.suite.value.result else Exit(1)
       case Raised(error) => error in seen.thrown || error == RuntimeError
  }

  /** And if nothing raised it does report its suite, save that a local binding's `down` must have succeeded too. */
  predicate Delivers(lane: Lane, outcome: Outcome, seen: Reading) {
    seen.thrown == {} && seen.suite.Some? && (lane.IssuerLane? && lane.localBinding ==> seen.failure == Exit(0)) ==>
      outcome == seen.suite.value.result
  }

  /** A suite that gave a code has its log captured, is diagnosed if it failed, and its local binding is attested;
      a suite that succeeded is not diagnosed, except for the audit of mdoc bindings. */
  predicate Diligent(lane: Lane, seen: Reading) {
    && (seen.thrown == {} && seen.suite.Some? ==>
          && (!lane.W3cLane? ==> LogCapture in seen.begun)
          && (Suite(seen) != Some(Exit(0)) ==> Diagnosis in seen.begun)
          && (lane.IssuerLane? && lane.localBinding ==> Attestation in seen.begun))
    && (Suite(seen) == Some(Exit(0)) && !(lane.VerifierLane? && lane.mdoc) ==> Diagnosis !in seen.begun)
  }

  /** Lanes that sign requests renew Marty's certificate once the fixtures are there. */
  predicate Refreshes(lane: Lane) {
    match lane
    case EudiLane => true
    case VerifierLane(urlQuery, _) => !urlQuery
    case _ => false
  }

  /** What a lane does from its start to its suite. */
  function BodyMoves(lane: Lane): seq<Move> {
    [Work(Fixtures)] + if Refreshes(lane) then [Work(Fixtures), Do(Up, Marty), Work(Fixtures)] else []
  }

  function StartScript(env: Environment, lane: Lane, polls: nat): seq<Move> {
    if lane.W3cLane? then [Do(Up, Marty)]
    else UpMoves(ComposeCommand(env, CommandUp, lane, lane.VerifierLane?), polls)
  }

  ghost predicate StartedBy(env: Environment, lane: Lane, moves: seq<Move>) {
    exists polls :: moves == StartScript(env, lane, polls)
  }

  ghost predicate TestedAfter(env: Environment, lane: Lane, after: seq<Move>) {
    exists start :: StartedBy(env, lane, start) && after == start + BodyMoves(lane)
  }

  /** The suite runs unless something raised, an `up` or a check before it exited with a code, or the environment is
      not fit; and it runs with all the lane's projects up, after the whole start, the fixtures and any renewal, and
      only if none of these raised or exited with a code. */
  ghost predicate Tests(env: Environment, lane: Lane, seen: Reading) {
    && (seen.thrown == {} && !seen.stalled && (lane.W3cLane? || env.configured) ==> seen.suite.Some?)
    && (seen.suite.Some? ==>
          && Owned(lane) <= seen.suite.value.up && seen.suite.value.clean
          && TestedAfter(env, lane, seen.suite.value.after))
  }

  /** What every lane promises at its end. */
  ghost predicate Ended(env: Environment, lane: Lane, outcome: Outcome, state: State, seen: Reading) {
    && seen.orderly && !seen.blocked
    && (Down !in seen.raised ==> (AllDown(state, seen) <==> !Left(lane, seen)))
    && (Left(lane, seen) ==> outcome != Exit(0)) && (Broken(lane, seen) ==> outcome.Raised?)
    && Tests(env, lane, seen) && Reports(lane, outcome, seen) && Delivers(lane, outcome, seen) && Diligent(lane, seen)
  }

  // ---------------------------------------------------------------- one run with a stranded start

  const NONE := State({}, false)
  const MARTY_UP := State({Marty}, true)
  const BOTH_UP := State({Marty, Eudi}, true)

  /** An EUDI launch in which every process starts and exits with 0, and the wait for EUDI then raises what its handler
      does not name. */
  const UNHANDLED_WAIT := [
    Launched, Ran(Up, Marty, Exit(0), NONE, MARTY_UP), Ran(Inspect, Marty, Exit(0), MARTY_UP, MARTY_UP),
    Worked(Staging, None), Ran(Up, Marty, Exit(0), MARTY_UP, MARTY_UP), Ran(Up, Eudi, Exit(0), MARTY_UP, BOTH_UP),
    Worked(EudiWait, Some(OsError))]

  const UNHANDLED_MOVES := [
    Do(Up, Marty), Do(Inspect, Marty), Work(Staging), Do(Up, Marty), Do(Up, Eudi), Work(EudiWait)]

  const MARTY_READY := BLANK.(issued := {Marty}, ready := true, left := true, moves := UNHANDLED_MOVES[..1])

  const STRANDED := MARTY_READY.(
    issued := {Marty, Eudi}, begun := {Staging, EudiWait}, uncaught := {EudiWait}, thrown := {OsError}, escaped := true,
    clean := false, error := Some(OsError), moves := UNHANDLED_MOVES)

  /** What the first events of that run show. */
  function WaitReading(n: nat): Reading
    requires n <= 7
  {
    if n <= 1 then BLANK
    else if n <= 3 then MARTY_READY.(moves := UNHANDLED_MOVES[..n - 1])
    else if n <= 5 then MARTY_READY.(begun := {Staging}, moves := UNHANDLED_MOVES[..n - 1])
    else if n == 6 then MARTY_READY.(issued := {Marty, Eudi}, begun := {Staging}, moves := UNHANDLED_MOVES[..5])
    else STRANDED
  }

  function WaitState(n: nat): State {
    if n <= 1 then NONE else if n <= 5 then MARTY_UP else BOTH_UP
  }

  lemma WaitMoves(n: nat)
    requires n < 6
    ensures UNHANDLED_MOVES[..n] + [UNHANDLED_MOVES[n]] == UNHANDLED_MOVES[..n + 1]
    ensures UNHANDLED_MOVES[..6] == UNHANDLED_MOVES
  {
  }

  lemma WaitRead(n: nat)
    requires n < 7
    ensures Next(WaitReading(n), UNHANDLED_WAIT[n]) == WaitReading(n + 1)
  {
    if n > 0 {
      WaitMoves(n - 1);
    }
  }

  lemma WaitSteps(n: nat)
    requires n < 7
    ensures
      var e := UNHANDLED_WAIT[n];
      if e.Ran? then e.before == WaitState(n) && Steps(e) && e.after == WaitState(n + 1)
      else WaitState(n) == WaitState(n + 1)
  {
  }

  lemma {:induction false} UnhandledWaitRead(n: nat)
    requires n <= 7
    ensures Read(UNHANDLED_WAIT[..n]) == WaitReading(n) && Follows(UNHANDLED_WAIT[..n], NONE, WaitState(n))
  {
    if n > 0 {
      var front, last := UNHANDLED_WAIT[..n - 1], UNHANDLED_WAIT[n - 1];
      UnhandledWaitRead(n - 1);
      WaitRead(n - 1);
      WaitSteps(n - 1);
      Snoc(UNHANDLED_WAIT, n - 1);
      ReadSnoc(front, last);
      FollowsSnoc(front, last, NONE, WaitState(n - 1), WaitState(n));
    }
  }

  lemma FollowsSnoc(front: seq<Event>, e: Event, start: State, middle: State, end: State)
    requires Follows(front, start, middle)
    requires if e.Ran? then e.before == middle && Steps(e) && e.after == end else middle == end
    ensures Follows(front + [e], start, end)
  {
    assert (front + [e])[..|front + [e]| - 1] == front;
  }

  /** The launcher's whole script, its outcome, and both projects left up. */
  lemma UnhandledWaitStrands(env: Environment)
    requires !env.externallyCertified
    ensures
      var args, seen := ComposeCommand(env, CommandUp, EudiLane, false), Read(UNHANDLED_WAIT);
      && Follows(UNHANDLED_WAIT, NONE, BOTH_UP)
      && Scripted(args, 1, UpMoves(args, 1), [Marty, Eudi], Raised(OsError), seen)
      && Ends(seen, [Marty, Eudi]) == Raised(OsError)
      && seen.raised == {} && Stranded(seen) && !AllDown(BOTH_UP, seen)
  {
    UnhandledWaitRead(7);
    assert UNHANDLED_WAIT[..7] == UNHANDLED_WAIT;
    var args := ComposeCommand(env, CommandUp, EudiLane, false);
    var order := [Marty, Eudi];
    assert Components(args) == order;
    assert Polls(1) == [Do(Inspect, Marty)];
    assert Prelude(args, 1) == UNHANDLED_MOVES[..4];
    assert ThenUp(Prelude(args, 1), order, 1, 1) == UNHANDLED_MOVES[..4];
    assert UpMoves(args, 1) == UNHANDLED_MOVES;
    assert UNHANDLED_MOVES + [] == UNHANDLED_MOVES;
    assert Marty in STRANDED.issued && Marty in BOTH_UP.up;
  }

  // ---------------------------------------------------------------- launches

  /** An error inside the launcher becomes exit code 2, or 1 when it is of an unexpected kind. */
  function AsCode(outcome: Outcome): (code: Outcome)
    ensures code == Exit(0) <==> outcome == Exit(0)
  {
    match outcome
    case Exit(_) => outcome
    case Raised(error) => Exit(if error.OsError? || error.ValueError? then 2 else 1)
  }

  /** The launch followed its script and reported its end. */
  ghost predicate Launches(args: Arguments, outcome: Outcome, seen: Reading) {
    exists started, polls, tried ::
      Scripted(args, polls, tried, started, Ends(seen, started), seen) && outcome == AsCode(Ends(seen, started))
  }

  /** What a launch shows of a lane's own work: at most that its log could not be captured. */
  predicate LaunchGrows(before: Reading, after: Reading, uncaptured: bool) {
    && before.raised <= after.raised && before.thrown <= after.thrown && (before.stalled ==> after.stalled)
    && after.suite == before.suite
    && before.begun <= after.begun && (Diagnosis in after.begun ==> Diagnosis in before.begun)
    && before.uncaught <= after.uncaught
    && (LogCapture in after.uncaught ==> LogCapture in before.uncaught || uncaptured)
    && (uncaptured ==> LogCapture in after.uncaught)
    && (Attestation in after.uncaught ==> Attestation in before.uncaught)
    && (Diagnosis in after.uncaught ==> Diagnosis in before.uncaught)
  }

  /** What a lane knows after one launcher command; an `outcome` that is no exit code means that nothing was started. */
  ghost predicate LaunchEnds(env: Environment, command: Command, lane: Lane, retain: bool, outcome: Outcome,
                             was: State, before: Reading, state: State, seen: Reading) {
    && seen.orderly && LaunchGrows(before, seen, command == CommandOther && outcome.Raised?)
    && (outcome.Raised? ==> outcome.error in seen.thrown) && seen.faulted == (before.faulted || outcome.Raised?)
    && (outcome.Raised? || !env.configured ==>
          && state == was && seen.issued == before.issued
          && !seen.escaped && seen.moves == [] && !seen.blocked)
    && match command
       case CommandUp => UpEnds(env, lane, retain, outcome, before, state, seen)
       case CommandDown => DownEnds(env, lane, outcome, was, before, state, seen)
       case CommandOther =>
         && state == was && seen.issued == before.issued && !seen.escaped && !seen.blocked
         && (Down in seen.raised ==> Down in before.raised)
  }

  ghost predicate UpEnds(env: Environment, lane: Lane, retain: bool, outcome: Outcome, before: Reading, state: State,
                         seen: Reading) {
    && !seen.blocked && seen.issued <= before.issued + Owned(lane)
    && (outcome == Exit(0) ==>
          && env.configured && Owned(lane) <= state.up && state.bridge
          && seen.left && !seen.unwound && !seen.escaped && seen.clean
          && seen.issued == before.issued + Owned(lane))
    && (outcome == Exit(0) && retain == lane.VerifierLane? ==> StartedBy(env, lane, seen.moves))
    && (outcome != Exit(0) && env.configured && seen.issued <= Owned(lane) && before.issued == {} ==>
          seen.thrown != {} || seen.stalled)
    && (outcome.Exit? && env.configured ==> Launches(ComposeCommand(env, CommandUp, lane, retain), outcome, seen))
    && (outcome != Exit(0) && !retain && Down !in seen.raised ==> (AllDown(state, seen) <==> !Stranded(seen)))
  }

  ghost predicate DownEnds(env: Environment, lane: Lane, outcome: Outcome, was: State, before: Reading, state: State,
                           seen: Reading) {
    && seen.issued == before.issued && !seen.escaped
    && ((lane.EudiLane? ==> was.bridge) ==>
          && !seen.blocked
          && (Down !in seen.raised ==> state.up == was.up - if env.configured then Owned(lane) else {}))
    && (outcome == Exit(0) <==> TornDown(env, lane, seen))
    && (env.configured ==> (outcome == Exit(0) <==> seen.failure == Exit(0)))
  }

  lemma NotLaunchedEnds(env: Environment, command: Command, lane: Lane, retain: bool, error: Exception, state: State,
                        before: Reading, seen: Reading)
    requires before.orderly && !before.blocked && (command == CommandUp ==> AllDown(state, before))
    requires
      var action := match command case CommandUp => Up case CommandDown => Down case CommandOther => Inspect;
      seen == Next(before, NotLaunched(action, error))
    ensures LaunchEnds(env, command, lane, retain, Raised(error), state, before, state, seen)
  {
  }

  /** A lane sees only the launcher's exit code, or an error if it cannot be started. */
  method Launch(docker: Docker, env: Environment, command: Command, lane: Lane, retain: bool) returns (outcome: Outcome)
    requires docker.Valid() && docker.seen.orderly && !docker.seen.blocked && !lane.W3cLane?
    requires env.runId != "" && (retain ==> command == CommandUp)
    requires command == CommandUp ==> AllDown(docker.state, docker.seen)
    modifies docker
    ensures docker.Valid()
    ensures LaunchEnds(env, command, lane, retain, outcome, old(docker.state), old(docker.seen),
                       docker.state, docker.seen)
  {
    var action := match command case CommandUp => Up case CommandDown => Down case CommandOther => Inspect;
    var error := docker.Start(action);
    if error.Some? {
      NotLaunchedEnds(env, command, lane, retain, error.value, docker.state, old(docker.seen), docker.seen);
      return Raised(error.value);
    }
    outcome := RunLauncher(docker, env, command, lane, retain);
  }

  /** A start fails because something raised or something exited with a code. */
  lemma FailedStart(seen: Reading, started: seq<Project>, result: Outcome)
    requires Accounted(seen) && result == Ends(seen, started) && result != Exit(0)
    requires result.Exit? && started == [] ==> seen.stalled
    ensures seen.thrown != {} || seen.stalled
  {
  }

  /** The launcher's own process. */
  method RunLauncher(docker: Docker, env: Environment, command: Command, lane: Lane, retain: bool)
    returns (outcome: Outcome)
    requires docker.Valid() && docker.seen.orderly && !docker.seen.blocked && !lane.W3cLane?
    requires docker.seen == Fresh(docker.seen)
    requires env.runId != "" && (retain ==> command == CommandUp)
    requires command == CommandUp ==> AllDown(docker.state, docker.seen)
    modifies docker
    ensures docker.Valid() && outcome.Exit?
    ensures LaunchEnds(env, command, lane, retain, outcome, old(docker.state), old(docker.seen),
                       docker.state, docker.seen)
  {
    var args := ComposeCommand(env, command, lane, retain);
    CommandOwns(env, command, lane, retain);
    var result, started;
    ghost var polls, tried;
    result, started, polls, tried := Execute(docker, args);
    outcome := if result.Exit? then result
               else if result.error.OsError? || result.error.ValueError? then Exit(2) else Exit(1);
    ReadAccounted(docker.log);
    if command == CommandUp && env.configured && result != Exit(0) && old(docker.seen.issued) == {} {
      EmptyElements(started);
      FailedStart(docker.seen, started, result);
    }
    if command == CommandUp && outcome == Exit(0) && retain == lane.VerifierLane? {
      assert docker.seen.moves == StartScript(env, lane, polls);
    }
  }

  /** Every project's `down` was given and exited with 0. */
  predicate TornDown(env: Environment, lane: Lane, seen: Reading) {
    && seen.moves == Commands(Down, Reversed(Components(ComposeCommand(env, CommandDown, lane, false))))
    && seen.failure == Exit(0)
  }

  // ---------------------------------------------------------------- the suite

  /** What a step between start and teardown leaves as it is. */
  ghost predicate StillUp(before: Reading, after: Reading) {
    && after.orderly && !after.blocked && !after.unwound
    && after.issued == before.issued && after.uncaught == before.uncaught && after.left == before.left
    && before.raised <= after.raised && before.thrown <= after.thrown && (before.stalled ==> after.stalled)
    && before.begun <= after.begun <= before.begun + {Fixtures}
    && (before.faulted ==> after.faulted)
  }

  /** Re-signing the request certificate starts Marty once more, without taking it down. */
  method RefreshCertificate(docker: Docker) returns (raised: Option<Exception>)
    requires docker.Valid() && docker.seen.orderly && !docker.seen.blocked && !docker.seen.unwound
    requires Marty in docker.state.up && Marty in docker.seen.issued && docker.state.bridge && docker.seen.left
    modifies docker
    ensures docker.Valid() && docker.state == old(docker.state) && StillUp(old(docker.seen), docker.seen)
    ensures docker.seen.suite == old(docker.seen.suite)
    ensures raised.Some? ==> raised.value in docker.seen.thrown || (raised.value == RuntimeError && docker.seen.stalled)
    ensures raised.None? ==>
      docker.seen.moves == old(docker.seen.moves) + [Work(Fixtures), Do(Up, Marty), Work(Fixtures)]
      && docker.seen.clean == old(docker.seen.clean) && docker.seen.faulted == old(docker.seen.faulted)
  {
    raised := docker.Attempt(Fixtures);
    if raised.Some? {
      return;
    }
    var outcome := docker.Run(Up, Marty);
    if outcome != Exit(0) {
      return Some(if outcome.Raised? then outcome.error else RuntimeError);
    }
    raised := docker.Attempt(Fixtures);
  }

  /** A lane goes by its suite's result, or by what kept it from running. */
  predicate Suited(result: Outcome, seen: Reading) {
    && (if seen.suite.Some? then result == seen.suite.value.result else result.Raised?)
    && (result.Raised? ==> result.error in seen.thrown || (result.error == RuntimeError && seen.suite.None?))
  }

  /** Fixtures, at most one certificate refresh, and the suite. `code` is what a lane goes by afterwards: 1 until the
      suite has given a code. */
  method Body(docker: Docker, lane: Lane) returns (result: Outcome, code: int, attested: bool)
    requires docker.Valid() && docker.seen.orderly && !docker.seen.blocked && !docker.seen.unwound
    requires Marty in docker.state.up && Marty in docker.seen.issued && docker.state.bridge && docker.seen.left
    requires docker.seen.suite.None? && docker.seen.clean && !docker.seen.faulted
    modifies docker
    ensures docker.Valid() && docker.state == old(docker.state) && StillUp(old(docker.seen), docker.seen)
    ensures Suited(result, docker.seen) && (docker.seen.faulted ==> result.Raised?)
    ensures docker.seen.suite.Some? ==>
      docker.seen.suite.value.after == old(docker.seen.moves) + BodyMoves(lane) && docker.seen.suite.value.clean
      && docker.seen.suite.value.up == old(docker.state.up)
    ensures docker.seen.suite.None? ==> docker.seen.thrown != {} || docker.seen.stalled
    ensures result.Exit? ==> code == result.code
    ensures lane.W3cLane? ==> docker.seen.escaped == old(docker.seen.escaped)
    ensures docker.seen.suite.Some? && lane.IssuerLane? && lane.localBinding ==> attested
  {
    var raised := docker.Attempt(Fixtures);
    attested := *;
    if raised.Some? {
      return Raised(raised.value), 1, attested;
    }
    if lane.EudiLane? || (lane.VerifierLane? && !lane.urlQuery) {
      raised := RefreshCertificate(docker);
      if raised.Some? {
        return Raised(raised.value), 1, attested;
      }
    }
    result := docker.Test();
    code := *;
    return result, if result.Exit? then result.code else code, true;
  }

  // ---------------------------------------------------------------- after the suite

  /** Log capture and, after a failure, diagnostics; either may raise. */
  method CaptureLogs(docker: Docker, env: Environment, lane: Lane, diagnoses: bool) returns (raised: Option<Exception>)
    requires docker.Valid() && docker.seen.orderly && !docker.seen.blocked && !lane.W3cLane? && env.runId != ""
    requires LogCapture !in docker.seen.uncaught && Diagnosis !in docker.seen.uncaught
    modifies docker
    ensures docker.Valid() && docker.seen.orderly && !docker.seen.blocked && docker.state == old(docker.state)
    ensures docker.seen.issued == old(docker.seen.issued) && docker.seen.suite == old(docker.seen.suite)
    ensures Down in docker.seen.raised ==> Down in old(docker.seen.raised)
    ensures old(docker.seen.thrown) <= docker.seen.thrown && (old(docker.seen.stalled) ==> docker.seen.stalled)
    ensures docker.seen.thrown == {} ==> LogCapture in docker.seen.begun
    ensures old(docker.seen.begun) <= docker.seen.begun
    ensures Diagnosis in docker.seen.begun ==> diagnoses || Diagnosis in old(docker.seen.begun)
    ensures docker.seen.thrown == {} && diagnoses ==> Diagnosis in docker.seen.begun
    ensures old(docker.seen.uncaught) <= docker.seen.uncaught
    ensures Attestation in docker.seen.uncaught <==> Attestation in old(docker.seen.uncaught)
    ensures raised.Some? <==> LogCapture in docker.seen.uncaught || Diagnosis in docker.seen.uncaught
    ensures raised.Some? ==> raised.value in docker.seen.thrown
    ensures docker.seen.faulted == (old(docker.seen.faulted) || raised.Some?)
    ensures raised.None? ==> !docker.seen.escaped
  {
    var logs := Launch(docker, env, CommandOther, lane, false);
    if logs.Raised? {
      return Some(logs.error);
    }
    raised := docker.Attempt(LogCapture);
    if raised.None? && diagnoses {
      raised := docker.Attempt(Diagnosis);
    }
  }

  /** Log capture, diagnostics and teardown in a row, after a suite that gave `result`. */
  method FinishSuite(docker: Docker, env: Environment, lane: Lane, result: Outcome, diagnoses: bool)
    returns (outcome: Outcome)
    requires lane.VerifierLane? || lane.EudiLane? || (lane.IssuerLane? && !lane.localBinding)
    requires Finishing(env, lane, result, diagnoses, docker.state, docker.seen) && docker.Valid()
    modifies docker
    ensures docker.Valid() && Ended(env, lane, outcome, docker.state, docker.seen)
  {
    var raised := CaptureLogs(docker, env, lane, diagnoses);
    if raised.Some? {
      return Raised(raised.value);
    }
    outcome := TakeDownSuite(docker, env, lane, result);
  }

  method TakeDownSuite(docker: Docker, env: Environment, lane: Lane, result: Outcome) returns (outcome: Outcome)
    requires lane.VerifierLane? || lane.EudiLane? || (lane.IssuerLane? && !lane.localBinding)
    requires docker.Valid() && Captured(env, lane, result, docker.state, docker.seen)
    modifies docker
    ensures docker.Valid() && Ended(env, lane, outcome, docker.state, docker.seen)
  {
    var undone := Launch(docker, env, CommandDown, lane, false);
    return if undone.Raised? then undone else result;
  }

  /** Where a lane stands when the log of its suite is captured. */
  ghost predicate Captured(env: Environment, lane: Lane, result: Outcome, state: State, seen: Reading) {
    && env.runId != "" && env.configured
    && seen.orderly && !seen.blocked && !seen.escaped && seen.uncaught !! {Attestation, LogCapture, Diagnosis}
    && Marty in seen.issued && seen.issued == Owned(lane) <= state.up && state.bridge
    && Suited(result, seen) && Tests(env, lane, seen) && (seen.faulted ==> result.Raised?) && Diligent(lane, seen)
  }

  /** Where a lane stands when its suite is over. */
  ghost predicate Finishing(env: Environment, lane: Lane, result: Outcome, diagnoses: bool, state: State,
                            seen: Reading) {
    && env.runId != "" && env.configured
    && seen.orderly && !seen.blocked && Unhurt(seen)
    && Marty in seen.issued && seen.issued == Owned(lane) <= state.up && state.bridge
    && Suited(result, seen) && Tests(env, lane, seen) && (seen.faulted ==> result.Raised?)
    && (result != Exit(0) && result.Exit? ==> diagnoses)
    && (result == Exit(0) && !(lane.VerifierLane? && lane.mdoc) ==> !diagnoses)
  }

  predicate Unhurt(seen: Reading) {
    seen.uncaught !! {Attestation, LogCapture, Diagnosis} && Diagnosis !in seen.begun
  }

  // ---------------------------------------------------------------- the lanes

  function ErrorOf(outcome: Outcome): Option<Exception> {
    if outcome.Raised? then Some(outcome.error) else None
  }

  /** Looks at a start that exited with a code; the lane then ends with 1. */
  method DiagnoseStart(docker: Docker) returns (outcome: Outcome)
    requires docker.Valid()
    modifies docker
    ensures docker.Valid() && docker.state == old(docker.state)
    ensures docker.seen == Next(old(docker.seen), Worked(Initializer, ErrorOf(outcome)))
    ensures outcome == Exit(1) || outcome.Raised?
  {
    var raised := docker.Attempt(Initializer);
    return if raised.Some? then Raised(raised.value) else Exit(1);
  }

  /** The verifier lanes keep a failed start for its logs, and take it down themselves. */
  method RunOidf(docker: Docker, env: Environment, lane: Lane) returns (outcome: Outcome)
    requires docker.Valid() && docker.seen == BLANK && lane.VerifierLane? && env.runId != ""
    modifies docker
    ensures docker.Valid() && Ended(env, lane, outcome, docker.state, docker.seen)
  {
    outcome := Launch(docker, env, CommandUp, lane, true);
    if outcome.Raised? {
      return;
    }
    if outcome != Exit(0) {
      outcome := DiagnoseStart(docker);
      var undone := Launch(docker, env, CommandDown, lane, false);
      return if undone.Raised? then undone else outcome;
    }
    ghost var start := docker.seen.moves;
    var result, code, _ := Body(docker, lane);
    assert docker.seen.suite.Some? ==> docker.seen.suite.value.after == start + BodyMoves(lane);
    outcome := FinishSuite(docker, env, lane, result, code != 0 || lane.mdoc);
  }

  /** Teardown of the local issuer lane, which turns a failed `down` into an error of its own. */
  method DownLocalNativeIssuer(docker: Docker, env: Environment, lane: Lane) returns (raised: Option<Exception>)
    requires docker.Valid() && docker.seen.orderly && !docker.seen.blocked && lane.IssuerLane? && env.runId != ""
    requires docker.seen.issued <= {Marty, Oidf} && (!env.configured ==> AllDown(docker.state, docker.seen))
    modifies docker
    ensures docker.Valid() && docker.seen.orderly && !docker.seen.blocked && !docker.seen.escaped
    ensures Down !in docker.seen.raised ==> AllDown(docker.state, docker.seen)
    ensures LaunchGrows(old(docker.seen), docker.seen, false)
    ensures raised.None? <==> TornDown(env, lane, docker.seen)
    ensures env.configured ==> (raised.None? <==> docker.seen.failure == Exit(0))
    ensures raised.Some? ==> raised.value in docker.seen.thrown || raised.value == RuntimeError
    ensures docker.seen.faulted ==> old(docker.seen.faulted) || raised.Some?
  {
    var undone := Launch(docker, env, CommandDown, lane, false);
    return if undone.Raised? then Some(undone.error) else if undone != Exit(0) then Some(RuntimeError) else None;
  }

  /** A start of the issuer lane that did not succeed. */
  method AbandonOid4vciIssuer(docker: Docker, env: Environment, lane: Lane, started: Outcome) returns (outcome: Outcome)
    requires docker.Valid() && docker.seen.orderly && !docker.seen.blocked && lane.IssuerLane? && env.runId != ""
    requires docker.seen.issued <= {Marty, Oidf} && (!env.configured ==> AllDown(docker.state, docker.seen))
    requires Unhurt(docker.seen) && docker.seen.suite.None?
    requires Down !in docker.seen.raised ==> (AllDown(docker.state, docker.seen) <==> !Stranded(docker.seen))
    requires started != Exit(0) && (started.Raised? ==> started.error in docker.seen.thrown)
    requires docker.seen.faulted ==> started.Raised?
    requires env.configured ==> docker.seen.thrown != {} || docker.seen.stalled
    modifies docker
    ensures docker.Valid() && Ended(env, lane, outcome, docker.state, docker.seen)
    ensures !lane.localBinding ==> docker.state == old(docker.state)
    ensures lane.localBinding && Down !in docker.seen.raised ==> AllDown(docker.state, docker.seen)
  {
    outcome := started;
    if started.Exit? {
      outcome := DiagnoseStart(docker);
    }
    if lane.localBinding {
      var undone := DownLocalNativeIssuer(docker, env, lane);
      outcome := if undone.Some? then Raised(undone.value) else outcome;
    }
  }

  /** The issuer lane leaves a failed start to the launcher's own unwinding, unless it runs a local binding. */
  method RunOid4vciIssuer(docker: Docker, env: Environment, lane: Lane) returns (outcome: Outcome)
    requires docker.Valid() && docker.seen == BLANK && lane.IssuerLane? && env.runId != ""
    modifies docker
    ensures docker.Valid() && Ended(env, lane, outcome, docker.state, docker.seen)
  {
    outcome := Launch(docker, env, CommandUp, lane, false);
    if outcome != Exit(0) {
      outcome := AbandonOid4vciIssuer(docker, env, lane, outcome);
      return;
    }
    var result, code, attested := Body(docker, lane);
    if lane.localBinding {
      outcome := FinishLocalIssuer(docker, env, lane, result, code, attested);
    } else {
      outcome := FinishSuite(docker, env, lane, result, code != 0);
    }
  }

  /** A local binding is attested once more before its teardown, inside a handler for some kinds of exception only; log
      capture and diagnostics stand inside one for all. */
  method FinishLocalIssuer(docker: Docker, env: Environment, lane: Lane, result: Outcome, code: int, attested: bool)
    returns (outcome: Outcome)
    requires lane.IssuerLane? && lane.localBinding && docker.Valid()
    requires Finishing(env, lane, result, code != 0, docker.state, docker.seen)
    requires docker.seen.suite.Some? ==> attested
    modifies docker
    ensures docker.Valid() && Ended(env, lane, outcome, docker.state, docker.seen)
  {
    var broken: Option<Exception> := None;
    if attested {
      broken := docker.Attempt(Attestation);
      if broken.Some? && broken.value.OtherError? {
        return Raised(broken.value);
      }
    }
    var lost := CaptureLogs(docker, env, lane, code != 0);
    var undone := DownLocalNativeIssuer(docker, env, lane);
    return if undone.Some? then Raised(undone.value)
           else if lost.Some? then Raised(lost.value)
           else if broken.Some? then Raised(broken.value) else result;
  }

  /** The W3C lane drives the Marty stack script itself, inside one try/finally whose diagnostics come before `down`. */
  method RunW3c(docker: Docker, env: Environment) returns (outcome: Outcome)
    requires docker.Valid() && docker.seen == BLANK
    modifies docker
    ensures docker.Valid() && Ended(env, W3cLane, outcome, docker.state, docker.seen)
  {
    var code := 1;
    outcome := docker.Run(Up, Marty);
    if outcome.Exit? && outcome.code != 0 {
      outcome := DiagnoseStart(docker);
    } else if outcome.Exit? {
      ghost var start := docker.seen.moves;
      assert start == StartScript(env, W3cLane, 0);
      var attested;
      outcome, code, attested := Body(docker, W3cLane);
      assert docker.seen.suite.Some? ==> docker.seen.suite.value.after == start + BodyMoves(W3cLane);
    }
    outcome := FinishW3c(docker, env, outcome, code);
  }

  /** Where that lane stands when its middle is over. */
  ghost predicate W3cStands(env: Environment, result: Outcome, state: State, seen: Reading) {
    && seen.orderly && !seen.blocked && !seen.unwound && seen.uncaught == {} && seen.issued <= {Marty}
    && (seen.escaped ==> !seen.left) && (seen.left <==> Marty in seen.issued && Marty in state.up)
    && (seen.faulted ==> result.Raised?)
    && Reports(W3cLane, result, seen) && Delivers(W3cLane, result, seen) && Tests(env, W3cLane, seen)
  }

  /** The end of that try/finally, however its middle ended. */
  method FinishW3c(docker: Docker, env: Environment, result: Outcome, code: int) returns (outcome: Outcome)
    requires docker.Valid() && W3cStands(env, result, docker.state, docker.seen)
    requires Diagnosis !in docker.seen.begun && (docker.seen.suite.Some? ==> Suited(result, docker.seen))
    requires result.Exit? && docker.seen.suite.Some? ==> code == result.code
    requires result == Exit(0) ==> code == 0
    modifies docker
    ensures docker.Valid() && Ended(env, W3cLane, outcome, docker.state, docker.seen)
  {
    if code != 0 {
      var diagnosed := docker.Attempt(Diagnosis);
      if diagnosed.Some? {
        return Raised(diagnosed.value);
      }
    }
    outcome := TakeDownW3c(docker, env, result);
  }

  method TakeDownW3c(docker: Docker, env: Environment, result: Outcome) returns (outcome: Outcome)
    requires docker.Valid() && W3cStands(env, result, docker.state, docker.seen)
    requires Diligent(W3cLane, docker.seen)
    modifies docker
    ensures docker.Valid() && Ended(env, W3cLane, outcome, docker.state, docker.seen)
  {
    var undone := docker.Run(Down, Marty);
    return if undone.Raised? then undone else result;
  }

  /** The EUDI lane leaves a failed start to the launcher, and needs Marty's bridge for its own teardown. */
  method RunEudi(docker: Docker, env: Environment) returns (outcome: Outcome)
    requires docker.Valid() && docker.seen == BLANK && env.runId != ""
    modifies docker
    ensures docker.Valid() && Ended(env, EudiLane, outcome, docker.state, docker.seen)
  {
    outcome := Launch(docker, env, CommandUp, EudiLane, false);
    if outcome.Raised? {
      return;
    }
    if outcome != Exit(0) {
      outcome := DiagnoseStart(docker);
      return;
    }
    var result, code, _ := Body(docker, EudiLane);
    outcome := FinishSuite(docker, env, EudiLane, result, code != 0);
  }

  /** Over every pattern of exit codes and exceptions: what a lane started outlives it exactly when its launcher
      stranded it or unguarded work on the way to its `down` raised. An official checkout is looked at once more in the
      end. */
  method RunLane(docker: Docker, env: Environment, lane: Lane) returns (outcome: Outcome)
    requires docker.Valid() && docker.seen == BLANK && env.runId != ""
    modifies docker
    ensures docker.Valid() && Ended(env, lane, outcome, docker.state, docker.seen)
    ensures !lane.EudiLane? ==> Checkout in docker.seen.begun
  {
    match lane {
      case IssuerLane(_) => outcome := RunOid4vciIssuer(docker, env, lane);
      case VerifierLane(_, _) => outcome := RunOidf(docker, env, lane);
      case W3cLane => outcome := RunW3c(docker, env);
      case EudiLane => outcome := RunEudi(docker, env);
    }
    if !lane.EudiLane? {
      var changed := docker.Attempt(Checkout);
      if changed.Some? {
        return Raised(changed.value);
      }
    }
  }
}

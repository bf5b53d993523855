/** The three Compose projects of one run, and the launcher that starts and unwinds them. */
module SuiteCompose {
  import opened Bytes
  import opened Text

  datatype Project = Marty | Oidf | Eudi

  datatype Action = Up | Down | Inspect

  datatype Exception = OsError | ValueError | RuntimeError | KeyError | OtherError

  /** A child process exits with a code; starting it may instead raise, and then nothing has run. */
  datatype Outcome = Exit(code: int) | Raised(error: Exception)

  /** Work that a launcher or a lane does in its own process, and that may raise. */
  datatype Site =
    | Material | Staging | StartDiagnosis | EudiWait
    | Initializer | Fixtures | Attestation | LogCapture | Diagnosis | Checkout

  /** What the handler around a piece of work names; a lane's fixtures, its look at a start that failed,
      and that at a checkout in the end can raise anything without keeping it from its teardown. */
  predicate Catches(site: Site, error: Exception) {
    match site
    case Staging => error.OsError? || error.ValueError?
    case EudiWait => error.ValueError?
    case Attestation => !error.OtherError?
    case Initializer | Fixtures | Checkout => true
    case Material | StartDiagnosis | LogCapture | Diagnosis => false
  }

  /** `up` holds the projects that exist, wholly or in part; `bridge` is Marty's bridge network. */
  datatype State = State(up: set<Project>, bridge: bool)

  /** What the world does; no program chooses how any of it ends. */
  datatype Event =
    | Launched
    | NotLaunched(action: Action, error: Exception)
    | Ran(action: Action, project: Project, outcome: Outcome, before: State, after: State)
    | Worked(site: Site, raised: Option<Exception>)
    | Tested(result: Outcome, before: State)

  // ---------------------------------------------------------------- the world

  /** The EUDI helper refuses every command while Marty's bridge is missing. */
  predicate Refused(project: Project, before: State) {
    project == Eudi && !before.bridge
  }

  /** What can stop a child process from being started. */
  predicate StartError(error: Exception) {
    error.OsError? || error.ValueError?
  }

  predicate Steps(e: Event)
    requires e.Ran?
  {
    var before, after := e.before, e.after;
    if e.outcome.Raised? then StartError(e.outcome.error) && after == before
    else if Refused(e.project, before) then e.outcome.code != 0 && after == before
    else
      match e.action
      case Inspect => after == before
      case Down => after == State(before.up - {e.project}, before.bridge && e.project != Marty)
      case Up =>
        && before.up <= after.up <= before.up + {e.project}
        && (before.bridge ==> after.bridge)
        && (e.project != Marty ==> after.bridge == before.bridge)
        && (e.outcome.code == 0 ==> e.project in after.up && (e.project == Marty ==> after.bridge))
  }

  // ---------------------------------------------------------------- what a log says

  /** A command that was given, or a piece of work that was begun. */
  datatype Move = Do(action: Action, project: Project) | Work(site: Site)

  /** A suite's result; what was tried between the last launch and the suite, and whether all of it went well; what was
      up when it began. */
  datatype Test = Test(result: Outcome, after: seq<Move>, clean: bool, up: set<Project>)

  /** What a run has shown so far. Over the whole run,
      issued: projects an `up` was really started for;  raised: actions whose start ever raised;
      orderly: OIDF and EUDI only ever came up on a ready Marty, and no command followed Marty's `down` in a launch;
      blocked: a `down` met the EUDI helper's refusal although there was something of EUDI to take down;
      begun: the work that was begun;  uncaught: the work that raised what its handler does not name;
      thrown: every exception raised;  stalled: an `up`, or a check before the first of them, exited with a code;
      faulted: a launch could not be made, or the suite or work of a lane's own raised;
      suite: what the suite came to, and how it was started.
      Since the last launch,
      clean: nothing raised and nothing stalled;
      ready: the latest command on Marty was an `up` that succeeded;  unwound: Marty's `down` was attempted;
      escaped: an `up` could not be started, or work raised what its handler does not name;
      left: an `up` of Marty left something of it, whatever its exit code;
      error: the first exception, those of a `down` aside;  lastUp: how the latest `up` ended;
      moves: everything that was tried;  failure: how the first command that did not exit with 0 ended. */
  datatype Reading = Reading(
    issued: set<Project>, raised: set<Action>, orderly: bool, blocked: bool,
    begun: set<Site>, uncaught: set<Site>, thrown: set<Exception>, stalled: bool, faulted: bool,
    suite: Option<Test>, clean: bool, ready: bool, unwound: bool, escaped: bool, left: bool,
    error: Option<Exception>, lastUp: Outcome, moves: seq<Move>, failure: Outcome)

  /** Work that a lane does in its own process. */
  predicate IsOwn(site: Site) {
    site in {Initializer, Fixtures, Attestation, LogCapture, Diagnosis, Checkout}
  }

  /** An `up`, or a check before the first of them, that exits with a code. */
  predicate Stalls(r: Reading, action: Action, outcome: Outcome) {
    outcome.Exit? && outcome.code != 0 && (action == Up || (action == Inspect && r.issued == {}))
  }

  function Next(r: Reading, e: Event): Reading {
    match e
    case Launched =>
      Fresh(r)
    case NotLaunched(action, error) =>
      Fresh(r).(raised := r.raised + {action}, thrown := r.thrown + {error}, failure := Raised(error),
                faulted := true, clean := false,
                uncaught := r.uncaught + if action == Inspect then {LogCapture} else {})
    case Ran(action, project, outcome, before, after) =>
      Reading(
        if action == Up && outcome.Exit? then r.issued + {project} else r.issued,
        if outcome.Raised? then r.raised + {action} else r.raised,
        && r.orderly
        && (action == Up && project != Marty ==> r.ready && before.bridge)
        && (action != Inspect ==> !r.unwound),
        r.blocked || (action == Down && Refused(project, before) && Eudi in before.up),
        r.begun, r.uncaught, if outcome.Raised? then r.thrown + {outcome.error} else r.thrown,
        r.stalled || Stalls(r, action, outcome), r.faulted, r.suite,
        r.clean && outcome.Exit? && !Stalls(r, action, outcome),
        if project == Marty && action != Inspect then action == Up && outcome == Exit(0) else r.ready,
        r.unwound || (project == Marty && action == Down),
        r.escaped || (action == Up && outcome.Raised?),
        r.left || (action == Up && project == Marty && outcome.Exit? && Marty in after.up),
        if r.error.None? && outcome.Raised? && action != Down then Some(outcome.error) else r.error,
        if action == Up then outcome else r.lastUp,
        r.moves + [Do(action, project)],
        if r.failure == Exit(0) then outcome else r.failure)
    case Worked(site, raised) =>
      var loose := raised.Some? && !Catches(site, raised.value);
      r.(moves := r.moves + [Work(site)], begun := r.begun + {site}, error := if r.error.None? then raised else r.error,
         uncaught := if loose then r.uncaught + {site} else r.uncaught,
         thrown := r.thrown + if raised.Some? then {raised.value} else {},
         escaped := r.escaped || loose, clean := r.clean && raised.None?,
         faulted := r.faulted || (raised.Some? && IsOwn(site)))
    case Tested(result, before) =>
      r.(suite := if r.suite.None? then Some(Test(result, r.moves, r.clean, before.up)) else r.suite,
         thrown := r.thrown + if result.Raised? then {result.error} else {},
         clean := r.clean && result.Exit?, faulted := r.faulted || result.Raised?)
  }

  /** Another launch begins. */
  function Fresh(r: Reading): Reading {
    Reading(r.issued, r.raised, r.orderly, r.blocked, r.begun, r.uncaught, r.thrown, r.stalled, r.faulted, r.suite,
            true, false, false, false, false, None, Exit(0), [], Exit(0))
  }

  const BLANK :=
    Reading({}, {}, true, false, {}, {}, {}, false, false, None,
            true, false, false, false, false, None, Exit(0), [], Exit(0))

  function Read(log: seq<Event>): Reading {
    if log == [] then BLANK else Next(Read(log[..|log| - 1]), log[|log| - 1])
  }

  lemma ReadSnoc(log: seq<Event>, e: Event)
    ensures Read(log + [e]) == Next(Read(log), e)
  {
    assert (log + [e])[..|log + [e]| - 1] == log;
  }

  /** An exception that ends a start was thrown, and an `up` that failed has stalled the run. */
  predicate Accounted(r: Reading) {
    && (r.error.Some? ==> r.error.value in r.thrown)
    && (if r.lastUp.Raised? then r.error.Some? else r.lastUp.code != 0 ==> r.stalled)
  }

  lemma NextAccounted(r: Reading, e: Event)
    requires Accounted(r)
    ensures Accounted(Next(r, e))
  {
  }

  lemma {:induction false} ReadAccounted(log: seq<Event>)
    ensures Accounted(Read(log))
  {
    if log != [] {
      ReadAccounted(log[..|log| - 1]);
      NextAccounted(Read(log[..|log| - 1]), log[|log| - 1]);
    }
  }

  /** A log of events that starts at one state and ends at another. */
  predicate Follows(log: seq<Event>, start: State, end: State) {
    if log == [] then start == end
    else
      var front, last := log[..|log| - 1], log[|log| - 1];
      if last.Ran? then Follows(front, start, last.before) && Steps(last) && last.after == end
      else Follows(front, start, end)
  }

  class Docker {
    var state: State
    ghost var log: seq<Event>
    /** What the log shows; kept beside it so that each command needs only its own step. */
    ghost var seen: Reading
    /** An answer of Marty's was read as an identity. */
    ghost var identified: bool

    ghost predicate Valid()
      reads this
    {
      seen == Read(log)
    }

    /** Any exit code and any partial effect that `Steps` allows. */
    method Run(action: Action, project: Project) returns (outcome: Outcome)
      requires Valid()
      modifies this
      ensures Valid()
      ensures log == old(log) + [Ran(action, project, outcome, old(state), state)]
      ensures Steps(Ran(action, project, outcome, old(state), state))
      ensures seen == Next(old(seen), Ran(action, project, outcome, old(state), state))
      ensures identified == old(identified)
    {
      var raises: bool, missing: bool, code: int, creates: bool, bridges: bool := *, *, *, *, *;
      ghost var before := state;
      if raises {
        outcome := Raised(if missing then OsError else ValueError);
      } else if Refused(project, state) {
        outcome := Exit(if code == 0 then 1 else code);
      } else {
        outcome := Exit(code);
        match action
        case Inspect =>
        case Down =>
          state := State(state.up - {project}, state.bridge && project != Marty);
        case Up =>
          state := State(if creates || code == 0 then state.up + {project} else state.up,
                         state.bridge || (project == Marty && (bridges || code == 0)));
      }
      ghost var e := Ran(action, project, outcome, before, state);
      ReadSnoc(log, e);
      log, seen := log + [e], Next(seen, e);
    }

    /** Work that ends well or raises anything. */
    method Attempt(site: Site) returns (raised: Option<Exception>)
      requires Valid()
      modifies this`log, this`seen
      ensures Valid()
      ensures log == old(log) + [Worked(site, raised)] && seen == Next(old(seen), Worked(site, raised))
    {
      raised := *;
      ReadSnoc(log, Worked(site, raised));
      log, seen := log + [Worked(site, raised)], Next(seen, Worked(site, raised));
    }

    /** An answer with code 0 may hold an identity. */
    method Identify(answer: Outcome) returns (readable: bool)
      modifies this`identified
      ensures identified == (old(identified) || readable) && (readable ==> answer == Exit(0))
    {
      readable := *;
      readable := readable && answer == Exit(0);
      identified := identified || readable;
    }

    /** The one refusal that the launcher itself decides: no certificate without material or an identity in time. */
    ghost method Refuse()
      requires Valid()
      modifies this`log, this`seen
      ensures Valid()
      ensures log == old(log) + [Worked(Staging, Some(ValueError))]
      ensures seen == Next(old(seen), Worked(Staging, Some(ValueError)))
    {
      ReadSnoc(log, Worked(Staging, Some(ValueError)));
      log, seen := log + [Worked(Staging, Some(ValueError))], Next(seen, Worked(Staging, Some(ValueError)));
    }

    /** The official suite runs to some exit code, or raises. */
    method Test() returns (result: Outcome)
      requires Valid()
      modifies this`log, this`seen
      ensures Valid()
      ensures log == old(log) + [Tested(result, state)] && seen == Next(old(seen), Tested(result, state))
    {
      result := *;
      ReadSnoc(log, Tested(result, state));
      log, seen := log + [Tested(result, state)], Next(seen, Tested(result, state));
    }

    /** A launcher process starts, or cannot be started. */
    method Start(action: Action) returns (error: Option<Exception>)
      requires Valid()
      modifies this`log, this`seen
      ensures Valid() && (error.Some? ==> StartError(error.value))
      ensures
        var e := if error.None? then Launched else NotLaunched(action, error.value);
        log == old(log) + [e] && seen == Next(old(seen), e)
    {
      var missing: bool;
      error, missing := *, *;
      if error.Some? {
        error := Some(if missing then OsError else ValueError);
      }
      ghost var e := if error.None? then Launched else NotLaunched(action, error.value);
      ReadSnoc(log, e);
      log, seen := log + [e], Next(seen, e);
    }
  }

  // ---------------------------------------------------------------- the launcher

  datatype Command = CommandUp | CommandDown | CommandOther

  datatype Arguments = Arguments(
    command: Command, runId: string, martyOnly: bool, oidf: bool, eudi: bool, haip: bool,
    haipMaterial: bool, eudiMaterial: bool, retainOnUpFailure: bool,
    /** the environment and the remote-Docker contract check out */
    configured: bool,
    nativeBinding: bool, externallyCertified: bool)

  predicate ValidArguments(args: Arguments) {
    && args.runId != ""
    && !(args.martyOnly && (args.oidf || args.eudi || args.haip))
    && (args.haip ==> args.oidf || args.eudi)
    && (args.haipMaterial ==> args.haip)
    && (args.eudiMaterial ==> args.eudi)
    && (args.retainOnUpFailure ==> args.command == CommandUp)
    && (args.martyOnly || args.oidf || args.eudi)
  }

  /** The order in which projects start; every other command goes through it backwards. */
  function Components(args: Arguments): seq<Project> {
    [Marty] + (if args.oidf then [Oidf] else []) + (if args.eudi then [Eudi] else [])
  }

  function Reversed(ps: seq<Project>): (r: seq<Project>)
    ensures |r| == |ps| && forall i :: 0 <= i < |ps| ==> r[i] == ps[|ps| - 1 - i]
  {
    if ps == [] then [] else Reversed(ps[1..]) + [ps[0]]
  }

  /** One command on each project. */
  function Commands(action: Action, ps: seq<Project>): (cs: seq<Move>)
    ensures |cs| == |ps| && forall i :: 0 <= i < |ps| ==> cs[i] == Do(action, ps[i])
  {
    seq(|ps|, i requires 0 <= i < |ps| => Do(action, ps[i]))
  }

  // ---------------------------------------------------------------- what a start tries, and how it ends

  /** Only EUDI is waited for after its `up`. */
  function StartMoves(project: Project): seq<Move> {
    [Do(Up, project)] + if project == Eudi then [Work(EudiWait)] else []
  }

  /** Some moves, and then those of each project of a stretch of `order`. */
  function ThenUp(before: seq<Move>, order: seq<Project>, from: nat, to: nat): seq<Move>
    requires from <= to <= |order|
  {
    if from == to then before else ThenUp(before, order, from, to - 1) + StartMoves(order[to - 1])
  }

  /** The moves of a start that succeeds, whose lookup of an identity was repeated `polls` times. */
  function UpMoves(args: Arguments, polls: nat): seq<Move> {
    ThenUp(Prelude(args, polls), Components(args), LoopStart(args), |Components(args)|)
  }

  /** The independent runner images or an external certificate are checked first; an in-run certificate takes two starts
      of Marty with the certificate between them. */
  function Prelude(args: Arguments, polls: nat): seq<Move> {
    Checks(args) + if Certifies(args) then Certified(polls) else []
  }

  function Checks(args: Arguments): seq<Move> {
    (if args.oidf && args.nativeBinding then [Do(Inspect, Oidf)] else [])
    + (if args.haip && args.externallyCertified then [Work(Material)] else [])
  }

  function Certified(polls: nat): seq<Move> {
    [Do(Up, Marty)] + Adopting(polls)
  }

  function Adopting(polls: nat): seq<Move> {
    Polls(polls) + [Work(Staging)] + [Do(Up, Marty)]
  }

  function Polls(n: nat): (moves: seq<Move>)
    ensures |moves| == n
  {
    seq(n, _ => Do(Inspect, Marty))
  }

  predicate Certifies(args: Arguments) {
    args.haip && !args.externallyCertified
  }

  /** A `down` for everything started, last first, unless it is retained or an exception was not caught. */
  function Downs(seen: Reading, retain: bool, started: seq<Project>): seq<Move> {
    if retain || seen.escaped then [] else Commands(Down, Reversed(started))
  }

  /** What follows a start that failed: diagnostics first, if an `up` of the start loop exited with a code and it was
      not OIDF's. */
  function Aftermath(seen: Reading, certifies: bool, retain: bool, started: seq<Project>): seq<Move> {
    if started != [] && seen.lastUp.Exit? && seen.lastUp.code != 0 && started[|started| - 1] != Oidf
       && !(certifies && |started| == 1)
    then [Work(StartDiagnosis)] + Downs(seen, retain, started)
    else Downs(seen, retain, started)
  }

  /** A part of a start does what it tries, and if it fails just what is due then. */
  predicate Moved(before: seq<Move>, tried: seq<Move>, certifies: bool, retain: bool, started: seq<Project>,
                  outcome: Outcome, seen: Reading) {
    seen.moves == if outcome == Exit(0) then before + tried
                  else before + tried + Aftermath(seen, certifies, retain, started)
  }

  /** A start follows its script to the end or some way, and then does just what is due. */
  predicate Scripted(args: Arguments, polls: nat, tried: seq<Move>, started: seq<Project>, outcome: Outcome,
                     seen: Reading) {
    && tried <= UpMoves(args, polls)
    && (outcome == Exit(0) ==> tried == UpMoves(args, polls) && started == Components(args))
    && seen.moves == if outcome == Exit(0) then tried
                     else tried + Aftermath(seen, Certifies(args), args.retainOnUpFailure, started)
  }

  /** The first exception ends a start, or else the code of its last `up`; a failed check of images counts as 1. */
  function Ends(seen: Reading, started: seq<Project>): Outcome {
    if seen.error.Some? then Raised(seen.error.value)
    else if started == [] then Exit(1) else seen.lastUp
  }

  /** A launch adds to what the run has shown, but of a lane's own work it shows nothing. */
  predicate Grows(before: Reading, after: Reading) {
    && before.raised <= after.raised && before.thrown <= after.thrown && (before.stalled ==> after.stalled)
    && after.suite == before.suite && after.faulted == before.faulted
    && before.begun <= after.begun && (Diagnosis in after.begun ==> Diagnosis in before.begun)
    && before.uncaught <= after.uncaught
    && (LogCapture in after.uncaught ==> LogCapture in before.uncaught)
    && (Attestation in after.uncaught ==> Attestation in before.uncaught)
    && (Diagnosis in after.uncaught ==> Diagnosis in before.uncaught)
  }

  /** Nothing that was started in this run is left. */
  predicate AllDown(state: State, seen: Reading) {
    seen.issued !! state.up
  }

  /** An exception was not caught, after an `up` that left something of Marty. */
  predicate Stranded(seen: Reading) {
    seen.escaped && seen.left
  }

  lemma ReversedStep(ps: seq<Project>, i: nat)
    requires i < |ps|
    ensures Commands(Down, Reversed(ps[i..])) == Commands(Down, Reversed(ps[i + 1..])) + [Do(Down, ps[i])]
    ensures Elements(ps[i..]) == Elements(ps[i + 1..]) + {ps[i]}
  {
    assert ps[i..] == [ps[i]] + ps[i + 1..];
  }

  /** What a teardown leaves as it is. */
  predicate SameStart(before: Reading, after: Reading) {
    && after.issued == before.issued && after.uncaught == before.uncaught && Grows(before, after)
    && after.escaped == before.escaped && after.left == before.left
    && after.error == before.error && after.lastUp == before.lastUp
  }

  /** One `down` of an unwind; one that cannot be started is only reported. */
  method StopOne(docker: Docker, project: Project)
    requires docker.Valid()
    requires docker.seen.orderly && !docker.seen.unwound && !docker.seen.blocked
    requires project == Eudi ==> docker.state.bridge
    modifies docker
    ensures docker.Valid() && SameStart(old(docker.seen), docker.seen)
    ensures docker.seen.orderly && !docker.seen.blocked
    ensures project != Marty ==> !docker.seen.unwound && docker.state.bridge == old(docker.state.bridge)
    ensures docker.seen.moves == old(docker.seen.moves) + [Do(Down, project)]
    ensures Down !in docker.seen.raised ==> docker.state.up == old(docker.state.up) - {project}
  {
    var outcome := docker.Run(Down, project);
  }

  /** Every start begins with Marty, and with Marty only once. */
  predicate MartyFirst(started: seq<Project>) {
    started != [] && started[0] == Marty && forall i :: 0 < i < |started| ==> started[i] != Marty
  }

  lemma StartsWithMarty(order: seq<Project>, started: seq<Project>)
    requires MartyFirst(order)
    requires started <= order && started != []
    ensures MartyFirst(started) && Marty in Elements(started)
  {
  }

  /** Takes down what was started, last first; a `down` that cannot be started is only reported. */
  method StopStarted(docker: Docker, started: seq<Project>)
    requires docker.Valid() && MartyFirst(started)
    requires docker.seen.orderly && !docker.seen.unwound && !docker.seen.blocked
    requires Eudi in started ==> docker.state.bridge
    modifies docker
    ensures docker.Valid() && SameStart(old(docker.seen), docker.seen)
    ensures docker.seen.orderly && !docker.seen.blocked
    ensures docker.seen.moves == old(docker.seen.moves) + Commands(Down, Reversed(started))
    ensures Down !in docker.seen.raised ==> docker.state.up == old(docker.state.up) - Elements(started)
  {
    var i := |started|;
    while i > 0
      invariant docker.Valid() && SameStart(old(docker.seen), docker.seen)
      invariant 0 <= i <= |started|
      invariant docker.seen.orderly && !docker.seen.blocked
      invariant i > 0 ==> !docker.seen.unwound && docker.state.bridge == old(docker.state.bridge)
      invariant docker.seen.moves == old(docker.seen.moves) + Commands(Down, Reversed(started[i..]))
      invariant Down !in docker.seen.raised ==>
        docker.state.up == old(docker.state.up) - Elements(started[i..])
    {
      i := i - 1;
      ReversedStep(started, i);
      StopOne(docker, started[i]);
    }
    assert started[0..] == started;
  }

  /** Where a launch stands between two of its `up` commands. */
  ghost predicate Starting(order: seq<Project>, started: seq<Project>, issued: set<Project>, up: set<Project>,
                           state: State, seen: Reading) {
    && started <= order
    && seen.orderly && !seen.blocked && !seen.unwound && !seen.escaped && seen.error.None?
    && seen.lastUp == Exit(0) && seen.clean && (seen.left <==> started != [])
    && (if started == [] then !seen.ready else seen.ready && state.bridge)
    && seen.issued == issued + Elements(started)
    && state.up == up + Elements(started)
  }

  /** Where a launch stands when something went wrong that it can still take back. */
  ghost predicate Failing(order: seq<Project>, started: seq<Project>, issued: set<Project>, up: set<Project>,
                          state: State, seen: Reading) {
    && MartyFirst(order) && started <= order && started != []
    && seen.orderly && !seen.unwound && !seen.blocked && !seen.escaped
    && (Eudi in started ==> state.bridge)
    && (seen.left <==> Marty in state.up) && (|started| > 1 ==> seen.left)
    && issued !! up
    && seen.issued == issued + Elements(started)
    && state.up <= up + Elements(started)
  }

  /** The promise after a start that failed. */
  ghost predicate Undone(retain: bool, outcome: Outcome, state: State, seen: Reading) {
    && seen.orderly && !seen.blocked
    && (seen.escaped ==> outcome.Raised?)
    && (outcome != Exit(0) && !retain && Down !in seen.raised ==> (AllDown(state, seen) <==> !Stranded(seen)))
  }

  /** Unwinds after a failure, unless told to retain what is there. */
  method Unwind(docker: Docker, order: seq<Project>, retain: bool, started: seq<Project>,
                ghost issued: set<Project>, ghost up: set<Project>)
    requires docker.Valid() && Failing(order, started, issued, up, docker.state, docker.seen)
    modifies docker
    ensures docker.Valid() && SameStart(old(docker.seen), docker.seen)
    ensures docker.seen.orderly && !docker.seen.blocked
    ensures retain ==> docker.log == old(docker.log) && docker.seen == old(docker.seen)
    ensures retain ==> docker.state == old(docker.state)
    ensures docker.seen.moves
         == old(docker.seen.moves) + if retain then [] else Commands(Down, Reversed(started))
    ensures !retain && Down !in docker.seen.raised ==> AllDown(docker.state, docker.seen)
  {
    if !retain {
      StartsWithMarty(order, started);
      StopStarted(docker, started);
    }
  }

  /** What looking at Marty and working beside it leave as they are. */
  predicate StillReady(before: Reading, after: Reading) {
    && after == before.(raised := after.raised, begun := after.begun, uncaught := after.uncaught,
                        thrown := after.thrown, stalled := after.stalled, escaped := after.escaped,
                        clean := after.clean, error := after.error, moves := after.moves,
                        failure := after.failure)
    && (Down in after.raised ==> Down in before.raised) && Grows(before, after)
  }

  lemma StillReadyThen(a: Reading, b: Reading, c: Reading)
    requires StillReady(a, b) && StillReady(b, c)
    ensures StillReady(a, c)
  {
  }

  /** Asks for Marty's issuer identity once. */
  method Ask(docker: Docker) returns (answer: Outcome)
    requires docker.Valid() && docker.seen.error.None? && docker.seen.issued != {}
    modifies docker
    ensures docker.Valid() && docker.state == old(docker.state) && docker.identified == old(docker.identified)
    ensures StillReady(old(docker.seen), docker.seen) && docker.seen.escaped == old(docker.seen.escaped)
    ensures answer.Exit? ==> docker.seen.clean == old(docker.seen.clean)
    ensures docker.seen.error == if answer.Raised? then Some(answer.error) else None
    ensures answer.Raised? ==> Catches(Staging, answer.error)
    ensures docker.seen.moves == old(docker.seen.moves) + [Do(Inspect, Marty)]
  {
    answer := docker.Run(Inspect, Marty);
  }

  /** The certificate is refused, or its staging is attempted. */
  method Certify(docker: Docker, refused: bool) returns (raised: Option<Exception>)
    requires docker.Valid() && docker.seen.error.None? && !docker.seen.escaped
    modifies docker
    ensures docker.Valid() && docker.state == old(docker.state)
    ensures StillReady(old(docker.seen), docker.seen)
    ensures docker.identified == old(docker.identified)
    ensures docker.seen.error == raised && (refused ==> raised == Some(ValueError))
    ensures raised.None? ==> docker.seen.clean == old(docker.seen.clean)
    ensures docker.seen.escaped <==> raised.Some? && !Catches(Staging, raised.value)
    ensures docker.seen.moves == old(docker.seen.moves) + [Work(Staging)]
  {
    if refused {
      docker.Refuse();
      return Some(ValueError);
    }
    raised := docker.Attempt(Staging);
  }

  /** Asks once more, after so many answers of which none could be read. */
  method AskAgain(docker: Docker, ghost start: Reading, ghost polls: nat) returns (answer: Outcome)
    requires docker.Valid() && Waiting(start, docker.seen, polls) && start.issued != {}
    modifies docker
    ensures docker.Valid() && docker.state == old(docker.state) && docker.identified == old(docker.identified)
    ensures StillReady(start, docker.seen) && !docker.seen.escaped
    ensures docker.seen.moves == start.moves + Polls(polls + 1)
    ensures docker.seen.error == if answer.Raised? then Some(answer.error) else None
    ensures answer.Exit? ==> Waiting(start, docker.seen, polls + 1)
    ensures answer.Raised? ==> Catches(Staging, answer.error)
  {
    answer := Ask(docker);
    AskedOnce(start, old(docker.seen), docker.seen, answer, polls);
  }

  /** Asks for Marty's issuer identity until an answer can be read, which may be never in the time there is. */
  method Lookup(docker: Docker) returns (raised: Option<Exception>, found: bool, ghost polls: nat)
    requires docker.Valid() && docker.seen.error.None? && !docker.seen.escaped && docker.seen.issued != {}
    modifies docker
    ensures docker.Valid() && docker.state == old(docker.state)
    ensures docker.identified == (old(docker.identified) || found)
    ensures raised.None? ==> docker.seen.clean == old(docker.seen.clean)
    ensures StillReady(old(docker.seen), docker.seen) && !docker.seen.escaped
    ensures docker.seen.error == raised && (raised.Some? ==> Catches(Staging, raised.value))
    ensures docker.seen.moves == old(docker.seen.moves) + Polls(polls)
  {
    var patience: nat;
    patience := *;
    ghost var start := docker.seen;
    polls := 0;
    NotAsked(start);
    while true
      invariant docker.Valid() && docker.state == old(docker.state)
      invariant docker.identified == old(docker.identified)
      invariant Waiting(start, docker.seen, polls) && start == old(docker.seen)
      decreases patience
    {
      var answer := AskAgain(docker, start, polls);
      polls := polls + 1;
      if answer.Raised? {
        return Some(answer.error), false, polls;
      }
      found := docker.Identify(answer);
      if patience == 0 || found {
        return None, found, polls;
      }
      patience := patience - 1;
    }
  }

  /** So many answers, of which none could be read. */
  ghost predicate Waiting(before: Reading, after: Reading, polls: nat) {
    && StillReady(before, after) && !after.escaped && after.error.None? && after.clean == before.clean
    && after.moves == before.moves + Polls(polls)
  }

  lemma NotAsked(start: Reading)
    requires !start.escaped && start.error.None?
    ensures Waiting(start, start, 0)
  {
    assert start.moves == start.moves + Polls(0);
  }

  lemma AskedOnce(start: Reading, before: Reading, after: Reading, answer: Outcome, polls: nat)
    requires Waiting(start, before, polls) && StillReady(before, after) && after.escaped == before.escaped
    requires after.moves == before.moves + [Do(Inspect, Marty)]
    requires after.error == if answer.Raised? then Some(answer.error) else None
    requires answer.Exit? ==> after.clean == before.clean
    ensures StillReady(start, after) && after.moves == start.moves + Polls(polls + 1)
    ensures answer.Exit? ==> Waiting(start, after, polls + 1)
  {
    StillReadyThen(start, before, after);
    assert Polls(polls + 1) == Polls(polls) + [Do(Inspect, Marty)];
  }

  /** The certificate for the identity; only the exceptions its handler names can be taken back. */
  method StageCertificate(docker: Docker, material: bool)
    returns (raised: Option<Exception>, ghost polls: nat, ghost tried: seq<Move>)
    requires docker.Valid() && docker.seen.error.None? && !docker.seen.escaped && docker.seen.issued != {}
    modifies docker
    ensures docker.Valid() && docker.state == old(docker.state)
    ensures StillReady(old(docker.seen), docker.seen)
    ensures docker.seen.error == raised
    ensures docker.seen.escaped <==> raised.Some? && !Catches(Staging, raised.value)
    ensures docker.seen.moves == old(docker.seen.moves) + tried
    ensures tried <= Polls(polls) + [Work(Staging)]
    ensures raised.None? ==> tried == Polls(polls) + [Work(Staging)]
    ensures raised.None? ==> material && docker.identified && docker.seen.clean == old(docker.seen.clean)
    ensures !material ==> raised == Some(ValueError) && polls == 0
  {
    var found;
    raised, found, polls := Identity(docker, material);
    tried := Polls(polls);
    if raised.Some? {
      return;
    }
    ghost var before := docker.seen;
    raised := Certify(docker, !found);
    StillReadyThen(old(docker.seen), before, docker.seen);
    tried := tried + [Work(Staging)];
  }

  /** Without material there is nobody to ask for an identity. */
  method Identity(docker: Docker, material: bool) returns (raised: Option<Exception>, found: bool, ghost polls: nat)
    requires docker.Valid() && docker.seen.error.None? && !docker.seen.escaped && docker.seen.issued != {}
    modifies docker
    ensures docker.Valid() && docker.state == old(docker.state)
    ensures StillReady(old(docker.seen), docker.seen) && !docker.seen.escaped
    ensures docker.seen.error == raised && (raised.Some? ==> Catches(Staging, raised.value))
    ensures docker.seen.moves == old(docker.seen.moves) + Polls(polls)
    ensures raised.None? ==> docker.seen.clean == old(docker.seen.clean)
    ensures found ==> material && docker.identified
    ensures !material ==> raised.None? && polls == 0
  {
    if !material {
      assert docker.seen.moves == docker.seen.moves + Polls(0);
      return None, false, 0;
    }
    raised, found, polls := Lookup(docker);
  }

  /** One more `up` on the way: the start goes on, or can still be taken back, or the exception is not caught. */
  method StartOne(docker: Docker, order: seq<Project>, already: seq<Project>,
                  ghost issued: set<Project>, ghost up: set<Project>)
    returns (outcome: Outcome, started: seq<Project>)
    requires docker.Valid() && MartyFirst(order)
    requires Starting(order, already, issued, up, docker.state, docker.seen)
    requires issued !! up && |already| < |order|
    modifies docker
    ensures docker.Valid() && Grows(old(docker.seen), docker.seen)
    ensures started == already + [order[|already|]] == order[..|already| + 1]
    ensures docker.seen.issued <= issued + Elements(started)
    ensures docker.seen.moves == old(docker.seen.moves) + [Do(Up, order[|already|])]
    ensures docker.seen.lastUp == outcome && docker.seen.error == if outcome.Raised? then Some(outcome.error) else None
    ensures docker.seen.escaped <==> outcome.Raised?
    ensures outcome == Exit(0) ==> Starting(order, started, issued, up, docker.state, docker.seen)
    ensures outcome.Exit? && outcome.code != 0 ==> Failing(order, started, issued, up, docker.state, docker.seen)
    ensures outcome.Raised? ==> Undone(false, outcome, docker.state, docker.seen)
  {
    var name := order[|already|];
    NextProject(order, already);
    started := already + [name];
    outcome := docker.Run(Up, name);
    if outcome.Raised? {
      StrandedOnly(order, already, issued, up, docker.state, docker.seen);
    }
  }

  /** Marty's certificate, and a second start of Marty that adopts it. */
  method AdoptCertificate(docker: Docker, order: seq<Project>, retain: bool, material: bool,
                          ghost issued: set<Project>, ghost up: set<Project>)
    returns (outcome: Outcome, ghost polls: nat, ghost tried: seq<Move>)
    requires docker.Valid() && MartyFirst(order)
    requires Starting(order, [Marty], issued, up, docker.state, docker.seen) && issued !! up
    modifies docker
    ensures docker.Valid() && Grows(old(docker.seen), docker.seen)
    ensures docker.seen.issued == old(docker.seen.issued)
    ensures Undone(retain, outcome, docker.state, docker.seen) && outcome == Ends(docker.seen, [Marty])
    ensures tried <= Adopting(polls) && (outcome == Exit(0) ==> tried == Adopting(polls))
    ensures Moved(old(docker.seen.moves), tried, true, retain, [Marty], outcome, docker.seen)
    ensures outcome == Exit(0) ==> Starting(order, [Marty], issued, up, docker.state, docker.seen)
  {
    assert Marty in Elements([Marty]) && Marty in docker.seen.issued && Marty in docker.state.up;
    var raised;
    raised, polls, tried := StageCertificate(docker, material);
    if raised.Some? {
      if raised.value.OsError? || raised.value.ValueError? {
        Unwind(docker, order, retain, [Marty], issued, up);
      }
      return Raised(raised.value), polls, tried;
    }
    outcome := docker.Run(Up, Marty);
    tried := tried + [Do(Up, Marty)];
    assert docker.seen.moves == old(docker.seen.moves) + tried;
    if outcome.Exit? && outcome.code != 0 {
      Unwind(docker, order, retain, [Marty], issued, up);
    }
  }

  /** The first start of Marty, then its certificate, then a second start. */
  method StartCertifiedMarty(docker: Docker, order: seq<Project>, retain: bool, material: bool)
    returns (outcome: Outcome, ghost polls: nat, ghost tried: seq<Move>)
    requires docker.Valid() && MartyFirst(order)
    requires Starting(order, [], docker.seen.issued, docker.state.up, docker.state, docker.seen)
    requires AllDown(docker.state, docker.seen)
    modifies docker
    ensures docker.Valid() && Grows(old(docker.seen), docker.seen)
    ensures docker.seen.issued <= old(docker.seen.issued) + {Marty}
    ensures Undone(retain, outcome, docker.state, docker.seen) && outcome == Ends(docker.seen, [Marty])
    ensures tried <= Certified(polls) && (outcome == Exit(0) ==> tried == Certified(polls))
    ensures Moved(old(docker.seen.moves), tried, true, retain, [Marty], outcome, docker.seen)
    ensures outcome == Exit(0) ==>
      Starting(order, [Marty], old(docker.seen.issued), old(docker.state.up), docker.state, docker.seen)
  {
    ghost var issued, up := docker.seen.issued, docker.state.up;
    var started;
    outcome, started := StartOne(docker, order, [], issued, up);
    assert started == [Marty];
    polls, tried := 0, [Do(Up, Marty)];
    if outcome.Raised? {
      return;
    }
    if outcome.code != 0 {
      Unwind(docker, order, retain, [Marty], issued, up);
      return;
    }
    ghost var adopting;
    outcome, polls, adopting := AdoptCertificate(docker, order, retain, material, issued, up);
    Associates(old(docker.seen.moves), tried, adopting);
    tried := tried + adopting;
  }

  lemma Associates(a: seq<Move>, b: seq<Move>, c: seq<Move>)
    ensures a + b + c == a + (b + c)
  {
  }

  lemma NextProject(order: seq<Project>, already: seq<Project>)
    requires MartyFirst(order)
    requires already <= order && |already| < |order|
    ensures
      var name := order[|already|];
      && already + [name] == order[..|already| + 1] && Elements(already + [name]) == Elements(already) + {name}
      && (already != [] ==> Marty in Elements(already)) && (name == Marty <==> already == [])
  {
    var name := order[|already|];
    ElementsSnoc(order, |already|);
    Snoc(order, |already|);
    if already != [] {
      StartsWithMarty(order, already);
    }
  }

  /** One pass of the start loop: a project counts as started before its `up`, whatever becomes of it. */
  method StartNext(docker: Docker, order: seq<Project>, retain: bool, already: seq<Project>,
                   ghost issued: set<Project>, ghost up: set<Project>)
    returns (outcome: Outcome, started: seq<Project>, ghost tried: seq<Move>)
    requires docker.Valid() && MartyFirst(order)
    requires Starting(order, already, issued, up, docker.state, docker.seen)
    requires issued !! up && |already| < |order|
    modifies docker
    ensures docker.Valid() && Grows(old(docker.seen), docker.seen)
    ensures started == order[..|already| + 1]
    ensures docker.seen.issued <= issued + Elements(started)
    ensures Undone(retain, outcome, docker.state, docker.seen) && outcome == Ends(docker.seen, started)
    ensures tried <= StartMoves(order[|already|]) && (outcome == Exit(0) ==> tried == StartMoves(order[|already|]))
    ensures Moved(old(docker.seen.moves), tried, false, retain, started, outcome, docker.seen)
    ensures outcome == Exit(0) ==> Starting(order, started, issued, up, docker.state, docker.seen)
  {
    outcome, started := StartOne(docker, order, already, issued, up);
    tried := [Do(Up, order[|already|])];
    if outcome.Exit? && outcome.code != 0 {
      outcome := AbandonStart(docker, order, retain, started, outcome, issued, up);
    } else if outcome.Exit? && order[|already|] == Eudi {
      ghost var before := docker.seen.moves;
      outcome := AwaitEudi(docker, order, retain, started, issued, up);
      tried := tried + [Work(EudiWait)];
      Associates(old(docker.seen.moves), [Do(Up, order[|already|])], [Work(EudiWait)]);
    }
  }

  /** After an `up` that failed: diagnostics for all but OIDF, which may themselves raise, and then the unwind. */
  method AbandonStart(docker: Docker, order: seq<Project>, retain: bool, started: seq<Project>, failure: Outcome,
                      ghost issued: set<Project>, ghost up: set<Project>)
    returns (outcome: Outcome)
    requires docker.Valid() && Failing(order, started, issued, up, docker.state, docker.seen)
    requires failure.Exit? && failure.code != 0 && docker.seen.lastUp == failure && docker.seen.error.None?
    modifies docker
    ensures docker.Valid() && Grows(old(docker.seen), docker.seen)
    ensures docker.seen.issued == old(docker.seen.issued) && docker.seen.lastUp == failure
    ensures Undone(retain, outcome, docker.state, docker.seen) && outcome == Ends(docker.seen, started)
    ensures docker.seen.escaped <==> docker.seen.error.Some?
    ensures docker.seen.moves == old(docker.seen.moves) + Aftermath(docker.seen, false, retain, started)
  {
    var raised := DiagnoseUp(docker, order, started, issued, up);
    if raised.Some? {
      assert [Work(StartDiagnosis)] + [] == [Work(StartDiagnosis)];
      return Raised(raised.value);
    }
    Unwind(docker, order, retain, started, issued, up);
    Associates(old(docker.seen.moves), [Work(StartDiagnosis)], Downs(docker.seen, retain, started));
    return failure;
  }

  /** The diagnostics of a failed `up`; nothing handles what they raise. */
  method DiagnoseUp(docker: Docker, ghost order: seq<Project>, started: seq<Project>,
                    ghost issued: set<Project>, ghost up: set<Project>)
    returns (raised: Option<Exception>)
    requires docker.Valid() && Failing(order, started, issued, up, docker.state, docker.seen)
    requires docker.seen.error.None?
    modifies docker`log, docker`seen
    ensures docker.Valid() && Grows(old(docker.seen), docker.seen)
    ensures docker.seen.issued == old(docker.seen.issued) && docker.seen.lastUp == old(docker.seen.lastUp)
    ensures docker.seen.error == raised && docker.seen.orderly && !docker.seen.blocked
    ensures docker.seen.moves
         == old(docker.seen.moves) + if started[|started| - 1] != Oidf then [Work(StartDiagnosis)] else []
    ensures raised.None? ==> Failing(order, started, issued, up, docker.state, docker.seen)
    ensures raised.Some? ==>
      && started[|started| - 1] != Oidf && docker.seen.escaped
      && (AllDown(docker.state, docker.seen) <==> !docker.seen.left)
  {
    FailingStrands(order, started, issued, up, docker.state, docker.seen);
    if started[|started| - 1] == Oidf {
      return None;
    }
    raised := docker.Attempt(StartDiagnosis);
  }

  /** Waits for EUDI: only one kind of exception leads to an unwind. */
  method AwaitEudi(docker: Docker, order: seq<Project>, retain: bool, started: seq<Project>,
                   ghost issued: set<Project>, ghost up: set<Project>)
    returns (outcome: Outcome)
    requires docker.Valid() && MartyFirst(order)
    requires Starting(order, started, issued, up, docker.state, docker.seen)
    requires issued !! up && started != []
    modifies docker
    ensures docker.Valid() && Grows(old(docker.seen), docker.seen)
    ensures docker.seen.issued == old(docker.seen.issued) && docker.seen.lastUp == Exit(0)
    ensures Undone(retain, outcome, docker.state, docker.seen) && outcome == Ends(docker.seen, started)
    ensures docker.seen.escaped <==> outcome.Raised? && outcome.error != ValueError
    ensures Moved(old(docker.seen.moves), [Work(EudiWait)], false, retain, started, outcome, docker.seen)
    ensures outcome == Exit(0) ==> Starting(order, started, issued, up, docker.state, docker.seen)
  {
    StartsWithMarty(order, started);
    var raised := docker.Attempt(EudiWait);
    if raised.None? {
      return Exit(0);
    }
    if raised.value.ValueError? {
      Unwind(docker, order, retain, started, issued, up);
    }
    return Raised(raised.value);
  }

  /** Whatever a failed start leaves behind, Marty is part of it. */
  lemma FailingStrands(order: seq<Project>, started: seq<Project>, issued: set<Project>, up: set<Project>,
                       state: State, seen: Reading)
    requires Failing(order, started, issued, up, state, seen)
    ensures AllDown(state, seen) <==> !seen.left
  {
    StartsWithMarty(order, started);
    if |started| == 1 {
      assert started == [Marty];
    }
  }

  /** An `up` that cannot be started leaves what was there before it. */
  lemma StrandedOnly(order: seq<Project>, already: seq<Project>, issued: set<Project>, up: set<Project>,
                     state: State, seen: Reading)
    requires MartyFirst(order) && already <= order && issued !! up
    requires seen.issued == issued + Elements(already) && state.up == up + Elements(already)
    requires seen.left <==> already != []
    ensures AllDown(state, seen) <==> !seen.left
  {
    if already != [] {
      StartsWithMarty(order, already);
    }
  }

  /** The same pass, as a part of the whole loop's moves. */
  method StartWithin(docker: Docker, order: seq<Project>, retain: bool, already: seq<Project>,
                     ghost issued: set<Project>, ghost up: set<Project>, ghost before: seq<Move>, ghost from: nat)
    returns (outcome: Outcome, started: seq<Project>, ghost tried: seq<Move>)
    requires docker.Valid() && MartyFirst(order)
    requires Starting(order, already, issued, up, docker.state, docker.seen)
    requires issued !! up && from <= |already| < |order|
    requires docker.seen.moves == ThenUp(before, order, from, |already|)
    modifies docker
    ensures docker.Valid() && Grows(old(docker.seen), docker.seen)
    ensures already <= started <= order && |started| == |already| + 1
    ensures docker.seen.issued <= issued + Elements(started)
    ensures Undone(retain, outcome, docker.state, docker.seen) && outcome == Ends(docker.seen, started)
    ensures outcome == Exit(0) ==>
      && Starting(order, started, issued, up, docker.state, docker.seen)
      && docker.seen.moves == ThenUp(before, order, from, |started|)
    ensures outcome != Exit(0) ==>
      && tried <= ThenUp(before, order, from, |order|)
      && docker.seen.moves == tried + Aftermath(docker.seen, false, retain, started)
  {
    ghost var sofar := docker.seen.moves;
    outcome, started, tried := StartNext(docker, order, retain, already, issued, up);
    OneMoreStart(before, order, from, sofar, tried, retain, started, outcome, docker.seen);
    tried := sofar + tried;
  }

  /** The start loop, from wherever the certified start left it. */
  method StartRemaining(docker: Docker, order: seq<Project>, retain: bool, already: seq<Project>,
                        ghost issued: set<Project>, ghost up: set<Project>)
    returns (outcome: Outcome, started: seq<Project>, ghost tried: seq<Move>)
    requires docker.Valid() && MartyFirst(order)
    requires Starting(order, already, issued, up, docker.state, docker.seen)
    requires issued !! up
    modifies docker
    ensures docker.Valid() && Grows(old(docker.seen), docker.seen)
    ensures already <= started <= order
    ensures docker.seen.issued <= issued + Elements(started)
    ensures Undone(retain, outcome, docker.state, docker.seen)
    ensures outcome == if |already| == |order| then Exit(0) else Ends(docker.seen, started)
    ensures tried <= ThenUp(old(docker.seen.moves), order, |already|, |order|)
    ensures outcome == Exit(0) ==>
      && started == order && Starting(order, started, issued, up, docker.state, docker.seen)
      && tried == ThenUp(old(docker.seen.moves), order, |already|, |order|)
    ensures outcome != Exit(0) ==> |already| < |started|
    ensures docker.seen.moves ==
      if outcome == Exit(0) then tried else tried + Aftermath(docker.seen, false, retain, started)
  {
    ghost var before := docker.seen.moves;
    started := already;
    while |started| < |order|
      invariant docker.Valid() && Grows(old(docker.seen), docker.seen)
      invariant Starting(order, started, issued, up, docker.state, docker.seen) && already <= started
      invariant docker.seen.moves == ThenUp(before, order, |already|, |started|)
    {
      outcome, started, tried := StartWithin(docker, order, retain, started, issued, up, before, |already|);
      if outcome != Exit(0) {
        return;
      }
    }
    return Exit(0), started, docker.seen.moves;
  }

  lemma OneMoreStart(before: seq<Move>, order: seq<Project>, from: nat, sofar: seq<Move>, tried: seq<Move>,
                     retain: bool, started: seq<Project>, outcome: Outcome, seen: Reading)
    requires from < |started| <= |order| && sofar == ThenUp(before, order, from, |started| - 1)
    requires tried <= StartMoves(order[|started| - 1])
    requires outcome == Exit(0) ==> tried == StartMoves(order[|started| - 1])
    requires Moved(sofar, tried, false, retain, started, outcome, seen)
    ensures sofar + tried <= ThenUp(before, order, from, |order|)
    ensures seen.moves == if outcome == Exit(0) then ThenUp(before, order, from, |started|)
                          else sofar + tried + Aftermath(seen, false, retain, started)
  {
    ThenUpGrows(before, order, from, |started|, |order|);
    assert sofar + tried <= sofar + StartMoves(order[|started| - 1]);
  }

  lemma {:induction false} ThenUpGrows(before: seq<Move>, order: seq<Project>, from: nat, to: nat, end: nat)
    requires from <= to <= end <= |order|
    ensures ThenUp(before, order, from, to) <= ThenUp(before, order, from, end)
  {
    if to < end {
      ThenUpGrows(before, order, from, to, end - 1);
    }
  }

  /** What comes before the start loop is where the script begins. */
  lemma PreludeLeads(args: Arguments, polls: nat, tried: seq<Move>)
    requires tried <= Prelude(args, polls)
    ensures tried <= UpMoves(args, polls)
  {
    ThenUpGrows(Prelude(args, polls), Components(args), LoopStart(args), LoopStart(args), |Components(args)|);
  }

  /** What is checked before anything is started. */
  method CheckFirst(docker: Docker, args: Arguments) returns (outcome: Outcome, ghost tried: seq<Move>)
    requires docker.Valid() && docker.seen.moves == []
    requires Starting(Components(args), [], docker.seen.issued, docker.state.up, docker.state, docker.seen)
    requires AllDown(docker.state, docker.seen)
    modifies docker
    ensures docker.Valid() && Grows(old(docker.seen), docker.seen)
    ensures docker.seen.issued == old(docker.seen.issued) && docker.state == old(docker.state)
    ensures docker.seen.moves == tried <= Checks(args) && (outcome == Exit(0) ==> tried == Checks(args))
    ensures outcome == Exit(0) ==>
      Starting(Components(args), [], docker.seen.issued, docker.state.up, docker.state, docker.seen)
    ensures outcome != Exit(0) ==>
      outcome == Ends(docker.seen, []) && Undone(args.retainOnUpFailure, outcome, docker.state, docker.seen)
    ensures outcome.Exit? && outcome.code != 0 && docker.seen.issued == {} ==> docker.seen.stalled
  {
    tried := [];
    if args.oidf && args.nativeBinding {
      outcome := docker.Run(Inspect, Oidf);
      tried := [Do(Inspect, Oidf)];
      if outcome != Exit(0) {
        return if outcome.Raised? then outcome else Exit(1), tried;
      }
    }
    ghost var checked;
    outcome, checked := CheckMaterial(docker, args);
    tried := tried + checked;
  }

  /** An external certificate is checked against its material. */
  method CheckMaterial(docker: Docker, args: Arguments) returns (outcome: Outcome, ghost tried: seq<Move>)
    requires docker.Valid()
    requires Starting(Components(args), [], docker.seen.issued, docker.state.up, docker.state, docker.seen)
    requires AllDown(docker.state, docker.seen)
    modifies docker`log, docker`seen
    ensures docker.Valid() && Grows(old(docker.seen), docker.seen)
    ensures docker.seen.issued == old(docker.seen.issued) && docker.seen.moves == old(docker.seen.moves) + tried
    ensures tried == if args.haip && args.externallyCertified then [Work(Material)] else []
    ensures outcome == Exit(0) ==>
      Starting(Components(args), [], docker.seen.issued, docker.state.up, docker.state, docker.seen)
    ensures outcome != Exit(0) ==>
      && outcome.Raised? && outcome == Ends(docker.seen, [])
      && Undone(args.retainOnUpFailure, outcome, docker.state, docker.seen)
  {
    if args.haip && args.externallyCertified {
      var raised := docker.Attempt(Material);
      return if raised.Some? then Raised(raised.value) else Exit(0), [Work(Material)];
    }
    return Exit(0), [];
  }

  lemma CheckScripted(args: Arguments, tried: seq<Move>, outcome: Outcome, seen: Reading)
    requires tried <= Checks(args) && seen.moves == tried && outcome != Exit(0)
    ensures Scripted(args, 0, tried, [], outcome, seen)
  {
    PreludeLeads(args, 0, tried);
    assert Commands(Down, Reversed([])) == [];
    assert tried + [] == tried;
  }

  method ExecuteUp(docker: Docker, args: Arguments)
    returns (outcome: Outcome, started: seq<Project>, ghost polls: nat, ghost tried: seq<Move>)
    requires docker.Valid()
    requires Starting(Components(args), [], docker.seen.issued, docker.state.up, docker.state, docker.seen)
    requires AllDown(docker.state, docker.seen) && docker.seen.moves == []
    modifies docker
    ensures docker.Valid() && Grows(old(docker.seen), docker.seen)
    ensures started <= Components(args)
    ensures docker.seen.issued <= old(docker.seen.issued) + Elements(started)
    ensures Undone(args.retainOnUpFailure, outcome, docker.state, docker.seen) && outcome == Ends(docker.seen, started)
    ensures Scripted(args, polls, tried, started, outcome, docker.seen)
    ensures outcome.Exit? && started == [] && docker.seen.issued == {} ==> docker.seen.stalled
    ensures outcome == Exit(0) ==>
      Starting(Components(args), started, old(docker.seen.issued), old(docker.state.up), docker.state, docker.seen)
  {
    started, polls := [], 0;
    outcome, tried := CheckFirst(docker, args);
    if outcome != Exit(0) {
      CheckScripted(args, tried, outcome, docker.seen);
      return;
    }
    outcome, started, polls, tried := StartAll(docker, args, Components(args));
  }

  lemma CertifiedLeads(args: Arguments, polls: nat, order: seq<Project>, tried: seq<Move>)
    requires Certifies(args) && tried <= Certified(polls) && order != []
    ensures Checks(args) + tried <= ThenUp(Prelude(args, polls), order, 1, |order|)
    ensures tried == Certified(polls) ==> Checks(args) + tried == Prelude(args, polls)
  {
    ThenUpGrows(Prelude(args, polls), order, 1, 1, |order|);
    assert Checks(args) + tried <= Prelude(args, polls);
  }

  function LoopStart(args: Arguments): nat {
    if Certifies(args) then 1 else 0
  }

  /** Marty alone first, if it has to be certified. */
  method StartMarty(docker: Docker, args: Arguments, order: seq<Project>)
    returns (outcome: Outcome, started: seq<Project>, ghost polls: nat, ghost tried: seq<Move>)
    requires docker.Valid() && MartyFirst(order)
    requires Starting(order, [], docker.seen.issued, docker.state.up, docker.state, docker.seen)
    requires AllDown(docker.state, docker.seen) && docker.seen.moves == Checks(args)
    modifies docker
    ensures docker.Valid() && Grows(old(docker.seen), docker.seen)
    ensures docker.seen.issued <= old(docker.seen.issued) + {Marty}
    ensures outcome == Exit(0) ==>
      && |started| == LoopStart(args) && docker.seen.moves == Prelude(args, polls)
      && Starting(order, started, old(docker.seen.issued), old(docker.state.up), docker.state, docker.seen)
    ensures outcome != Exit(0) ==>
      && Certifies(args) && started == [Marty] <= order
      && Undone(args.retainOnUpFailure, outcome, docker.state, docker.seen) && outcome == Ends(docker.seen, started)
      && tried <= ThenUp(Prelude(args, polls), order, 1, |order|)
      && docker.seen.moves == tried + Aftermath(docker.seen, true, args.retainOnUpFailure, started)
  {
    if !args.haip || args.externallyCertified {
      assert Prelude(args, 0) == Checks(args);
      return Exit(0), [], 0, [];
    }
    outcome, polls, tried := StartCertifiedMarty(docker, order, args.retainOnUpFailure, args.haipMaterial);
    CertifiedLeads(args, polls, order, tried);
    started, tried := [Marty], Checks(args) + tried;
  }

  /** Marty alone first, if it has to be certified, and then the start loop. */
  method StartAll(docker: Docker, args: Arguments, order: seq<Project>)
    returns (outcome: Outcome, started: seq<Project>, ghost polls: nat, ghost tried: seq<Move>)
    requires docker.Valid() && MartyFirst(order)
    requires Starting(order, [], docker.seen.issued, docker.state.up, docker.state, docker.seen)
    requires AllDown(docker.state, docker.seen) && docker.seen.moves == Checks(args)
    modifies docker
    ensures docker.Valid() && Grows(old(docker.seen), docker.seen)
    ensures started <= order && started != []
    ensures docker.seen.issued <= old(docker.seen.issued) + Elements(started)
    ensures Undone(args.retainOnUpFailure, outcome, docker.state, docker.seen) && outcome == Ends(docker.seen, started)
    ensures
      var whole := ThenUp(Prelude(args, polls), order, LoopStart(args), |order|);
      && tried <= whole && (outcome == Exit(0) ==> tried == whole && started == order)
    ensures docker.seen.moves ==
      if outcome == Exit(0) then tried
      else tried + Aftermath(docker.seen, Certifies(args), args.retainOnUpFailure, started)
    ensures outcome == Exit(0) ==>
      Starting(order, started, old(docker.seen.issued), old(docker.state.up), docker.state, docker.seen)
  {
    ghost var issued, up := docker.seen.issued, docker.state.up;
    outcome, started, polls, tried := StartMarty(docker, args, order);
    if outcome != Exit(0) {
      return;
    }
    ghost var before := docker.seen;
    outcome, started, tried := StartRemaining(docker, order, args.retainOnUpFailure, started, issued, up);
    GrowsThen(old(docker.seen), before, docker.seen);
    if outcome != Exit(0) {
      AftermathSame(docker.seen, Certifies(args), args.retainOnUpFailure, started);
    }
  }

  lemma GrowsThen(a: Reading, b: Reading, c: Reading)
    requires Grows(a, b) && Grows(b, c)
    ensures Grows(a, c)
  {
  }

  lemma AftermathSame(seen: Reading, certifies: bool, retain: bool, started: seq<Project>)
    requires certifies ==> |started| > 1
    ensures Aftermath(seen, certifies, retain, started) == Aftermath(seen, false, retain, started)
  {
  }

  predicate NothingDown(moves: seq<Move>) {
    forall p :: Do(Down, p) !in moves
  }

  lemma {:induction false} ThenUpKeeps(before: seq<Move>, order: seq<Project>, from: nat, to: nat)
    requires from <= to <= |order| && NothingDown(before)
    ensures NothingDown(ThenUp(before, order, from, to))
  {
    if from < to {
      ThenUpKeeps(before, order, from, to - 1);
    }
  }

  /** A start that retains what is there takes nothing down. */
  lemma RetainTakesNothingDown(args: Arguments, polls: nat, tried: seq<Move>, started: seq<Project>, outcome: Outcome,
                               seen: Reading)
    requires args.retainOnUpFailure && Scripted(args, polls, tried, started, outcome, seen)
    ensures NothingDown(seen.moves)
  {
    assert NothingDown(Checks(args));
    assert NothingDown(Certified(polls));
    assert NothingDown(Prelude(args, polls));
    ThenUpKeeps(Prelude(args, polls), Components(args), LoopStart(args), |Components(args)|);
    assert forall m :: m in tried ==> m in UpMoves(args, polls);
  }

  /** A state, and whether a `down` was ever blocked on the way to it. */
  datatype Sweep = Sweep(state: State, blocked: bool)

  function TakeDown(w: Sweep, p: Project): Sweep {
    if Refused(p, w.state) then w.(blocked := w.blocked || Eudi in w.state.up)
    else w.(state := State(w.state.up - {p}, w.state.bridge && p != Marty))
  }

  function TakeAllDown(w: Sweep, ps: seq<Project>): (after: Sweep)
    ensures w.blocked ==> after.blocked
    decreases |ps|
  {
    if ps == [] then w else TakeAllDown(TakeDown(w, ps[0]), ps[1..])
  }

  /** What a teardown cannot reach: EUDI, when Marty's bridge is already gone. */
  function Kept(args: Arguments, before: State): set<Project> {
    if args.eudi && Refused(Eudi, before) && Eudi in before.up then {Eudi} else {}
  }

  lemma SweepInOrder(args: Arguments, w: Sweep)
    ensures
      var w1 := if args.eudi then TakeDown(w, Eudi) else w;
      var w2 := if args.oidf then TakeDown(w1, Oidf) else w1;
      TakeAllDown(w, Reversed(Components(args))) == TakeDown(w2, Marty)
  {
    var w1 := if args.eudi then TakeDown(w, Eudi) else w;
    var w2 := if args.oidf then TakeDown(w1, Oidf) else w1;
    assert TakeAllDown(w2, [Marty]) == TakeDown(w2, Marty);
    var tail := (if args.oidf then [Oidf] else []) + [Marty];
    assert args.oidf ==> tail[1..] == [Marty];
    assert TakeAllDown(w1, tail) == TakeDown(w2, Marty);
    var order := (if args.eudi then [Eudi] else []) + tail;
    assert args.eudi ==> order[1..] == tail;
    assert Reversed(Components(args)) == order;
  }

  /** Backwards, only a bridge that was missing from the start can block anything. */
  lemma TearDownReversed(args: Arguments, w: Sweep)
    ensures var after := TakeAllDown(w, Reversed(Components(args)));
      && after.state.up == w.state.up - Elements(Components(args)) + Kept(args, w.state)
      && (after.blocked <==> w.blocked || Kept(args, w.state) != {})
  {
    SweepInOrder(args, w);
    assert Elements(Components(args)) ==
      {Marty} + (if args.oidf then {Oidf} else {}) + (if args.eudi then {Eudi} else {});
  }

  /** Forwards, taking Marty down first strands EUDI: the order of teardown is not a matter of taste. */
  lemma TearDownForwardStrands(args: Arguments, w: Sweep)
    requires args.eudi && Eudi in w.state.up
    ensures var after := TakeAllDown(w, Components(args)); after.blocked && Eudi in after.state.up
  {
    var tail := (if args.oidf then [Oidf] else []) + [Eudi];
    assert Components(args)[1..] == tail;
    var w1 := TakeDown(w, Marty);
    var w2 := if args.oidf then TakeDown(w1, Oidf) else w1;
    assert args.oidf ==> tail[1..] == [Eudi];
    assert TakeAllDown(w2, [Eudi]) == TakeDown(w2, Eudi);
    assert TakeAllDown(w1, tail) == TakeDown(w2, Eudi);
  }

  /** One command of a sweep. */
  method RunOne(docker: Docker, action: Action, project: Project) returns (result: Outcome)
    requires docker.Valid() && action != Up && !docker.seen.unwound
    modifies docker
    ensures docker.Valid() && Grows(old(docker.seen), docker.seen)
    ensures docker.seen.moves == old(docker.seen.moves) + [Do(action, project)]
    ensures docker.seen.failure == if old(docker.seen.failure) == Exit(0) then result else old(docker.seen.failure)
    ensures docker.seen.issued == old(docker.seen.issued)
    ensures docker.seen.raised == old(docker.seen.raised) + if result.Raised? then {action} else {}
    ensures docker.seen.uncaught == old(docker.seen.uncaught) && docker.seen.escaped == old(docker.seen.escaped)
    ensures docker.seen.orderly == old(docker.seen.orderly) && (docker.seen.unwound ==> project == Marty)
    ensures result.Raised? ==> StartError(result.error) && docker.state == old(docker.state)
    ensures action == Inspect ==> docker.state == old(docker.state) && docker.seen.blocked == old(docker.seen.blocked)
    ensures action == Down && docker.seen.blocked ==>
      TakeDown(old(Sweep(docker.state, docker.seen.blocked)), project).blocked
    ensures action == Down && result.Exit? ==>
      Sweep(docker.state, docker.seen.blocked) == TakeDown(old(Sweep(docker.state, docker.seen.blocked)), project)
  {
    result := docker.Run(action, project);
  }

  /** The loop over a fixed order of components; only a command that cannot be started cuts it short. */
  method RunEach(docker: Docker, action: Action, order: seq<Project>) returns (outcome: Outcome)
    requires docker.Valid()
    requires action != Up && forall i :: 0 <= i < |order| - 1 ==> order[i] != Marty
    requires docker.seen.moves == [] && docker.seen.failure == Exit(0) && !docker.seen.unwound
    modifies docker
    ensures docker.Valid() && Grows(old(docker.seen), docker.seen)
    ensures docker.seen.moves <= Commands(action, order)
    ensures outcome.Exit? ==> docker.seen.moves == Commands(action, order) && outcome == docker.seen.failure
    ensures outcome.Raised? ==> StartError(outcome.error) && docker.seen.failure != Exit(0)
    ensures docker.seen.issued == old(docker.seen.issued)
    ensures docker.seen.raised == old(docker.seen.raised) + if outcome.Raised? then {action} else {}
    ensures docker.seen.uncaught == old(docker.seen.uncaught) && docker.seen.escaped == old(docker.seen.escaped)
    ensures old(docker.seen.orderly) ==> docker.seen.orderly
    ensures action == Inspect ==>
      docker.state == old(docker.state) && docker.seen.blocked == old(docker.seen.blocked)
    ensures action == Down && docker.seen.blocked ==>
      TakeAllDown(old(Sweep(docker.state, docker.seen.blocked)), order).blocked
    ensures action == Down && outcome.Exit? ==>
      Sweep(docker.state, docker.seen.blocked) == TakeAllDown(old(Sweep(docker.state, docker.seen.blocked)), order)
  {
    var firstFailure := 0;
    ghost var start := Sweep(docker.state, docker.seen.blocked);
    assert order[0..] == order;
    var i := 0;
    while i < |order|
      invariant docker.Valid() && Grows(old(docker.seen), docker.seen)
      invariant 0 <= i <= |order|
      invariant docker.seen.moves == Commands(action, order)[..i] && docker.seen.failure == Exit(firstFailure)
      invariant docker.seen.issued == old(docker.seen.issued)
      invariant docker.seen.raised == old(docker.seen.raised)
      invariant docker.seen.uncaught == old(docker.seen.uncaught) && docker.seen.escaped == old(docker.seen.escaped)
      invariant old(docker.seen.orderly) ==> docker.seen.orderly
      invariant docker.seen.unwound ==> i == |order|
      invariant action == Inspect ==> Sweep(docker.state, docker.seen.blocked) == start
      invariant action == Down ==>
        TakeAllDown(Sweep(docker.state, docker.seen.blocked), order[i..]) == TakeAllDown(start, order)
    {
      assert order[i..][1..] == order[i + 1..];
      var result := RunOne(docker, action, order[i]);
      if result.Raised? {
        return result;
      }
      if result.code != 0 && firstFailure == 0 {
        firstFailure := result.code;
      }
      i := i + 1;
    }
    return Exit(firstFailure);
  }

  /** Every command but `up` goes through the components backwards and reports the first non-zero code. */
  method ExecuteOther(docker: Docker, args: Arguments, action: Action) returns (outcome: Outcome)
    requires docker.Valid()
    requires action != Up
    requires docker.seen.moves == [] && docker.seen.failure == Exit(0) && !docker.seen.unwound
    modifies docker
    ensures docker.Valid() && Grows(old(docker.seen), docker.seen)
    ensures docker.seen.moves <= Commands(action, Reversed(Components(args)))
    ensures outcome.Exit? ==>
      docker.seen.moves == Commands(action, Reversed(Components(args))) && outcome == docker.seen.failure
    ensures outcome.Raised? ==> StartError(outcome.error) && docker.seen.failure != Exit(0)
    ensures docker.seen.issued == old(docker.seen.issued)
    ensures docker.seen.raised == old(docker.seen.raised) + if outcome.Raised? then {action} else {}
    ensures docker.seen.uncaught == old(docker.seen.uncaught) && docker.seen.escaped == old(docker.seen.escaped)
    ensures old(docker.seen.orderly) ==> docker.seen.orderly
    ensures action == Inspect ==>
      docker.state == old(docker.state) && docker.seen.blocked == old(docker.seen.blocked)
    ensures action == Down && outcome.Exit? ==>
      && docker.state.up == old(docker.state.up) - Elements(Components(args)) + Kept(args, old(docker.state))
      && (docker.seen.blocked <==> old(docker.seen.blocked) || Kept(args, old(docker.state)) != {})
    ensures action == Down && docker.seen.blocked ==> old(docker.seen.blocked) || Kept(args, old(docker.state)) != {}
  {
    TearDownReversed(args, Sweep(docker.state, docker.seen.blocked));
    outcome := RunEach(docker, action, Reversed(Components(args)));
  }

  /** One launcher process: arguments and environment first, then the command. */
  method Execute(docker: Docker, args: Arguments)
    returns (outcome: Outcome, started: seq<Project>, ghost polls: nat, ghost tried: seq<Move>)
    requires docker.Valid() && docker.seen.orderly && !docker.seen.blocked && docker.seen == Fresh(docker.seen)
    requires args.command == CommandUp ==> AllDown(docker.state, docker.seen)
    modifies docker
    ensures docker.Valid() && docker.seen.orderly && Grows(old(docker.seen), docker.seen)
    ensures !ValidArguments(args) || !args.configured ==>
      outcome.Raised? && docker.state == old(docker.state) && docker.seen == old(docker.seen)
    ensures args.command == CommandUp ==>
      && started <= Components(args)
      && docker.seen.issued <= old(docker.seen.issued) + Elements(started)
      && Undone(args.retainOnUpFailure, outcome, docker.state, docker.seen)
      && (outcome.Exit? && outcome.code != 0 && !args.retainOnUpFailure && Down !in docker.seen.raised ==>
            AllDown(docker.state, docker.seen))
      && (outcome == Exit(0) ==>
            && Elements(Components(args)) <= docker.state.up && docker.state.bridge
            && docker.seen.left && !docker.seen.unwound && docker.seen.clean
            && docker.state.up == old(docker.state.up) + Elements(started)
            && docker.seen.issued == old(docker.seen.issued) + Elements(started))
    ensures args.command == CommandUp && ValidArguments(args) && args.configured ==>
      && outcome == Ends(docker.seen, started) && Scripted(args, polls, tried, started, outcome, docker.seen)
      && (outcome.Exit? && started == [] && docker.seen.issued == {} ==> docker.seen.stalled)
    ensures args.command != CommandUp && ValidArguments(args) && args.configured ==>
      var action := if args.command == CommandDown then Down else Inspect;
      && docker.seen.moves <= Commands(action, Reversed(Components(args)))
      && (outcome.Exit? ==>
            && docker.seen.moves == Commands(action, Reversed(Components(args)))
            && outcome == docker.seen.failure)
      && (outcome.Raised? ==> StartError(outcome.error) && docker.seen.failure != Exit(0))
      && docker.seen.issued == old(docker.seen.issued) && !docker.seen.escaped
      && docker.seen.raised == old(docker.seen.raised) + (if outcome.Raised? then {action} else {})
      && (action == Inspect ==> docker.state == old(docker.state) && !docker.seen.blocked)
      && (action == Down && outcome.Exit? ==>
            && docker.state.up == old(docker.state.up) - Elements(Components(args)) + Kept(args, old(docker.state))
            && (docker.seen.blocked <==> Kept(args, old(docker.state)) != {}))
      && (action == Down && docker.seen.blocked ==> Kept(args, old(docker.state)) != {})
  {
    started, polls, tried := [], 0, [];
    if args.runId == "" || (args.martyOnly && (args.oidf || args.eudi || args.haip)) {
      return Raised(ValueError), started, polls, tried;
    }
    if (args.haip && !args.oidf && !args.eudi) || (args.haipMaterial && !args.haip) {
      return Raised(ValueError), started, polls, tried;
    }
    if (args.eudiMaterial && !args.eudi) || (args.retainOnUpFailure && args.command != CommandUp) {
      return Raised(ValueError), started, polls, tried;
    }
    if !args.martyOnly && !args.oidf && !args.eudi {
      return Raised(ValueError), started, polls, tried;
    }
    if !args.configured {
      var error: Exception := *;
      return Raised(error), started, polls, tried;
    }
    if args.command == CommandUp {
      outcome, started, polls, tried := ExecuteUp(docker, args);
    } else {
      outcome := ExecuteOther(docker, args, if args.command == CommandDown then Down else Inspect);
    }
  }
}

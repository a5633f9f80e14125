/**
 What one crash came to, decided again from the steps a run recorded of it
 (`xtask/src/crashes.rs`), against the procedure that puts a crash to the tests reaching it.
 */
module Crashes {
  import opened Parts
  import opened Wrappers

  /** The exit status of a process stopped at the call. */
  const CRASH_EXIT := 93

  /** The rounds a process target's corruption has to survive before it is believed. */
  const CONFIRMATIONS := 3

  /** The reason given once the tree is stained: nothing after that can be decided. */
  const RULE := "crash-after-write"

  const NOTICE_SCHEMA := "rust-mutants-crash-notice-v1"

  datatype Stage = Crash | Next | Fresh | OtherStage(name: string)

  datatype Outcome =
    | Passed | Panicked | Faulted | Trapped | FuelExceeded | MemoryExceeded | Declined | ExitedEarly | StackOverflow
    | Refused | Unaccounted | Unmatched | SetAside | Halted | Unstartable
    | NotRun | Killed | Survived | StepLimitReached | Waited | Inconclusive | Errored
    | OtherOutcome(name: string)

  /** The nonce and mutation of one crashed run, as issued and as its stop published them. */
  datatype Issued = Issued(mutant: string, catalog: string, nonce: string, read: Option<string>)

  /** A run the recording holds: which test, of which kind, how it came out and what it left. */
  datatype Run = Run(target: string, test: string, stage: Stage, sealed: bool, exitCode: Option<int>, outcome: Outcome,
                     noticed: bool, issued: Option<Issued>,
                     left: seq<string>, unnamed: Option<string>, failed: seq<string>)

  /** A target on a route; without tests the route does not say which of its tests reach the call. */
  datatype Asked = Asked(target: string, tests: Option<seq<string>>)

  datatype Step = Rejected | Tainted | Route(asked: seq<Asked>) | Outside | Ran(run: Run) | Unread(kind: string)

  datatype Decision = NotPut | Undecided | Unreached | Unshared | Restarted | Corrupt | OtherDecision(name: string)

  /** What a crash came to. */
  datatype Site = Site(crash: string, decision: Decision, on: string, left: seq<string>, failed: seq<string>,
      sealed: bool)

  datatype Decided = Decided(site: Site, outside: bool)

  /** The steps are not ones a run makes. */
  datatype Unmade = Unmade

  // ---------------------------------------------------------------- runs

  function Notice(issued: Issued): string {
    NOTICE_SCHEMA + "\t" + issued.nonce + "\t" + issued.catalog + "\t" + issued.mutant + "\n"
  }

  /** What the stop published is what was issued to the run. */
  predicate Published(run: Run) {
    run.issued.Some? && run.issued.value.read == Some(Notice(run.issued.value))
  }

  /** The run ended as a crash at the call ends one, and published its notice. */
  predicate Stopped(run: Run) {
    (if run.sealed then run.outcome == Halted else run.exitCode == Some(CRASH_EXIT)) && Published(run)
  }

  predicate SealedOutcome(outcome: Outcome) {
    match outcome
    case Passed | Panicked | Faulted | Trapped | FuelExceeded | MemoryExceeded | Declined => true
    case ExitedEarly | StackOverflow | Refused | Unaccounted | Unmatched | SetAside => true
    case _ => false
  }

  predicate SealedDetection(outcome: Outcome) {
    match outcome
    case Panicked | Faulted | Trapped | FuelExceeded | MemoryExceeded | Declined => true
    case _ => false
  }

  predicate NativeOutcome(outcome: Outcome) {
    match outcome
    case NotRun | Killed | Survived | StepLimitReached | Waited | Inconclusive | Errored => true
    case _ => false
  }

  /** Kind, stage, outcome and exit code go together in it as the runner records them. */
  predicate OfItsKind(run: Run) {
    if run.sealed then
      && run.exitCode.None? && run.stage != Fresh
      && (SealedOutcome(run.outcome) || (run.outcome == Halted && run.stage == Crash)
          || (run.outcome == Unstartable && run.stage == Next))
    else run.exitCode.Some? && NativeOutcome(run.outcome)
  }

  /** A test a crash is put to. */
  datatype Put = Put(target: string, test: string)

  function On(put: Put): string {
    put.target + "::" + put.test
  }

  /** A run the procedure starts: which test, which stage, and of which kind where that is settled. */
  datatype Request = Request(put: Put, stage: Stage, sealed: Option<bool>)

  /** What the runner's records of a run always hold to. */
  predicate WellRecorded(run: Run) {
    && run.noticed == Stopped(run)
    && (run.stage == Crash) == run.issued.Some?
    && (run.unnamed.Some? ==> Stopped(run) && run.left == [])
    && OfItsKind(run)
  }

  /** What a sealed next run fails: its own test where it detected, and nothing otherwise. */
  predicate FailsItsTest(next: Run) {
    next.failed == if SealedDetection(next.outcome) then [next.test] else []
  }

  predicate MadeFor(run: Run, request: Request) {
    && run.target == request.put.target && run.test == request.put.test && run.stage == request.stage
    && WellRecorded(run)
    && (request.sealed.Some? ==> run.sealed == request.sealed.value)
  }

  /** A run the runner records for `request`. */
  predicate Answers(run: Run, request: Request) {
    MadeFor(run, request) && (run.sealed && run.stage == Next ==> FailsItsTest(run))
  }

  // ---------------------------------------------------------------- the procedure that puts a crash

  /** Whether one test hands the crash on: it passed without reaching the call. */
  predicate HandsOn(stop: Run) {
    !Stopped(stop) && stop.outcome == (if stop.sealed then Passed else Survived) && !Published(stop)
  }

  /** Whether a stop is followed by a next run: it left something, all of it named. */
  predicate LeavesNamed(stop: Run) {
    Stopped(stop) && stop.unnamed.None? && stop.left != []
  }

  function Found(crash: string, decision: Decision, on: string): Site {
    Site(crash, decision, on, [], [], false)
  }

  /** What a first run that hands nothing on and leaves nothing named decides. */
  function OfStop(crash: string, put: Put, stop: Run): Site {
    Found(crash, if Stopped(stop) && stop.unnamed.None? then Unshared else Undecided, On(put))
  }

  /** What the next run over what a stop left decides, where no round confirms it. */
  function OfNext(crash: string, put: Put, stop: Run, next: Run): Site {
    if next.outcome == (if stop.sealed then Passed else Survived)
      then Found(crash, Restarted, On(put)).(left := stop.left)
    else if stop.sealed && SealedDetection(next.outcome) then Found(crash, Corrupt, On(put)).(failed := next.failed)
    else Found(crash, Undecided, On(put))
  }

  /** What a native next run that failed decides, by whether every round confirmed it. */
  function OfRounds(crash: string, put: Put, next: Run, held: bool): Site {
    if held then Found(crash, Corrupt, On(put)).(failed := next.failed) else Found(crash, Undecided, On(put))
  }

  function FreshOf(put: Put): Request { Request(put, Fresh, Some(false)) }
  function StopOf(put: Put): Request { Request(put, Crash, Some(false)) }
  function NextOf(put: Put, sealed: bool): Request { Request(put, Next, Some(sealed)) }

  predicate SameFailure(next: Run, failed: seq<string>) {
    next.outcome == Killed && next.failed == failed
  }

  /** The run each request is answered with, by how many steps were recorded before it. */
  type Oracle = (nat, Request) -> Run

  /** The oracle answers every request the procedure can make with a run the runner records for it. */
  ghost predicate Honest(oracle: Oracle) {
    forall at: nat, request: Request {:trigger Askable(at, request)} :: Askable(at, request) ==>
        Answers(oracle(at, request), request)
  }

  /** Whether the procedure can ask for `request` at all: a fresh run is only ever a process. */
  predicate Askable(at: nat, request: Request) {
    (request.stage == Fresh ==> request.sealed == Some(false)) && !request.stage.OtherStage?
  }

  /**
   All of `left` rounds hold: in each the fresh run passes, and the run after a second stop fails the tests
   failed before.
   */
  predicate Hold(put: Put, failed: seq<string>, left: nat, oracle: Oracle, at: nat)
    decreases left
  {
    left == 0 ||
    (&& oracle(at, FreshOf(put)).outcome == Survived
     && LeavesNamed(oracle(at + 1, StopOf(put)))
     && SameFailure(oracle(at + 2, NextOf(put, false)), failed)
     && Hold(put, failed, left - 1, oracle, at + 3))
  }

  /** The runs of the rounds, as far as rounds keep holding. */
  function Rounds(put: Put, failed: seq<string>, left: nat, oracle: Oracle, at: nat): seq<Step>
    decreases left
  {
    if left == 0 then []
    else
      var clean, again, next := oracle(at, FreshOf(put)), oracle(at + 1, StopOf(put)),
          oracle(at + 2, NextOf(put, false));
      if clean.outcome != Survived then [Ran(clean)]
      else if !LeavesNamed(again) then [Ran(clean), Ran(again)]
      else if !SameFailure(next, failed) then [Ran(clean), Ran(again), Ran(next)]
      else [Ran(clean), Ran(again), Ran(next)] + Rounds(put, failed, left - 1, oracle, at + 3)
  }

  /** Whether a native next run is put to the confirming rounds. */
  predicate PutToRounds(put: Put, stop: Run, next: Run) {
    !stop.sealed && next.outcome == Killed && put.test in next.failed
  }

  /** The runs of one test. */
  function Runs(put: Put, oracle: Oracle, at: nat): seq<Step> {
    var stop := oracle(at, Request(put, Crash, None));
    if !LeavesNamed(stop) then [Ran(stop)]
    else
      var next := oracle(at + 1, NextOf(put, stop.sealed));
      [Ran(stop), Ran(next)] + if PutToRounds(put, stop, next)
          then Rounds(put, next.failed, CONFIRMATIONS, oracle, at + 2) else []
  }

  /** What one test decides, where it does not hand the crash on. */
  function Verdict(crash: string, put: Put, oracle: Oracle, at: nat): Site {
    var stop := oracle(at, Request(put, Crash, None));
    if !LeavesNamed(stop) then OfStop(crash, put, stop)
    else
      var next := oracle(at + 1, NextOf(put, stop.sealed));
      if PutToRounds(put, stop, next) then
        OfRounds(crash, put, next, Hold(put, next.failed, CONFIRMATIONS, oracle, at + 2))
      else OfNext(crash, put, stop, next)
  }

  /** The runs a crash is put to: each test in turn, until one does not hand it on. */
  function Made(puts: seq<Put>, oracle: Oracle, at: nat): seq<Step> {
    if puts == [] then []
    else if HandsOn(oracle(at, Request(puts[0], Crash, None))) then
      Runs(puts[0], oracle, at) + Made(puts[1..], oracle, at + |Runs(puts[0], oracle, at)|)
    else Runs(puts[0], oracle, at)
  }

  /** What those runs decide; `otherwise` is what every test handing it on does. */
  function Comes(crash: string, puts: seq<Put>, otherwise: Site, oracle: Oracle, at: nat): Site {
    if puts == [] then otherwise
    else if HandsOn(oracle(at, Request(puts[0], Crash, None))) then
      Comes(crash, puts[1..], otherwise, oracle, at + |Runs(puts[0], oracle, at)|)
    else Verdict(crash, puts[0], oracle, at)
  }

  function PutsOf(target: string, tests: seq<string>): seq<Put> {
    seq(|tests|, i requires 0 <= i < |tests| => Put(target, tests[i]))
  }

  /** A route's tests, target by target. */
  function Puts(asked: seq<Asked>): seq<Put> {
    if asked == [] then []
    else (if asked[0].tests.Some? then PutsOf(asked[0].target, asked[0].tests.value) else []) + Puts(asked[1..])
  }

  /** Every target a route names no test of. */
  function Unnamed(asked: seq<Asked>): seq<string> {
    if asked == [] then []
    else (if asked[0].tests.Some? then [] else [asked[0].target]) + Unnamed(asked[1..])
  }

  function Joined(names: seq<string>): string {
    if names == [] then ""
    else if |names| == 1 then names[0]
    else names[0] + ", " + Joined(names[1..])
  }

  /** What a crash no test decides comes to. */
  function Otherwise(crash: string, unnamed: seq<string>): Site {
    if unnamed == [] then Found(crash, Unreached, "") else Found(crash, Undecided, Joined(unnamed))
  }

  /**
   What a run meets: whether the compiler refuses the crash, what reaches the call, how each run comes out,
   and whether a stop wrote into the tree.
   */
  datatype World = World(refused: bool, asked: seq<Asked>, oracle: Oracle, wrote: bool)

  /** The steps a run records of one crash. */
  function Recorded(world: World, stained: bool): seq<Step> {
    if world.refused then [Rejected]
    else if stained then [Tainted]
    else [Route(world.asked)] + (Made(Puts(world.asked), world.oracle, 1) + if world.wrote then [Outside] else [])
  }

  /** Whether at least one run is among `steps` and every run among them is sealed. */
  predicate RestsOnSealed(steps: seq<Step>) {
    (exists i :: 0 <= i < |steps| && steps[i].Ran?)
    && forall i :: 0 <= i < |steps| && steps[i].Ran? ==> steps[i].run.sealed
  }

  /** What the run decides the crash came to. */
  function Decides(crash: string, world: World, stained: bool): Decided {
    if world.refused then Decided(Found(crash, NotPut, ""), false)
    else if stained then Decided(Found(crash, Undecided, RULE), false)
    else
      var site := Comes(crash, Puts(world.asked), Otherwise(crash, Unnamed(world.asked)), world.oracle, 1);
      var found := if world.wrote then Found(crash, Undecided, RULE) else site;
      Decided(found.(sealed := RestsOnSealed(Recorded(world, stained))), world.wrote)
  }

  // ---------------------------------------------------------------- deciding again

  /** The run recorded at `at`, where it is one made for `request`. */
  function Due(steps: seq<Step>, at: nat, request: Request): Option<Run> {
    if at < |steps| && steps[at].Ran? && MadeFor(steps[at].run, request) then Some(steps[at].run) else None
  }

  /** A reading of part of the steps, and how many steps were read when it ended. */
  datatype Read<T> = Read(value: T, at: nat)

  function ReadRounds(steps: seq<Step>, at: nat, put: Put, failed: seq<string>, left: nat): Option<Read<bool>>
    decreases left
  {
    if left == 0 then Some(Read(true, at))
    else
      match Due(steps, at, FreshOf(put))
      case None => None
      case Some(clean) =>
        if clean.outcome != Survived then Some(Read(false, at + 1))
        else
          match Due(steps, at + 1, StopOf(put))
          case None => None
          case Some(again) =>
            if !LeavesNamed(again) then Some(Read(false, at + 2))
            else
              match Due(steps, at + 2, NextOf(put, false))
              case None => None
              case Some(next) =>
                if !SameFailure(next, failed) then Some(Read(false, at + 3))
                  else ReadRounds(steps, at + 3, put, failed, left - 1)
  }

  function ReadConfirmed(steps: seq<Step>, at: nat, put: Put, failed: seq<string>): Option<Read<bool>> {
    if put.test in failed then ReadRounds(steps, at, put, failed, CONFIRMATIONS) else Some(Read(false, at))
  }

  /** What the next run after `stop`, and the rounds after it, decide. */
  function ReadNext(crash: string, put: Put, stop: Run, steps: seq<Step>, at: nat): Option<Read<Site>> {
    match Due(steps, at, NextOf(put, stop.sealed))
    case None => None
    case Some(next) =>
      if stop.sealed then
        if FailsItsTest(next) then Some(Read(OfNext(crash, put, stop, next), at + 1)) else None
      else if next.outcome != Killed then Some(Read(OfNext(crash, put, stop, next), at + 1))
      else
        match ReadConfirmed(steps, at + 1, put, next.failed)
        case None => None
        case Some(read) => Some(Read(OfRounds(crash, put, next, read.value), read.at))
  }

  /** What the runs of one test decide: nothing where it hands the crash on. */
  function ReadTest(crash: string, put: Put, steps: seq<Step>, at: nat): Option<Read<Option<Site>>> {
    match Due(steps, at, Request(put, Crash, None))
    case None => None
    case Some(stop) =>
      if HandsOn(stop) then Some(Read(None, at + 1))
      else if !LeavesNamed(stop) then Some(Read(Some(OfStop(crash, put, stop)), at + 1))
      else
        match ReadNext(crash, put, stop, steps, at + 1)
        case None => None
        case Some(read) => Some(Read(Some(read.value), read.at))
  }

  /** What the runs from `at` decide, the tests not yet asked being `puts`. */
  function ReadPuts(crash: string, puts: seq<Put>, otherwise: Site, steps: seq<Step>, at: nat): Option<Read<Site>> {
    if puts == [] then Some(Read(otherwise, at))
    else
      match ReadTest(crash, puts[0], steps, at)
      case None => None
      case Some(read) =>
        if read.value.Some? then Some(Read(read.value.value, read.at))
          else ReadPuts(crash, puts[1..], otherwise, steps, read.at)
  }

  /** What ends the steps of a crash that was routed. */
  function ReadEnd(crash: string, steps: seq<Step>, read: Read<Site>): Result<Decided, Unmade> {
    if read.at == |steps| then Ok(Decided(read.value.(sealed := RestsOnSealed(steps)), false))
    else if read.at + 1 == |steps| && steps[read.at] == Outside then
      Ok(Decided(Found(crash, Undecided, RULE).(sealed := RestsOnSealed(steps)), true))
    else Err(Unmade)
  }

  /** What the steps of one crash decide. */
  function Decide(crash: string, steps: seq<Step>, stained: bool): Result<Decided, Unmade> {
    if steps == [] then Err(Unmade)
    else if steps == [Rejected] then Ok(Decided(Found(crash, NotPut, ""), false))
    else if stained then if steps == [Tainted] then Ok(Decided(Found(crash, Undecided, RULE), false)) else Err(Unmade)
    else if !steps[0].Route? then Err(Unmade)
    else
      match ReadPuts(crash, Puts(steps[0].asked), Otherwise(crash, Unnamed(steps[0].asked)), steps, 1)
      case None => Err(Unmade)
      case Some(read) => ReadEnd(crash, steps, read)
  }

  // ---------------------------------------------------------------- the loops that read the steps

  /** A place in the steps of a crash; reading moves it forward. */
  class Cursor {
    ghost const steps: seq<Step>
    ghost var at: nat
    var rest: seq<Step>

    ghost predicate Valid()
      reads this
    {
      at <= |steps| && rest == steps[at..]
    }

    constructor (ghost whole: seq<Step>, left: seq<Step>, ghost start: nat)
      requires start <= |whole| && left == whole[start..]
      ensures Valid() && steps == whole && at == start && rest == left
    {
      steps, at, rest := whole, start, left;
    }

    /** Takes the run that is due, and stops short at anything else. */
    method Run(request: Request) returns (run: Option<Run>)
      requires Valid()
      modifies this
      ensures Valid() && run == Due(steps, old(at), request)
      ensures at == if run.Some? then old(at) + 1 else old(at)
    {
      if rest == [] { return None; }
      assert rest[0] == steps[at];
      if !rest[0].Ran? { return None; }
      var next := rest[0].run;
      if next.target != request.put.target || next.test != request.put.test || next.stage != request.stage {
        return None;
      }
      if next.noticed != Stopped(next) { return None; }
      if (request.stage == Crash) != next.issued.Some? { return None; }
      if next.unnamed.Some? && (!Stopped(next) || next.left != []) { return None; }
      if !OfItsKind(next) { return None; }
      if request.sealed.Some? && next.sealed != request.sealed.value { return None; }
      rest := rest[1..];
      at := at + 1;
      return Some(next);
    }

    /**
     Whether a failing next run is held to every confirming round; nothing where the steps are not ones a
     run makes.
     */
    method Confirmed(put: Put, failed: seq<string>) returns (held: Option<bool>)
      requires Valid()
      modifies this
      ensures Valid()
      ensures match ReadConfirmed(steps, old(at), put, failed)
              case None => held == None
              case Some(read) => held == Some(read.value) && at == read.at
    {
      hide Due, Stopped, WellRecorded;
      if put.test !in failed { return Some(false); }
      for round := 0 to CONFIRMATIONS
        invariant Valid()
        invariant ReadRounds(steps, old(at), put, failed, CONFIRMATIONS)
                  == ReadRounds(steps, at, put, failed, CONFIRMATIONS - round)
      {
        var clean := Run(FreshOf(put));
        if clean.None? { return None; }
        if clean.value.outcome != Survived { return Some(false); }
        var again := Run(StopOf(put));
        if again.None? { return None; }
        if !Stopped(again.value) || again.value.unnamed.Some? || again.value.left == [] { return Some(false); }
        var next := Run(NextOf(put, false));
        if next.None? { return None; }
        if next.value.outcome != Killed || next.value.failed != failed { return Some(false); }
      }
      return Some(true);
    }

    /** What the next run after `stop`, and the rounds after it, decide. */
    method Following(crash: string, put: Put, stop: Run) returns (site: Option<Site>)
      requires Valid()
      modifies this
      ensures Valid()
      ensures match ReadNext(crash, put, stop, steps, old(at))
              case None => site == None
              case Some(read) => site == Some(read.value) && at == read.at
    {
      var next := Run(NextOf(put, stop.sealed));
      if next.None? { return None; }
      if stop.sealed {
        if !FailsItsTest(next.value) { return None; }
        return Some(if next.value.outcome == Passed then Found(crash, Restarted, On(put)).(left := stop.left)
                    else if SealedDetection(next.value.outcome)
                      then Found(crash, Corrupt, On(put)).(failed := next.value.failed)
                    else Found(crash, Undecided, On(put)));
      }
      match next.value.outcome {
        case Survived => return Some(Found(crash, Restarted, On(put)).(left := stop.left));
        case Killed =>
          var held := Confirmed(put, next.value.failed);
          if held.None? { return None; }
          return Some(if held.value then Found(crash, Corrupt, On(put)).(failed := next.value.failed)
              else Found(crash, Undecided, On(put)));
        case _ => return Some(Found(crash, Undecided, On(put)));
      }
    }

    /**
     What the runs of one test decide: nothing where the test hands the crash on, and nothing at all where
     they are not runs of it.
     */
    method Tried(crash: string, put: Put) returns (site: Option<Option<Site>>)
      requires Valid()
      modifies this
      ensures Valid()
      ensures match ReadTest(crash, put, steps, old(at))
              case None => site == None
              case Some(read) => site == Some(read.value) && at == read.at
    {
      var run := Run(Request(put, Crash, None));
      if run.None? { return None; }
      var stop := run.value;
      if !Stopped(stop) {
        if stop.outcome == (if stop.sealed then Passed else Survived) && !Published(stop) { return Some(None); }
        return Some(Some(Found(crash, Undecided, On(put))));
      }
      if stop.unnamed.Some? { return Some(Some(Found(crash, Undecided, On(put)))); }
      if stop.left == [] { return Some(Some(Found(crash, Unshared, On(put)))); }
      var following := Following(crash, put, stop);
      return if following.None? then None else Some(following);
    }

    /**
     What the runs of one target's tests decide, each test in turn until one does not hand the crash on;
     `later` are the tests after them.
     */
    method Asks(crash: string, target: string, tests: seq<string>, ghost later: seq<Put>, ghost otherwise: Site)
      returns (site: Option<Option<Site>>)
      requires Valid()
      modifies this
      ensures Valid()
      ensures match site
              case None => ReadPuts(crash, PutsOf(target, tests) + later, otherwise, steps, old(at)) == None
              case Some(None) =>
                ReadPuts(crash, PutsOf(target, tests) + later, otherwise, steps, old(at))
                == ReadPuts(crash, later, otherwise, steps, at)
              case Some(Some(found)) =>
                ReadPuts(crash, PutsOf(target, tests) + later, otherwise, steps, old(at))
                == Some(Read(found, at))
    {
      ghost var puts := PutsOf(target, tests);
      ghost var whole := ReadPuts(crash, puts + later, otherwise, steps, at);
      assert puts[0..] == puts;
      for i := 0 to |tests|
        invariant Valid()
        invariant whole == ReadPuts(crash, puts[i..] + later, otherwise, steps, at)
      {
        var put := Put(target, tests[i]);
        assert (puts[i..] + later)[0] == put;
        assert (puts[i..] + later)[1..] == puts[i + 1..] + later;
        var tried := Tried(crash, put);
        if tried.None? || tried.value.Some? { return tried; }
      }
      assert puts[|tests|..] + later == later;
      return Some(None);
    }

    /** Reads a route's tests until one settles the crash, or says what none of them settling comes to. */
    method Routed(crash: string, asked: seq<Asked>) returns (site: Option<Site>)
      requires Valid()
      modifies this
      ensures Valid()
      ensures match ReadPuts(crash, Puts(asked), Otherwise(crash, Unnamed(asked)), steps, old(at))
              case None => site == None
              case Some(read) => site == Some(read.value) && at == read.at
    {
      hide Puts, Unnamed, PutsOf, ReadPuts;
      var unnamed := [];
      ghost var otherwise := Otherwise(crash, Unnamed(asked));
      ghost var whole := ReadPuts(crash, Puts(asked), otherwise, steps, at);
      assert asked[0..] == asked;
      for i := 0 to |asked|
        invariant Valid()
        invariant Unnamed(asked) == unnamed + Unnamed(asked[i..])
        invariant whole == ReadPuts(crash, Puts(asked[i..]), otherwise, steps, at)
      {
        AskedNext(asked, i);
        if asked[i].tests.None? {
          assert unnamed + ([asked[i].target] + Unnamed(asked[i + 1..])) == (unnamed + [asked[i].target])
                 + Unnamed(asked[i + 1..]);
          unnamed := unnamed + [asked[i].target];
        } else {
          assert [] + Unnamed(asked[i + 1..]) == Unnamed(asked[i + 1..]);
          var asks := Asks(crash, asked[i].target, asked[i].tests.value, Puts(asked[i + 1..]), otherwise);
          if asks.None? { return None; }
          if asks.value.Some? { return asks.value; }
        }
      }
      assert asked[|asked|..] == [] && unnamed + [] == unnamed;
      NothingAsked(crash, otherwise, steps, at);
      return Some(if unnamed == [] then Found(crash, Unreached, "") else Found(crash, Undecided, Joined(unnamed)));
    }
  }

  lemma AskedNext(asked: seq<Asked>, i: nat)
    requires i < |asked|
    ensures Puts(asked[i..]) == (if asked[i].tests.Some? then PutsOf(asked[i].target, asked[i].tests.value) else [])
            + Puts(asked[i + 1..])
    ensures asked[i].tests.None? ==> Puts(asked[i..]) == Puts(asked[i + 1..])
    ensures Unnamed(asked[i..]) == (if asked[i].tests.Some? then [] else [asked[i].target]) + Unnamed(asked[i + 1..])
  {
  }

  lemma NothingAsked(crash: string, otherwise: Site, steps: seq<Step>, at: nat)
    ensures Puts([]) == [] && Unnamed([]) == []
    ensures ReadPuts(crash, [], otherwise, steps, at) == Some(Read(otherwise, at))
  {
  }

  /** Decides a crash from its steps alone, or says which kind of step cannot have been recorded. */
  method DecideAgain(crash: string, steps: seq<Step>, stained: bool) returns (decided: Result<Decided, Unmade>)
    ensures decided == Decide(crash, steps, stained)
  {
    if steps == [] { return Err(Unmade); }
    var first, rest := steps[0], steps[1..];
    assert steps == [first] + rest;
    if stained {
      if first.Tainted? && rest == [] { return Ok(Decided(Found(crash, Undecided, RULE), false)); }
      if first.Rejected? && rest == [] { return Ok(Decided(Found(crash, NotPut, ""), false)); }
      return Err(Unmade);
    }
    match first {
      case Rejected =>
        if rest == [] { return Ok(Decided(Found(crash, NotPut, ""), false)); }
        return Err(Unmade);
      case Route(asked) =>
        var cursor := new Cursor(steps, rest, 1);
        var site := cursor.Routed(crash, asked);
        if site.None? { return Err(Unmade); }
        var sealed := RestsOnSealed(steps);
        if cursor.rest == [] { return Ok(Decided(site.value.(sealed := sealed), false)); }
        if |cursor.rest| == 1 && cursor.rest[0] == Outside {
          return Ok(Decided(Found(crash, Undecided, RULE).(sealed := sealed), true));
        }
        return Err(Unmade);
      case _ => return Err(Unmade);
    }
  }

  // ---------------------------------------------------------------- deciding again is the procedure's inverse

  /** The run a request is answered with is read as the run that was due. */
  lemma DueIsAnswered(oracle: Oracle, request: Request, steps: seq<Step>, at: nat)
    requires Honest(oracle) && Askable(at, request) && at < |steps| && steps[at] == Ran(oracle(at, request))
    ensures Due(steps, at, request) == Some(oracle(at, request))
    ensures oracle(at, request).sealed && request.stage == Next ==> FailsItsTest(oracle(at, request))
    ensures request.sealed.Some? ==> oracle(at, request).sealed == request.sealed.value
  {
  }

  lemma {:induction false} ReadsRounds(oracle: Oracle, put: Put, failed: seq<string>, left: nat, steps: seq<Step>,
      at: nat)
    requires Honest(oracle) && Has(steps, at, Rounds(put, failed, left, oracle, at))
    ensures ReadRounds(steps, at, put, failed, left)
            == Some(Read(Hold(put, failed, left, oracle, at), at + |Rounds(put, failed, left, oracle, at)|))
    decreases left
  {
    hide Honest, Due, LeavesNamed, SameFailure;
    if left > 0 {
      var clean, again, next := oracle(at, FreshOf(put)), oracle(at + 1, StopOf(put)),
          oracle(at + 2, NextOf(put, false));
      var rounds := Rounds(put, failed, left, oracle, at);
      assert steps[at + 0] == rounds[0];
      DueIsAnswered(oracle, FreshOf(put), steps, at);
      if clean.outcome == Survived {
        assert steps[at + 1] == rounds[1];
        DueIsAnswered(oracle, StopOf(put), steps, at + 1);
        if LeavesNamed(again) {
          assert steps[at + 2] == rounds[2];
          DueIsAnswered(oracle, NextOf(put, false), steps, at + 2);
          if SameFailure(next, failed) {
            HasParts(steps, at, [Ran(clean), Ran(again), Ran(next)], Rounds(put, failed, left - 1, oracle, at + 3));
            ReadsRounds(oracle, put, failed, left - 1, steps, at + 3);
          }
        }
      }
    }
  }

  /** Reads the next run over what a stop left, and the rounds after it. */
  lemma ReadsNext(crash: string, oracle: Oracle, put: Put, stop: Run, steps: seq<Step>, at: nat)
    requires Honest(oracle)
    requires var next := oracle(at, NextOf(put, stop.sealed));
             Has(steps, at, [Ran(next)]) &&
             (PutToRounds(put, stop, next) ==> Has(steps, at + 1,
                 Rounds(put, next.failed, CONFIRMATIONS, oracle, at + 1)))
    ensures var next := oracle(at, NextOf(put, stop.sealed));
            ReadNext(crash, put, stop, steps, at) ==
            if PutToRounds(put, stop, next) then
              Some(Read(OfRounds(crash, put, next, Hold(put, next.failed, CONFIRMATIONS, oracle, at + 1)),
                        at + 1 + |Rounds(put, next.failed, CONFIRMATIONS, oracle, at + 1)|))
            else Some(Read(OfNext(crash, put, stop, next), at + 1))
  {
    hide Stopped, Published, OfItsKind, Honest, ReadRounds, Rounds, Hold;
    var next := oracle(at, NextOf(put, stop.sealed));
    assert steps[at + 0] == [Ran(next)][0];
    DueIsAnswered(oracle, NextOf(put, stop.sealed), steps, at);
    if PutToRounds(put, stop, next) {
      ReadsRounds(oracle, put, next.failed, CONFIRMATIONS, steps, at + 1);
    }
  }

  lemma ReadsTest(crash: string, oracle: Oracle, put: Put, steps: seq<Step>, at: nat)
    requires Honest(oracle) && Has(steps, at, Runs(put, oracle, at))
    ensures ReadTest(crash, put, steps, at) ==
            Some(Read(if HandsOn(oracle(at, Request(put, Crash, None))) then None
                else Some(Verdict(crash, put, oracle, at)), at + |Runs(put, oracle, at)|))
  {
    hide Stopped, Published, Honest, ReadNext, Rounds, Hold;
    var runs := Runs(put, oracle, at);
    var stop := oracle(at, Request(put, Crash, None));
    assert steps[at + 0] == runs[0];
    DueIsAnswered(oracle, Request(put, Crash, None), steps, at);
    if LeavesNamed(stop) {
      var next := oracle(at + 1, NextOf(put, stop.sealed));
      assert steps[at + 1] == runs[1];
      if PutToRounds(put, stop, next) {
        HasParts(steps, at, [Ran(stop), Ran(next)], Rounds(put, next.failed, CONFIRMATIONS, oracle, at + 2));
      }
      ReadsNext(crash, oracle, put, stop, steps, at + 1);
    }
  }

  /** Reading the runs the procedure makes gives what the procedure decides. */
  lemma {:induction false} ReadsMade(crash: string, puts: seq<Put>, otherwise: Site, oracle: Oracle, steps: seq<Step>,
      at: nat)
    requires Honest(oracle) && Has(steps, at, Made(puts, oracle, at))
    ensures ReadPuts(crash, puts, otherwise, steps, at)
            == Some(Read(Comes(crash, puts, otherwise, oracle, at), at + |Made(puts, oracle, at)|))
    decreases |puts|
  {
    hide Honest, Runs, Verdict, ReadTest, HandsOn, Has;
    if puts != [] {
      var next := at + |Runs(puts[0], oracle, at)|;
      if HandsOn(oracle(at, Request(puts[0], Crash, None))) {
        HasParts(steps, at, Runs(puts[0], oracle, at), Made(puts[1..], oracle, next));
        ReadsTest(crash, oracle, puts[0], steps, at);
        ReadsMade(crash, puts[1..], otherwise, oracle, steps, next);
      } else {
        ReadsTest(crash, oracle, puts[0], steps, at);
      }
    }
  }

  /** Some run the runner records for `request`. */
  function Blank(request: Request): Run {
    var sealed := request.sealed == Some(true);
    Run(request.put.target, request.put.test, request.stage, sealed, if sealed then None else Some(0),
        if sealed then Passed else Survived,
        false, if request.stage == Crash then Some(Issued("", "", "", None)) else None, [], None, [])
  }

  /** The oracle that answers as `steps` recorded, wherever they hold a run that answers the request. */
  function AsRecorded(steps: seq<Step>): Oracle {
    (at: nat, request: Request) =>
      if at < |steps| && steps[at].Ran? && Answers(steps[at].run, request) then steps[at].run else Blank(request)
  }

  lemma AsRecordedIsHonest(steps: seq<Step>)
    ensures Honest(AsRecorded(steps))
  {
    forall at: nat, request: Request | Askable(at, request)
      ensures Answers(AsRecorded(steps)(at, request), request)
    {
      assert Answers(Blank(request), request);
    }
  }

  /** A run read as the one due is the one recalled for that request. */
  lemma RecordedAnswers(steps: seq<Step>, at: nat, request: Request)
    requires Due(steps, at, request).Some?
    requires request.stage != Next || request.sealed == Some(false) || FailsItsTest(Due(steps, at, request).value)
    ensures at < |steps| && steps[at] == Ran(Due(steps, at, request).value)
    ensures AsRecorded(steps)(at, request) == Due(steps, at, request).value
  {
  }

  lemma {:induction false} RecordedRounds(steps: seq<Step>, at: nat, put: Put, failed: seq<string>, left: nat)
    requires at <= |steps| && ReadRounds(steps, at, put, failed, left).Some?
    ensures Has(steps, at, Rounds(put, failed, left, AsRecorded(steps), at))
    decreases left
  {
    hide Due, LeavesNamed, AsRecorded;
    if left > 0 {
      RecordedAnswers(steps, at, FreshOf(put));
      if steps[at].run.outcome == Survived {
        RecordedAnswers(steps, at + 1, StopOf(put));
        if LeavesNamed(steps[at + 1].run) {
          RecordedAnswers(steps, at + 2, NextOf(put, false));
          if SameFailure(steps[at + 2].run, failed) {
            RecordedRounds(steps, at + 3, put, failed, left - 1);
            HasParts(steps, at, [steps[at], steps[at + 1], steps[at + 2]],
                Rounds(put, failed, left - 1, AsRecorded(steps), at + 3));
          }
        }
      }
    }
  }

  lemma RecordedTest(crash: string, put: Put, steps: seq<Step>, at: nat)
    requires at <= |steps| && ReadTest(crash, put, steps, at).Some?
    ensures Has(steps, at, Runs(put, AsRecorded(steps), at))
  {
    hide Due, AsRecorded, HandsOn, LeavesNamed, FailsItsTest, Rounds;
    var oracle := AsRecorded(steps);
    RecordedAnswers(steps, at, Request(put, Crash, None));
    var stop := steps[at].run;
    HandsOnLeavesNothing(stop);
    if LeavesNamed(stop) {
      RecordedAnswers(steps, at + 1, NextOf(put, stop.sealed));
      var next := steps[at + 1].run;
      if PutToRounds(put, stop, next) {
        RecordedRounds(steps, at + 2, put, next.failed, CONFIRMATIONS);
        HasParts(steps, at, [Ran(stop), Ran(next)], Rounds(put, next.failed, CONFIRMATIONS, oracle, at + 2));
      }
    }
  }

  lemma HandsOnLeavesNothing(stop: Run)
    ensures LeavesNamed(stop) ==> Stopped(stop) && !HandsOn(stop)
  {
  }

  /** The runs that decide a crash are the ones the procedure makes. */
  lemma {:induction false} RecordedIsMade(crash: string, puts: seq<Put>, otherwise: Site, steps: seq<Step>, at: nat)
    requires at <= |steps| && ReadPuts(crash, puts, otherwise, steps, at).Some?
    ensures Has(steps, at, Made(puts, AsRecorded(steps), at))
    decreases |puts|
  {
    if puts != [] {
      hide Runs, ReadTest, Verdict, HandsOn, Has, Honest, AsRecorded;
      var oracle := AsRecorded(steps);
      AsRecordedIsHonest(steps);
      RecordedTest(crash, puts[0], steps, at);
      ReadsTest(crash, oracle, puts[0], steps, at);
      var next := at + |Runs(puts[0], oracle, at)|;
      if HandsOn(oracle(at, Request(puts[0], Crash, None))) {
        RecordedIsMade(crash, puts[1..], otherwise, steps, next);
        HasParts(steps, at, Runs(puts[0], oracle, at), Made(puts[1..], oracle, next));
      }
    }
  }

  /** A run meets `world`, records `steps` of the crash and decides `decided`. */
  ghost predicate Makes(crash: string, world: World, steps: seq<Step>, stained: bool, decided: Decided) {
    Honest(world.oracle) && Recorded(world, stained) == steps && Decides(crash, world, stained) == decided
  }

  /** Where the parts of the steps recorded of a routed crash are. */
  lemma PartsOfRouted(asked: seq<Asked>, made: seq<Step>, end: seq<Step>)
    ensures var steps := [Route(asked)] + (made + end);
            && Has(steps, 1, made) && |steps| == 1 + |made| + |end| && steps[0] == Route(asked)
            && (end != [] ==> steps[1 + |made|] == end[0])
  {
    var steps := [Route(asked)] + (made + end);
    HasParts(steps, 0, [Route(asked)], made + end);
    HasParts(steps, 1, made, end);
    if end != [] { assert steps[1 + |made| + 0] == end[0]; }
  }

  /** What the procedure records of a crash decides it as the procedure did. */
  lemma DecidesWhatIsMade(crash: string, world: World, stained: bool)
    requires Honest(world.oracle)
    ensures Decide(crash, Recorded(world, stained), stained) == Ok(Decides(crash, world, stained))
  {
    hide Honest, Made, Comes, ReadPuts, Puts, Unnamed, Otherwise, RestsOnSealed, Has;
    if !world.refused && !stained {
      var made := Made(Puts(world.asked), world.oracle, 1);
      PartsOfRouted(world.asked, made, if world.wrote then [Outside] else []);
      ReadsMade(crash, Puts(world.asked), Otherwise(crash, Unnamed(world.asked)), world.oracle,
          Recorded(world, stained), 1);
    }
  }

  /** A world that makes a run record just `steps`. */
  function AsMet(steps: seq<Step>, wrote: bool): World {
    World(steps == [Rejected], if steps != [] && steps[0].Route? then steps[0].asked else [], AsRecorded(steps), wrote)
  }

  lemma DecidedIsMade(crash: string, steps: seq<Step>, stained: bool)
    requires Decide(crash, steps, stained).Ok?
    ensures Recorded(AsMet(steps, Decide(crash, steps, stained).value.outside), stained) == steps
  {
    hide Made, ReadPuts, Otherwise, Puts, Unnamed, AsRecorded, RestsOnSealed, Honest, Comes;
    if steps[0].Route? {
      var puts, otherwise := Puts(steps[0].asked), Otherwise(crash, Unnamed(steps[0].asked));
      AsRecordedIsHonest(steps);
      RecordedIsMade(crash, puts, otherwise, steps, 1);
      ReadsMade(crash, puts, otherwise, AsRecorded(steps), steps, 1);
      var made := Made(puts, AsRecorded(steps), 1);
      var end := if Decide(crash, steps, stained).value.outside then [Outside] else [];
      assert Has(steps, 1 + |made|, end);
      HasParts(steps, 1, made, end);
      HasParts(steps, 0, [steps[0]], made + end);
      assert steps == [steps[0]] + (made + end);
    }
  }

  /**
   The steps recorded of a crash decide it as `decided` exactly when a run can record just those steps and
   decide that.
   */
  lemma DecidingAgainIsExact(crash: string, steps: seq<Step>, stained: bool, decided: Decided)
    ensures Decide(crash, steps, stained) == Ok(decided) <==>
              exists world :: Makes(crash, world, steps, stained, decided)
  {
    if Decide(crash, steps, stained) == Ok(decided) {
      hide Decide, Decides, Honest, Recorded, AsRecorded;
      var met := AsMet(steps, decided.outside);
      DecidedIsMade(crash, steps, stained);
      AsRecordedIsHonest(steps);
      DecidesWhatIsMade(crash, met, stained);
      assert Makes(crash, met, steps, stained, decided);
    }
    if exists world :: Makes(crash, world, steps, stained, decided) {
      var world :| Makes(crash, world, steps, stained, decided);
      DecidesWhatIsMade(crash, world, stained);
    }
  }

  /**
   A stop that wrote into the tree is taken at its word: after a route alone, with no run recorded at all,
   it is accepted and leaves every later crash undecided.
   */
  lemma OutsideNeedsNoStop(crash: string)
    ensures Decide(crash, [Route([]), Outside], false) == Ok(Decided(Found(crash, Undecided, RULE), true))
  {
  }

  /** A crash is only ever decided as itself. */
  lemma DecidesItsCrash(crash: string, steps: seq<Step>, stained: bool)
    ensures Decide(crash, steps, stained).Ok? ==> Decide(crash, steps, stained).value.site.crash == crash
  {
    hide Puts, Unnamed, ReadPuts, RestsOnSealed;
    if steps != [] && steps[0].Route? {
      PutsDecideTheirCrash(crash, Puts(steps[0].asked), Otherwise(crash, Unnamed(steps[0].asked)), steps, 1);
    }
  }

  lemma {:induction false} PutsDecideTheirCrash(crash: string, puts: seq<Put>, otherwise: Site, steps: seq<Step>,
      at: nat)
    requires otherwise.crash == crash
    ensures var read := ReadPuts(crash, puts, otherwise, steps, at); read.Some? ==> read.value.value.crash == crash
    decreases |puts|
  {
    hide Due, HandsOn, LeavesNamed, ReadRounds;
    if puts != [] && ReadTest(crash, puts[0], steps, at).Some? {
      PutsDecideTheirCrash(crash, puts[1..], otherwise, steps, ReadTest(crash, puts[0], steps, at).value.at);
    }
  }
}

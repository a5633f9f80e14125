/**
 The exploration of one binary's schedules, replayed from the controls a recording holds
 (`xtask/src/concurrency.rs`), against the procedure that starts those controls.
 */
module Exploration {
  import opened Parts
  import opened Wrappers

  /** The rounds a failure under delay has to repeat in. */
  const CONFIRMING_ROUNDS := 5

  datatype Ended = Passed | Failed | Waited | Unsettled

  /** One control: the guard it delayed or the guard it confirms, how it ended, and the tests that failed. */
  datatype Run = Run(delayed: Option<nat>, confirms: Option<nat>, ended: Ended, failed: set<string>)

  datatype Explored =
    | Nothing
    | Sampled(delayed: seq<nat>)
    | Undecided(delayed: seq<nat>, undecided: seq<nat>)
    | Broke(site: nat, failed: set<string>, rounds: nat)

  datatype ReplayError = Stray(at: nat) | Truncated | AfterBroke(at: nat)

  function CameTo(delayed: seq<nat>, undecided: seq<nat>): Explored {
    if delayed == [] then Nothing
    else if undecided == [] then Sampled(delayed)
    else Undecided(delayed, undecided)
  }

  // ---------------------------------------------------------------- the procedure that starts controls

  /**
   What a control came to, and the guard a delayed control of a round names itself confirming, which
   nothing constrains.
   */
  datatype Answer = Answer(ended: Ended, failed: set<string>, confirms: Option<nat>)

  /** What each control would come to, by how many were started before it. */
  type Oracle = nat -> Answer

  function First(site: nat, answer: Answer): Run {
    Run(Some(site), None, answer.ended, answer.failed)
  }

  function Again(site: nat, answer: Answer): Run {
    Run(Some(site), answer.confirms, answer.ended, answer.failed)
  }

  function Without(site: nat, answer: Answer): Run {
    Run(None, Some(site), answer.ended, answer.failed)
  }

  /** Whether a delayed control fails exactly the tests the first one failed. */
  predicate Repeats(answer: Answer, failed: set<string>) {
    answer.ended == Failed && answer.failed == failed
  }

  /** Whether `rounds` rounds hold, each a delayed control that repeats the failure and an undelayed one that passes. */
  predicate Holds(failed: set<string>, rounds: nat, oracle: Oracle, at: nat) {
    rounds == 0 || (Repeats(oracle(at), failed) && oracle(at + 1).ended == Passed
        && Holds(failed, rounds - 1, oracle, at + 2))
  }

  /** The controls of the confirming rounds, as far as those keep holding. */
  function Rounds(site: nat, failed: set<string>, rounds: nat, oracle: Oracle, at: nat): seq<Run> {
    if rounds == 0 then []
    else if !Repeats(oracle(at), failed) then [Again(site, oracle(at))]
    else
      var round := [Again(site, oracle(at)), Without(site, oracle(at + 1))];
      if oracle(at + 1).ended != Passed then round else round + Rounds(site, failed, rounds - 1, oracle, at + 2)
  }

  /** The controls started for one site: its first, and the rounds confirming it where that failed. */
  function Controls(site: nat, oracle: Oracle, at: nat): seq<Run> {
    [First(site, oracle(at))] +
    if oracle(at).ended == Failed then Rounds(site, oracle(at).failed, CONFIRMING_ROUNDS, oracle, at + 1) else []
  }

  predicate Breaks(oracle: Oracle, at: nat) {
    oracle(at).ended == Failed && Holds(oracle(at).failed, CONFIRMING_ROUNDS, oracle, at + 1)
  }

  /** Every control the exploration of `sites` starts: each site's, in order, until one breaks. */
  function Started(sites: seq<nat>, oracle: Oracle, at: nat): seq<Run> {
    if sites == [] then []
    else
      var controls := Controls(sites[0], oracle, at);
      if Breaks(oracle, at) then controls else controls + Started(sites[1..], oracle, at + |controls|)
  }

  /** What that exploration comes to, over what the sites before came to. */
  function Outcome(sites: seq<nat>, oracle: Oracle, at: nat, delayed: seq<nat>, undecided: seq<nat>): Explored {
    if sites == [] then CameTo(delayed, undecided)
    else if Breaks(oracle, at) then Broke(sites[0], oracle(at).failed, CONFIRMING_ROUNDS)
    else
      Outcome(sites[1..], oracle, at + |Controls(sites[0], oracle, at)|, delayed + [sites[0]],
              if oracle(at).ended == Passed then undecided else undecided + [sites[0]])
  }

  // ---------------------------------------------------------------- replaying

  /** Where a replay stands between two controls. */
  datatype State =
    | Between(delayed: seq<nat>, undecided: seq<nat>)
    | DueAgain(delayed: seq<nat>, undecided: seq<nat>, site: nat, failed: set<string>, left: nat)
    | DueWithout(delayed: seq<nat>, undecided: seq<nat>, site: nat, failed: set<string>, left: nat)
    | Broken(site: nat, failed: set<string>)

  function Due(delayed: seq<nat>, undecided: seq<nat>, site: nat, failed: set<string>, left: nat): State {
    if left == 0 then Broken(site, failed) else DueAgain(delayed, undecided, site, failed, left)
  }

  /** Where one more control leads; nowhere where it is not the one that is due. */
  function Step(s: State, run: Run): Option<State> {
    match s
    case Between(delayed, undecided) =>
      if run.delayed.None? || run.confirms.Some? then None
      else
        var site := run.delayed.value;
        Some(match run.ended
             case Passed => Between(delayed + [site], undecided)
             case Failed => DueAgain(delayed + [site], undecided, site, run.failed, CONFIRMING_ROUNDS)
             case _ => Between(delayed + [site], undecided + [site]))
    case DueAgain(delayed, undecided, site, failed, left) =>
      if run.delayed != Some(site) then None
      else if run.ended == Failed && run.failed == failed then Some(DueWithout(delayed, undecided, site, failed, left))
      else Some(Between(delayed, undecided + [site]))
    case DueWithout(delayed, undecided, site, failed, left) =>
      if run.delayed.Some? || run.confirms != Some(site) then None
      else if run.ended != Passed then Some(Between(delayed, undecided + [site]))
      else Some(Due(delayed, undecided, site, failed, if left == 0 then 0 else left - 1))
    case Broken(_, _) => None
  }

  /** The replay that stands at `s` before the `at`th control. */
  function ReplayFrom(s: State, runs: seq<Run>, at: nat): Result<Explored, ReplayError>
    requires at <= |runs|
    decreases |runs| - at
  {
    if at == |runs| then
      match s
      case Between(delayed, undecided) => Ok(CameTo(delayed, undecided))
      case Broken(site, failed) => Ok(Broke(site, failed, CONFIRMING_ROUNDS))
      case _ => Err(Truncated)
    else
      match Step(s, runs[at])
      case Some(next) => ReplayFrom(next, runs, at + 1)
      case None => Err(if s.Broken? then AfterBroke(at) else Stray(at))
  }

  function Replay(runs: seq<Run>): Result<Explored, ReplayError> {
    ReplayFrom(Between([], []), runs, 0)
  }

  /**
   Reads the confirming rounds of `site` from `start`, to the first that does not hold or the first control
   that is not due.
   */
  method Confirmed(runs: seq<Run>, start: nat, site: nat,
      failed: set<string>, ghost delayed: seq<nat>, ghost undecided: seq<nat>)
    returns (held: Result<bool, ReplayError>, next: nat)
    requires start <= |runs|
    ensures start <= next <= |runs|
    ensures ReplayFrom(DueAgain(delayed, undecided, site, failed, CONFIRMING_ROUNDS), runs, start) ==
            match held
            case Err(error) => Err(error)
            case Ok(all) => ReplayFrom(if all then Broken(site, failed) else Between(delayed, undecided + [site]),
                runs, next)
  {
    next := start;
    for round := 0 to CONFIRMING_ROUNDS
      invariant start <= next <= |runs|
      invariant ReplayFrom(DueAgain(delayed, undecided, site, failed, CONFIRMING_ROUNDS), runs, start) ==
                ReplayFrom(Due(delayed, undecided, site, failed, CONFIRMING_ROUNDS - round), runs, next)
    {
      if next == |runs| { return Err(Truncated), next; }
      var again := runs[next];
      if again.delayed != Some(site) { return Err(Stray(next)), next; }
      next := next + 1;
      if !(again.ended == Failed && again.failed == failed) { return Ok(false), next; }
      if next == |runs| { return Err(Truncated), next; }
      var without := runs[next];
      if without.delayed.Some? || without.confirms != Some(site) { return Err(Stray(next)), next; }
      next := next + 1;
      if without.ended != Passed { return Ok(false), next; }
    }
    return Ok(true), next;
  }

  /** Replays the controls of one binary in turn, from nothing explored. */
  method Replayed(runs: seq<Run>) returns (explored: Result<Explored, ReplayError>)
    ensures explored == Replay(runs)
  {
    var delayed, undecided := [], [];
    var at := 0;
    while at < |runs|
      invariant at <= |runs|
      invariant Replay(runs) == ReplayFrom(Between(delayed, undecided), runs, at)
    {
      var first := runs[at];
      if first.delayed.None? { return Err(Stray(at)); }
      var site := first.delayed.value;
      if first.confirms.Some? { return Err(Stray(at)); }
      delayed := delayed + [site];
      at := at + 1;
      match first.ended {
        case Passed =>
        case Waited => undecided := undecided + [site];
        case Unsettled => undecided := undecided + [site];
        case Failed =>
          var held, next := Confirmed(runs, at, site, first.failed, delayed, undecided);
          at := next;
          if held.Err? { return Err(held.error); }
          if held.value {
            if at < |runs| { return Err(AfterBroke(at)); }
            return Ok(Broke(site, first.failed, CONFIRMING_ROUNDS));
          }
          undecided := undecided + [site];
      }
    }
    explored := Ok(CameTo(delayed, undecided));
  }

  // ---------------------------------------------------------------- the replay is the procedure's inverse

  lemma {:induction false} ReplaysRounds(site: nat, failed: set<string>, left: nat, oracle: Oracle,
                                         delayed: seq<nat>, undecided: seq<nat>, runs: seq<Run>, at: nat)
    requires Has(runs, at, Rounds(site, failed, left, oracle, at))
    ensures ReplayFrom(Due(delayed, undecided, site, failed, left), runs, at) ==
            ReplayFrom(if Holds(failed, left, oracle, at) then Broken(site, failed)
                else Between(delayed, undecided + [site]),
                       runs, at + |Rounds(site, failed, left, oracle, at)|)
    decreases left
  {
    var rounds := Rounds(site, failed, left, oracle, at);
    if left > 0 {
      assert runs[at + 0] == rounds[0];
      if Repeats(oracle(at), failed) {
        assert runs[at + 1] == rounds[1];
        if oracle(at + 1).ended == Passed {
          HasParts(runs, at, [Again(site, oracle(at)), Without(site, oracle(at + 1))],
              Rounds(site, failed, left - 1, oracle, at + 2));
          ReplaysRounds(site, failed, left - 1, oracle, delayed, undecided, runs, at + 2);
        }
      }
    }
  }

  /** Replays all the controls started for one site. */
  lemma ReplaysControls(site: nat, oracle: Oracle, delayed: seq<nat>, undecided: seq<nat>, runs: seq<Run>, at: nat)
    requires Has(runs, at, Controls(site, oracle, at))
    ensures ReplayFrom(Between(delayed, undecided), runs, at) ==
            ReplayFrom(if Breaks(oracle, at) then Broken(site, oracle(at).failed)
                       else Between(delayed + [site],
                           if oracle(at).ended == Passed then undecided else undecided + [site]),
                       runs, at + |Controls(site, oracle, at)|)
  {
    var first := [First(site, oracle(at))];
    var rounds :=
      if oracle(at).ended == Failed then Rounds(site, oracle(at).failed, CONFIRMING_ROUNDS, oracle, at + 1) else [];
    HasParts(runs, at, first, rounds);
    assert runs[at + 0] == first[0];
    if oracle(at).ended == Failed {
      ReplaysRounds(site, oracle(at).failed, CONFIRMING_ROUNDS, oracle, delayed + [site], undecided, runs, at + 1);
    }
  }

  /**
   Whatever the controls come to, the replay of what the procedure starts is accepted and is the
   procedure's own answer.
   */
  lemma {:induction false} ReplaysWhatIsStarted(sites: seq<nat>, oracle: Oracle, delayed: seq<nat>,
      undecided: seq<nat>, runs: seq<Run>, at: nat)
    requires Has(runs, at, Started(sites, oracle, at)) && at + |Started(sites, oracle, at)| == |runs|
    ensures ReplayFrom(Between(delayed, undecided), runs, at) == Ok(Outcome(sites, oracle, at, delayed, undecided))
    decreases |sites|
  {
    if sites != [] {
      var controls := Controls(sites[0], oracle, at);
      if Breaks(oracle, at) {
        ReplaysControls(sites[0], oracle, delayed, undecided, runs, at);
      } else {
        HasParts(runs, at, controls, Started(sites[1..], oracle, at + |controls|));
        ReplaysControls(sites[0], oracle, delayed, undecided, runs, at);
        ReplaysWhatIsStarted(sites[1..], oracle, delayed + [sites[0]],
                             if oracle(at).ended == Passed then undecided else undecided + [sites[0]],
                             runs, at + |controls|);
      }
    }
  }

  /** What the controls of a recording came to, as an oracle. */
  function AsRecorded(runs: seq<Run>): Oracle {
    (at: nat) => if at < |runs| then Answer(runs[at].ended, runs[at].failed, runs[at].confirms)
        else Answer(Passed, {}, None)
  }

  /** An accepted recording goes on with exactly the rounds the procedure starts. */
  lemma {:induction false} RecordedRounds(runs: seq<Run>, at: nat, site: nat,
      failed: set<string>, left: nat, delayed: seq<nat>, undecided: seq<nat>)
    requires at <= |runs|
    requires ReplayFrom(Due(delayed, undecided, site, failed, left), runs, at).Ok?
    ensures Has(runs, at, Rounds(site, failed, left, AsRecorded(runs), at))
    decreases left
  {
    if left > 0 && Repeats(AsRecorded(runs)(at), failed) && runs[at + 1].ended == Passed {
      RecordedRounds(runs, at + 2, site, failed, left - 1, delayed, undecided);
      HasParts(runs, at, [runs[at], runs[at + 1]], Rounds(site, failed, left - 1, AsRecorded(runs), at + 2));
    }
  }

  /** An accepted recording goes on with exactly the controls the procedure starts for the site the next one delays. */
  lemma RecordedControls(runs: seq<Run>, at: nat, delayed: seq<nat>, undecided: seq<nat>)
    requires at < |runs|
    requires ReplayFrom(Between(delayed, undecided), runs, at).Ok?
    ensures runs[at].delayed.Some?
    ensures Has(runs, at, Controls(runs[at].delayed.value, AsRecorded(runs), at))
  {
    var first := runs[at];
    var site := first.delayed.value;
    if first.ended == Failed {
      hide Rounds;
      RecordedRounds(runs, at + 1, site, first.failed, CONFIRMING_ROUNDS, delayed + [site], undecided);
      HasParts(runs, at, [first], Rounds(site, first.failed, CONFIRMING_ROUNDS, AsRecorded(runs), at + 1));
    }
  }

  lemma StartedFirst(site: nat, sites: seq<nat>, oracle: Oracle, at: nat)
    ensures var controls := Controls(site, oracle, at);
            Started([site] + sites, oracle, at) ==
            if Breaks(oracle, at) then controls else controls + Started(sites, oracle, at + |controls|)
  {
  }

  lemma StartedNone(oracle: Oracle, at: nat)
    ensures Started([], oracle, at) == []
  {
  }

  lemma ControlsAreSome(site: nat, oracle: Oracle, at: nat)
    ensures Controls(site, oracle, at) != []
  {
  }

  lemma BrokenIsOver(site: nat, failed: set<string>, runs: seq<Run>, at: nat)
    requires at <= |runs| && ReplayFrom(Broken(site, failed), runs, at).Ok?
    ensures at == |runs|
  {
  }

  /** The sites an accepted recording explores, with which the procedure starts that recording. */
  lemma {:induction false} RecordedIsStarted(runs: seq<Run>, at: nat, delayed: seq<nat>, undecided: seq<nat>)
    returns (sites: seq<nat>)
    requires at <= |runs|
    requires ReplayFrom(Between(delayed, undecided), runs, at).Ok?
    ensures Has(runs, at, Started(sites, AsRecorded(runs), at)) && at + |Started(sites, AsRecorded(runs), at)| == |runs|
    decreases |runs| - at
  {
    hide Started, Controls, Rounds, Breaks, AsRecorded, ReplayFrom;
    var oracle := AsRecorded(runs);
    sites := [];
    StartedNone(oracle, at);
    if at < |runs| {
      RecordedControls(runs, at, delayed, undecided);
      var site := runs[at].delayed.value;
      var controls := Controls(site, oracle, at);
      ControlsAreSome(site, oracle, at);
      ReplaysControls(site, oracle, delayed, undecided, runs, at);
      var next := at + |controls|;
      if Breaks(oracle, at) {
        BrokenIsOver(site, oracle(at).failed, runs, next);
      } else {
        sites := RecordedIsStarted(runs, next, delayed + [site],
            if oracle(at).ended == Passed then undecided else undecided + [site]);
        HasParts(runs, at, controls, Started(sites, oracle, next));
      }
      StartedFirst(site, sites, oracle, at);
      sites := [site] + sites;
    }
  }

  /** The procedure, asked to explore `sites`, starts `runs` and comes to `answer`. */
  ghost predicate Explores(sites: seq<nat>, oracle: Oracle, runs: seq<Run>, answer: Explored) {
    Started(sites, oracle, 0) == runs && Outcome(sites, oracle, 0, [], []) == answer
  }

  /**
   A recording is accepted as `answer` exactly when the procedure, for some sites and some outcomes, starts
   just those controls and comes to `answer`.
   */
  lemma ReplayIsExact(runs: seq<Run>, answer: Explored)
    ensures Replay(runs) == Ok(answer) <==> exists sites, oracle :: Explores(sites, oracle, runs, answer)
  {
    if Replay(runs) == Ok(answer) {
      var sites := RecordedIsStarted(runs, 0, [], []);
      assert Started(sites, AsRecorded(runs), 0) == runs;
      ReplaysWhatIsStarted(sites, AsRecorded(runs), [], [], runs, 0);
      assert Explores(sites, AsRecorded(runs), runs, answer);
    }
    if exists sites, oracle :: Explores(sites, oracle, runs, answer) {
      var sites, oracle :| Explores(sites, oracle, runs, answer);
      ReplaysWhatIsStarted(sites, oracle, [], [], runs, 0);
    }
  }

  // ---------------------------------------------------------------- where a recording is refused

  /** Whether the replay of `runs` is not refused at any of its first `upto` controls. */
  predicate Passes(result: Result<Explored, ReplayError>, upto: nat) {
    result.Ok? || result.error.Truncated? || result.error.at >= upto
  }

  /** Controls not refused can go on to an accepted recording: one control that settles nothing ends an open round. */
  lemma {:induction false} GoesOn(s: State, runs: seq<Run>, at: nat, upto: nat) returns (more: seq<Run>)
    requires at <= upto <= |runs| && Passes(ReplayFrom(s, runs, at), upto)
    ensures ReplayFrom(s, runs[..upto] + more, at).Ok?
    decreases upto - at
  {
    if at < upto {
      more := GoesOn(Step(s, runs[at]).value, runs, at + 1, upto);
      assert (runs[..upto] + more)[at] == runs[at];
    } else {
      more := match s
      case DueAgain(_, _, site, _, _) => [Run(Some(site), None, Unsettled, {})]
      case DueWithout(_, _, site, _, _) => [Run(None, Some(site), Unsettled, {})]
      case _ => [];
      if more != [] {
        assert ReplayFrom(Step(s, more[0]).value, runs[..upto] + more, at + 1).Ok?;
      }
    }
  }

  /** A control refused is refused whatever follows it. */
  lemma {:induction false} StaysRefused(s: State, runs: seq<Run>, other: seq<Run>, at: nat)
    requires at <= |runs| && ReplayFrom(s, runs, at).Err? && !ReplayFrom(s, runs, at).error.Truncated?
    requires var i := ReplayFrom(s, runs, at).error.at; i < |runs| ==> runs[..i + 1] <= other
    ensures at <= ReplayFrom(s, runs, at).error.at < |runs| && at <= |other|
    ensures ReplayFrom(s, other, at) == ReplayFrom(s, runs, at)
    decreases |runs| - at
  {
    if Step(s, runs[at]).Some? {
      StaysRefused(Step(s, runs[at]).value, runs, other, at + 1);
    }
    var i := ReplayFrom(s, runs, at).error.at;
    assert runs[at] == runs[..i + 1][at] == other[at];
  }

  /** Whether some recording starting with `runs` is accepted. */
  ghost predicate Extends(runs: seq<Run>) {
    exists whole :: runs <= whole && Replay(whole).Ok?
  }

  /**
   A refusal at a control says the controls before it could go on to an accepted recording and that with it
   they no longer can; a refusal of the end says only that the recording stops too early.
   */
  lemma RefusedAtTheFirstImpossible(runs: seq<Run>)
    ensures Replay(runs) == Err(Truncated) ==> Extends(runs)
    ensures Replay(runs).Err? && !Replay(runs).error.Truncated? ==>
              var i := Replay(runs).error.at; i < |runs| && Extends(runs[..i]) && !Extends(runs[..i + 1])
  {
    var start := Between([], []);
    if Replay(runs) == Err(Truncated) {
      var more := GoesOn(start, runs, 0, |runs|);
      assert runs <= runs[..|runs|] + more && Replay(runs[..|runs|] + more).Ok?;
    } else if Replay(runs).Err? {
      var i := Replay(runs).error.at;
      if i < |runs| {
        forall whole | runs[..i + 1] <= whole ensures Replay(whole).Err? {
          StaysRefused(start, runs, whole, 0);
        }
      } else {
        StaysRefused(start, runs, runs, 0);
      }
      var more := GoesOn(start, runs, 0, i);
      assert runs[..i] <= runs[..i] + more && Replay(runs[..i] + more).Ok?;
    }
  }

  lemma {:induction false} RefusedAfter(s: State, runs: seq<Run>, at: nat)
    requires at <= |runs| && ReplayFrom(s, runs, at).Err? && !ReplayFrom(s, runs, at).error.Truncated?
    ensures var error := ReplayFrom(s, runs, at).error;
            && at <= error.at < |runs|
            && (error.AfterBroke? <==>
                ReplayFrom(s, runs[..error.at], at).Ok? && ReplayFrom(s, runs[..error.at], at).value.Broke?)
    decreases |runs| - at
  {
    if Step(s, runs[at]).Some? {
      RefusedAfter(Step(s, runs[at]).value, runs, at + 1);
      var i := ReplayFrom(s, runs, at).error.at;
      assert runs[..i][at] == runs[at];
    } else {
      assert |runs[..at]| == at;
    }
  }

  /** A control is refused as coming after a broken schedule exactly where those before it are accepted as one. */
  lemma RefusedForItsReason(runs: seq<Run>)
    requires Replay(runs).Err? && !Replay(runs).error.Truncated?
    ensures var error := Replay(runs).error;
            && error.at < |runs|
            && (error.AfterBroke? <==> Replay(runs[..error.at]).Ok? && Replay(runs[..error.at]).value.Broke?)
  {
    RefusedAfter(Between([], []), runs, 0);
  }

  // ---------------------------------------------------------------- what a broken schedule rests on

  /** The `k`th round after the control at `first` held: delayed it fails as before, undelayed it passes. */
  predicate RoundHeld(runs: seq<Run>, first: nat, k: nat)
    requires first + 2 * k + 2 < |runs|
  {
    var again, without := runs[first + 2 * k + 1], runs[first + 2 * k + 2];
    && again.delayed == runs[first].delayed && again.ended == Failed && again.failed == runs[first].failed
    && without.delayed == None && without.confirms == runs[first].delayed && without.ended == Passed
  }

  /** The controls of a schedule found broken: a first one that failed, and every confirming round after it. */
  ghost predicate BreaksAt(runs: seq<Run>, first: nat, rounds: nat, site: nat, failed: set<string>) {
    && first + 2 * rounds < |runs|
    && runs[first] == Run(Some(site), None, Failed, failed)
    && forall k | 0 <= k < rounds :: RoundHeld(runs, first, k)
  }

  /**
   What the controls before `at` are where the replay stands at `s`, whose open rounds follow the control
   at `first`.
   */
  ghost predicate Remembers(s: State, runs: seq<Run>, first: nat, at: nat) {
    match s
    case Between(_, _) => true
    case DueAgain(_, _, site, failed, left) =>
      && 0 < left <= CONFIRMING_ROUNDS && at == first + 1 + 2 * (CONFIRMING_ROUNDS - left)
      && BreaksAt(runs, first, CONFIRMING_ROUNDS - left, site, failed)
    case DueWithout(_, _, site, failed, left) =>
      && 0 < left <= CONFIRMING_ROUNDS && at == first + 2 + 2 * (CONFIRMING_ROUNDS - left)
      && BreaksAt(runs, first, CONFIRMING_ROUNDS - left, site, failed)
      && at <= |runs| && runs[at - 1].delayed == Some(site) && runs[at - 1].ended == Failed
      && runs[at - 1].failed == failed
    case Broken(site, failed) =>
      at == first + 1 + 2 * CONFIRMING_ROUNDS && BreaksAt(runs, first, CONFIRMING_ROUNDS, site, failed)
  }

  lemma {:induction false} BreaksAfterRounds(s: State, runs: seq<Run>, first: nat, at: nat)
    requires at <= |runs| && Remembers(s, runs, first, at)
    requires ReplayFrom(s, runs, at).Ok? && ReplayFrom(s, runs, at).value.Broke?
    ensures var broke := ReplayFrom(s, runs, at).value;
            && broke.rounds == CONFIRMING_ROUNDS && |runs| > 2 * CONFIRMING_ROUNDS
            && BreaksAt(runs, |runs| - 1 - 2 * CONFIRMING_ROUNDS, CONFIRMING_ROUNDS, broke.site, broke.failed)
    decreases |runs| - at
  {
    if at < |runs| {
      var next := Step(s, runs[at]).value;
      var first' := if s.Between? then at else first;
      if s.DueWithout? && !next.Between? {
        assert RoundHeld(runs, first, CONFIRMING_ROUNDS - s.left);
      }
      assert Remembers(next, runs, first', at + 1);
      BreaksAfterRounds(next, runs, first', at + 1);
    }
  }

  /**
   A schedule is found broken only on a first failing control with its guard delayed and five rounds in
   which the same tests fail delayed and nothing fails without.
   */
  lemma BrokeRestsOnItsRounds(runs: seq<Run>, site: nat, failed: set<string>, rounds: nat)
    requires Replay(runs) == Ok(Broke(site, failed, rounds))
    ensures rounds == CONFIRMING_ROUNDS && |runs| > 2 * rounds
    ensures BreaksAt(runs, |runs| - 1 - 2 * rounds, rounds, site, failed)
  {
    BreaksAfterRounds(Between([], []), runs, 0, 0);
  }

  // ---------------------------------------------------------------- what a sampled schedule rests on

  /** Every control was the first of its site and passed, and `delayed` are the sites. */
  ghost predicate AllPassed(runs: seq<Run>, delayed: seq<nat>) {
    |delayed| == |runs| && forall i | 0 <= i < |runs| :: PassesAt(runs[i], delayed[i])
  }

  predicate PassesAt(run: Run, site: nat) {
    run.delayed == Some(site) && run.confirms == None && run.ended == Passed
  }

  /** Once a site is undecided, or its confirming has begun, the schedule is never found sampled. */
  lemma {:induction false} StaysUndecided(s: State, runs: seq<Run>, at: nat)
    requires at <= |runs| && (s.Between? ==> s.undecided != [] && s.delayed != [])
    requires (s.DueAgain? || s.DueWithout?) ==> s.delayed != []
    ensures ReplayFrom(s, runs, at).Ok? ==>
              ReplayFrom(s, runs, at).value.Undecided? || ReplayFrom(s, runs, at).value.Broke?
    decreases |runs| - at
  {
    if at < |runs| && Step(s, runs[at]).Some? {
      StaysUndecided(Step(s, runs[at]).value, runs, at + 1);
    }
  }

  lemma {:induction false} SampledFrom(runs: seq<Run>, at: nat, delayed: seq<nat>)
    requires at <= |runs| && at == |delayed| && forall i | 0 <= i < at :: PassesAt(runs[i], delayed[i])
    ensures match ReplayFrom(Between(delayed, []), runs, at)
            case Ok(Nothing) => runs == []
            case Ok(Sampled(all)) => runs != [] && AllPassed(runs, all)
            case _ => !exists all :: AllPassed(runs, all)
    decreases |runs| - at
  {
    if at < |runs| {
      var next := Step(Between(delayed, []), runs[at]);
      if runs[at].delayed.Some? && PassesAt(runs[at], runs[at].delayed.value) {
        SampledFrom(runs, at + 1, delayed + [runs[at].delayed.value]);
      } else {
        forall all ensures !AllPassed(runs, all) {
          assert |all| == |runs| ==> !PassesAt(runs[at], all[at]);
        }
        if next.Some? { StaysUndecided(next.value, runs, at + 1); }
      }
    }
  }

  /**
   A schedule is found sampled exactly where every control was the first of its site and passed, and then
   names those sites; nothing was explored exactly where no control was started.
   */
  lemma SampledMeansAllPassed(runs: seq<Run>, delayed: seq<nat>)
    ensures Replay(runs) == Ok(Sampled(delayed)) <==> runs != [] && AllPassed(runs, delayed)
    ensures Replay(runs) == Ok(Nothing) <==> runs == []
  {
    SampledFrom(runs, 0, []);
    if runs != [] && AllPassed(runs, delayed) {
      match Replay(runs) {
        case Ok(Sampled(all)) =>
          forall i | 0 <= i < |runs| ensures all[i] == delayed[i] {
            assert PassesAt(runs[i], all[i]) && PassesAt(runs[i], delayed[i]);
          }
          assert all == delayed;
        case _ =>
      }
    }
  }

  // ---------------------------------------------------------------- what every answer rests on

  /** A site's first control: a guard delayed, and nothing confirmed. */
  predicate IsFirst(runs: seq<Run>, at: nat) {
    at < |runs| && runs[at].delayed.Some? && runs[at].confirms == None
  }

  predicate RoundsHeld(runs: seq<Run>, first: nat, rounds: nat) {
    first + 2 * rounds < |runs| && forall k: nat | k < rounds :: RoundHeld(runs, first, k)
  }

  /**
   The round after `k` that held is the last: its delayed control does not repeat the failure, or its other
   one does not pass.
   */
  predicate RoundFell(runs: seq<Run>, first: nat, k: nat, end: nat)
    requires first < |runs|
  {
    || (end == first + 2 * k + 2 <= |runs| && runs[end - 1].delayed == runs[first].delayed
        && !(runs[end - 1].ended == Failed && runs[end - 1].failed == runs[first].failed))
    || (end == first + 2 * k + 3 <= |runs|
        && runs[end - 2].delayed == runs[first].delayed
        && runs[end - 2].ended == Failed && runs[end - 2].failed == runs[first].failed
        && runs[end - 1].delayed == None && runs[end - 1].confirms == runs[first].delayed
        && runs[end - 1].ended != Passed)
  }

  /** The controls from `first` up to `end` are those of one site that did not break. */
  ghost predicate Unbroken(runs: seq<Run>, first: nat, end: nat) {
    && IsFirst(runs, first)
    && if runs[first].ended != Failed then end == first + 1
       else exists k: nat :: k < 5 && RoundsHeld(runs, first, k) && RoundFell(runs, first, k, end)
  }

  /** The controls from `first` up to `end` are those of a site that broke, in five rounds. */
  ghost predicate Broken5(runs: seq<Run>, first: nat, end: nat) {
    IsFirst(runs, first) && runs[first].ended == Failed && RoundsHeld(runs, first, 5) && end == first + 11
  }

  /** Where the controls of the `m`th of the sites end, which start at `starts`. */
  ghost function EndOf(runs: seq<Run>, starts: seq<nat>, m: nat): nat {
    if m + 1 < |starts| then starts[m + 1] else |runs|
  }

  /** From `at` on, the recording is the controls of one site after another, of which only the last may have broken. */
  ghost predicate Divides(runs: seq<Run>, starts: seq<nat>, at: nat) {
    && (if starts == [] then at == |runs| else starts[0] == at)
    && forall m: nat | m < |starts| ::
         || Unbroken(runs, starts[m], EndOf(runs, starts, m))
         || (m == |starts| - 1 && Broken5(runs, starts[m], |runs|))
  }

  ghost predicate LastBroke(runs: seq<Run>, starts: seq<nat>) {
    starts != [] && Broken5(runs, starts[|starts| - 1], |runs|)
  }

  /** The guards delayed in the controls at `starts`, in order. */
  ghost predicate SitesAt(runs: seq<Run>, starts: seq<nat>, sites: seq<nat>) {
    |sites| == |starts| && forall m: nat | m < |starts| ::
        starts[m] < |runs| && runs[starts[m]].delayed == Some(sites[m])
  }

  /** Those of `starts` whose first control did not pass, in order. */
  ghost function NotPassed(runs: seq<Run>, starts: seq<nat>): seq<nat> {
    if starts == [] then []
    else
      var passed := starts[0] < |runs| && runs[starts[0]].ended == Passed;
      (if passed then [] else [starts[0]]) + NotPassed(runs, starts[1..])
  }

  /** A broken site's answer, or what was delayed and what of it was not settled by passing. */
  ghost predicate Answers(runs: seq<Run>, starts: seq<nat>, explored: Explored) {
    if LastBroke(runs, starts) then
      var first := runs[starts[|starts| - 1]];
      first.delayed.Some? && explored == Broke(first.delayed.value, first.failed, 5)
    else
      match explored
      case Nothing => starts == []
      case Sampled(delayed) => starts != [] && SitesAt(runs, starts, delayed) && NotPassed(runs, starts) == []
      case Undecided(delayed, undecided) =>
        && SitesAt(runs, starts, delayed) && undecided != []
        && SitesAt(runs, NotPassed(runs, starts), undecided)
      case Broke(_, _, _) => false
  }

  lemma {:induction false} HeldRoundsAreRead(runs: seq<Run>, first: nat, k: nat, delayed: seq<nat>, undecided: seq<nat>)
    requires IsFirst(runs, first) && k <= 5 && RoundsHeld(runs, first, k)
    ensures var site, failed := runs[first].delayed.value, runs[first].failed;
            ReplayFrom(DueAgain(delayed, undecided, site, failed, 5), runs, first + 1)
            == ReplayFrom(Due(delayed, undecided, site, failed, 5 - k), runs, first + 1 + 2 * k)
    decreases k
  {
    if k > 0 {
      HeldRoundsAreRead(runs, first, k - 1, delayed, undecided);
      assert RoundHeld(runs, first, k - 1);
    }
  }

  /** The controls of an unbroken site are read through to the next one. */
  lemma UnbrokenIsRead(runs: seq<Run>, first: nat, end: nat, delayed: seq<nat>, undecided: seq<nat>)
    requires Unbroken(runs, first, end)
    ensures first < end <= |runs|
    ensures var site := runs[first].delayed.value;
            ReplayFrom(Between(delayed, undecided), runs, first)
            == ReplayFrom(
                 Between(delayed + [site], if runs[first].ended == Passed then undecided else undecided + [site]),
                 runs, end)
  {
    var site, failed := runs[first].delayed.value, runs[first].failed;
    if runs[first].ended == Failed {
      var k: nat :| k < 5 && RoundsHeld(runs, first, k) && RoundFell(runs, first, k, end);
      HeldRoundsAreRead(runs, first, k, delayed + [site], undecided);
    }
  }

  lemma BrokenIsRead(runs: seq<Run>, first: nat, end: nat, delayed: seq<nat>, undecided: seq<nat>)
    requires Broken5(runs, first, end)
    ensures end <= |runs|
    ensures ReplayFrom(Between(delayed, undecided), runs, first)
            == ReplayFrom(Broken(runs[first].delayed.value, runs[first].failed), runs, end)
  {
    HeldRoundsAreRead(runs, first, 5, delayed + [runs[first].delayed.value], undecided);
  }

  /** Rounds that are read to an answer hold to the end, or fall. */
  lemma {:induction false} ReadRoundsFall(runs: seq<Run>, first: nat, k: nat, delayed: seq<nat>, undecided: seq<nat>)
    returns (end: nat)
    requires IsFirst(runs, first) && runs[first].ended == Failed && k <= 5 && RoundsHeld(runs, first, k)
    requires first + 1 + 2 * k <= |runs|
    requires ReplayFrom(Due(delayed, undecided, runs[first].delayed.value, runs[first].failed, 5 - k), runs,
                        first + 1 + 2 * k).Ok?
    ensures Unbroken(runs, first, end) || Broken5(runs, first, end)
    decreases 5 - k
  {
    if k == 5 {
      end := first + 11;
    } else {
      var at := first + 1 + 2 * k;
      var again := runs[at];
      if !(again.ended == Failed && again.failed == runs[first].failed) {
        end := at + 1;
        assert RoundFell(runs, first, k, end);
      } else if runs[at + 1].ended != Passed {
        end := at + 2;
        assert RoundFell(runs, first, k, end);
      } else {
        assert RoundHeld(runs, first, k);
        end := ReadRoundsFall(runs, first, k + 1, delayed, undecided);
      }
    }
  }

  /** A recording that is accepted goes on from between sites with one site's controls. */
  lemma AcceptedGoesOn(runs: seq<Run>, first: nat, delayed: seq<nat>, undecided: seq<nat>) returns (end: nat)
    requires first < |runs| && ReplayFrom(Between(delayed, undecided), runs, first).Ok?
    ensures Unbroken(runs, first, end) || (Broken5(runs, first, end) && end == |runs|)
  {
    if runs[first].ended == Failed {
      end := ReadRoundsFall(runs, first, 0, delayed + [runs[first].delayed.value], undecided);
      if Broken5(runs, first, end) { BrokenIsRead(runs, first, end, delayed, undecided); }
    } else {
      end := first + 1;
    }
  }

  /** The guards delayed in the controls at `starts`. */
  ghost function SitesOf(runs: seq<Run>, starts: seq<nat>): seq<nat> {
    if starts == [] then []
    else
      [if starts[0] < |runs| && runs[starts[0]].delayed.Some? then runs[starts[0]].delayed.value else 0]
      + SitesOf(runs, starts[1..])
  }

  lemma {:induction false} SitesOfAre(runs: seq<Run>, starts: seq<nat>, sites: seq<nat>)
    requires forall m: nat | m < |starts| :: IsFirst(runs, starts[m])
    ensures SitesAt(runs, starts, sites) <==> sites == SitesOf(runs, starts)
    ensures |SitesOf(runs, starts)| == |starts|
  {
    if starts != [] {
      forall m: nat | m < |starts[1..]|
        ensures IsFirst(runs, starts[1..][m])
      {
        assert starts[1..][m] == starts[m + 1];
      }
      if sites != [] {
        SitesOfAre(runs, starts[1..], sites[1..]);
        if SitesAt(runs, starts, sites) {
          forall m: nat | m < |starts[1..]| ensures runs[starts[1..][m]].delayed == Some(sites[1..][m]) {
            assert starts[1..][m] == starts[m + 1];
          }
          assert sites == [sites[0]] + sites[1..];
        }
        if sites == SitesOf(runs, starts) {
          assert sites[1..] == SitesOf(runs, starts[1..]);
          forall m: nat | m < |starts| ensures starts[m] < |runs| && runs[starts[m]].delayed == Some(sites[m]) {
            if m > 0 { assert starts[1..][m - 1] == starts[m] && sites[1..][m - 1] == sites[m]; }
          }
        }
      } else {
        SitesOfAre(runs, starts[1..], []);
      }
    }
  }

  lemma {:induction false} NotPassedAreFirst(runs: seq<Run>, starts: seq<nat>)
    requires forall m: nat | m < |starts| :: IsFirst(runs, starts[m])
    ensures forall m: nat | m < |NotPassed(runs, starts)| :: IsFirst(runs, NotPassed(runs, starts)[m])
  {
    if starts != [] {
      forall m: nat | m < |starts[1..]|
        ensures IsFirst(runs, starts[1..][m])
      {
        assert starts[1..][m] == starts[m + 1];
      }
      NotPassedAreFirst(runs, starts[1..]);
    }
  }

  lemma DividesOn(runs: seq<Run>, starts: seq<nat>, at: nat)
    requires starts != [] && Divides(runs, starts, at) && |starts| > 1
    ensures Unbroken(runs, at, starts[1]) && Divides(runs, starts[1..], starts[1])
    ensures LastBroke(runs, starts[1..]) <==> LastBroke(runs, starts)
  {
    hide Unbroken, Broken5;
    var rest := starts[1..];
    assert EndOf(runs, starts, 0) == starts[1];
    forall m: nat | m < |rest|
      ensures Unbroken(runs, rest[m], EndOf(runs, rest, m)) || (m == |rest| - 1 && Broken5(runs, rest[m], |runs|))
    {
      assert rest[m] == starts[m + 1] && EndOf(runs, rest, m) == EndOf(runs, starts, m + 1);
    }
  }

  lemma LastIsRead(runs: seq<Run>, at: nat, delayed: seq<nat>, undecided: seq<nat>)
    requires Unbroken(runs, at, |runs|) || Broken5(runs, at, |runs|)
    ensures at < |runs| && IsFirst(runs, at)
    ensures ReplayFrom(Between(delayed, undecided), runs, at)
            == Ok(if Broken5(runs, at, |runs|) then Broke(runs[at].delayed.value, runs[at].failed, 5)
                  else CameTo(delayed + SitesOf(runs, [at]), undecided + SitesOf(runs, NotPassed(runs, [at]))))
  {
    hide Unbroken, Broken5;
    StartsFirst(runs, at, |runs|);
    if Broken5(runs, at, |runs|) {
      BrokenIsRead(runs, at, |runs|, delayed, undecided);
    } else {
      UnbrokenIsRead(runs, at, |runs|, delayed, undecided);
      NotPassedOf(runs, [at]);
      assert [at][1..] == [] && SitesOf(runs, [at]) == [runs[at].delayed.value];
      assert undecided + [] == undecided;
    }
  }

  /** A recording divided into sites' controls is accepted, as what those sites came to. */
  lemma {:induction false} DividedIsRead(runs: seq<Run>, starts: seq<nat>, at: nat, delayed: seq<nat>,
      undecided: seq<nat>)
    requires Divides(runs, starts, at)
    ensures at <= |runs|
    ensures forall m: nat | m < |starts| :: IsFirst(runs, starts[m])
    ensures ReplayFrom(Between(delayed, undecided), runs, at)
            == Ok(if LastBroke(runs, starts) then
                    Broke(runs[starts[|starts| - 1]].delayed.value, runs[starts[|starts| - 1]].failed, 5)
                  else CameTo(delayed + SitesOf(runs, starts), undecided + SitesOf(runs, NotPassed(runs, starts))))
    decreases |starts|
  {
    hide Unbroken, Broken5, RoundsHeld, IsFirst, CameTo, SitesOf, NotPassed;
    if starts == [] {
      assert SitesOf(runs, starts) == [] && NotPassed(runs, starts) == [] by { NoSites(runs); }
      assert delayed + [] == delayed && undecided + [] == undecided;
    } else if |starts| == 1 {
      assert EndOf(runs, starts, 0) == |runs| && starts == [at];
      LastIsRead(runs, at, delayed, undecided);
    } else {
      var rest, end := starts[1..], starts[1];
      DividesOn(runs, starts, at);
      UnbrokenIsRead(runs, at, end, delayed, undecided);
      StartsFirst(runs, at, end);
      var site := runs[at].delayed.value;
      var more := if runs[at].ended == Passed then undecided else undecided + [site];
      DividedIsRead(runs, rest, end, delayed + [site], more);
      OneMoreSite(runs, starts, delayed, undecided);
      forall m: nat | m < |starts| ensures IsFirst(runs, starts[m]) {
        if m > 0 { assert rest[m - 1] == starts[m]; }
      }
    }
  }

  lemma StartsFirst(runs: seq<Run>, first: nat, end: nat)
    ensures Unbroken(runs, first, end) || Broken5(runs, first, end) ==> IsFirst(runs, first)
  {
  }

  lemma NotPassedOf(runs: seq<Run>, starts: seq<nat>)
    requires starts != [] && IsFirst(runs, starts[0])
    ensures SitesOf(runs, NotPassed(runs, starts))
            == (if runs[starts[0]].ended == Passed then [] else [runs[starts[0]].delayed.value])
               + SitesOf(runs, NotPassed(runs, starts[1..]))
  {
    var rest := NotPassed(runs, starts[1..]);
    if runs[starts[0]].ended == Passed {
      assert [] + rest == rest && [] + SitesOf(runs, rest) == SitesOf(runs, rest);
    } else {
      assert ([starts[0]] + rest)[1..] == rest;
    }
  }

  lemma NoSites(runs: seq<Run>)
    ensures SitesOf(runs, []) == [] && NotPassed(runs, []) == []
  {
  }

  lemma OneMoreSite(runs: seq<Run>, starts: seq<nat>, delayed: seq<nat>, undecided: seq<nat>)
    requires starts != [] && IsFirst(runs, starts[0])
    ensures var first := runs[starts[0]];
            var more := if first.ended == Passed then undecided else undecided + [first.delayed.value];
            && delayed + [first.delayed.value] + SitesOf(runs, starts[1..]) == delayed + SitesOf(runs, starts)
            && more + SitesOf(runs, NotPassed(runs, starts[1..])) == undecided + SitesOf(runs, NotPassed(runs, starts))
  {
    hide NotPassed, SitesOf;
    var first, rest := runs[starts[0]], SitesOf(runs, starts[1..]);
    FirstSiteOf(runs, starts);
    NotPassedOf(runs, starts);
    BracketsMove(delayed, first.delayed.value, rest);
    BracketsMove(undecided, first.delayed.value, SitesOf(runs, NotPassed(runs, starts[1..])));
  }

  lemma FirstSiteOf(runs: seq<Run>, starts: seq<nat>)
    requires starts != [] && IsFirst(runs, starts[0])
    ensures SitesOf(runs, starts) == [runs[starts[0]].delayed.value] + SitesOf(runs, starts[1..])
  {
  }

  lemma BracketsMove(front: seq<nat>, one: nat, back: seq<nat>)
    ensures front + [one] + back == front + ([one] + back) && [] + back == back
  {
  }

  /** A recording that is accepted is divided into sites' controls. */
  lemma {:induction false} AcceptedIsDivided(runs: seq<Run>, at: nat, delayed: seq<nat>, undecided: seq<nat>)
    returns (starts: seq<nat>)
    requires at <= |runs| && ReplayFrom(Between(delayed, undecided), runs, at).Ok?
    ensures Divides(runs, starts, at)
    decreases |runs| - at
  {
    hide Broken5, Unbroken;
    starts := [];
    if at < |runs| {
      var end := AcceptedGoesOn(runs, at, delayed, undecided);
      if Broken5(runs, at, end) && end == |runs| {
        starts := [at];
      } else {
        UnbrokenIsRead(runs, at, end, delayed, undecided);
        StartsFirst(runs, at, end);
        var site := runs[at].delayed.value;
        var rest := AcceptedIsDivided(runs, end, delayed + [site],
                                      if runs[at].ended == Passed then undecided else undecided + [site]);
        starts := [at] + rest;
        forall m: nat | m < |starts|
          ensures Unbroken(runs, starts[m], EndOf(runs, starts, m))
                  || (m == |starts| - 1 && Broken5(runs, starts[m], |runs|))
        {
          if m > 0 { assert rest[m - 1] == starts[m] && EndOf(runs, rest, m - 1) == EndOf(runs, starts, m); }
        }
      }
    }
  }

  /**
   What every answer rests on, both ways: a recording is accepted as an answer exactly where it is the
   controls of one site after another, each a first control and, where that failed, the rounds up to the
   first that did not hold; and the answer is the last site where five rounds of it held, and otherwise every
   site in order, with those among them whose first control did not pass.
   */
  lemma AnswerRestsOn(runs: seq<Run>, explored: Explored)
    ensures Replay(runs) == Ok(explored) <==>
            exists starts :: Divides(runs, starts, 0) && Answers(runs, starts, explored)
  {
    hide Divides, LastBroke, SitesAt;
    if Replay(runs) == Ok(explored) {
      var starts := AcceptedIsDivided(runs, 0, [], []);
      AnswerOfDivided(runs, starts, explored);
      assert Answers(runs, starts, explored);
    }
    if starts: seq<nat> :| Divides(runs, starts, 0) && Answers(runs, starts, explored) {
      AnswerOfDivided(runs, starts, explored);
    }
  }

  lemma AnswerOfDivided(runs: seq<Run>, starts: seq<nat>, explored: Explored)
    requires Divides(runs, starts, 0)
    ensures Replay(runs) == Ok(explored) <==> Answers(runs, starts, explored)
  {
    hide Divides, SitesAt;
    DividedIsRead(runs, starts, 0, [], []);
    NotPassedAreFirst(runs, starts);
    var sites, undecided := SitesOf(runs, starts), SitesOf(runs, NotPassed(runs, starts));
    assert [] + sites == sites && [] + undecided == undecided;
    SitesOfAre(runs, starts, sites);
    SitesOfAre(runs, NotPassed(runs, starts), undecided);
    if explored.Sampled? || explored.Undecided? { SitesOfAre(runs, starts, explored.delayed); }
    if explored.Undecided? { SitesOfAre(runs, NotPassed(runs, starts), explored.undecided); }
  }
}

/**
 Auditing what is decided about faults (`xtask/src/faults.rs`): which recorded evidence supports which
 decision, and which target tells a survivor apart beside a fault.
 */
module Faults {
  import opened Names
  import opened Wrappers

  datatype Outcome = Survived | Killed | WaitedOn | StepLimitReached | OtherOutcome(name: string)

  /** Which execution it was: the one that asks a target, the one that asks again after a failure, or another. */
  datatype Role = First | Confirmation | OtherRole(name: string)

  datatype Exec = Exec(target: string, outcome: Outcome, role: Role)

  datatype Control = Control(target: string, passed: bool)

  /** How a target fared when run once more; the counts are there where its failures could be counted. */
  datatype Fate = Fate(target: string, outcome: Outcome, counted: Option<Counts>)

  datatype Counts = Counts(made: nat, read: nat, dropped: nat)

  datatype Decision =
    | Noticed | Unnoticed | Absorbed | Undecided | Unreached | NotPut | Waited
    | OtherDecision(name: string)

  /** What the run said a fault came to, and the target that noticed it where it names one. */
  datatype Site = Site(decision: Decision, target: Option<string>)

  /** What is recorded of a fault, and so all a decision about it can rest on. */
  datatype Evidence = Evidence(execs: seq<Exec>, controls: seq<Control>, reaching: Option<seq<string>>,
      rejected: bool, fates: seq<Fate>)

  datatype Contradiction =
    | NoticedByNoOne
    | NoticedNotFirst(first: string)
    | NoticedWithoutFailure
    | NoticedUnpassed
    | NoticedUnrepeated
    | NothingRan
    | NotAllPassed
    | UnnoticedUnasked(target: string)
    | AbsorbedUnborne(target: string)
    | UnnoticedThoughAbsorbed
    | UndecidedThoughPassed
    | RanThough
    | UnreachedWithoutRoute
    | NotPutWithoutRefusal
    | WaitedWithoutBound
    | UnknownDecision

  // ---------------------------------------------------------------- the first of some names

  function Inserted(names: seq<string>, name: string): seq<string> {
    if names == [] || !Less(name, names[|names| - 1]) then names + [name]
    else Inserted(names[..|names| - 1], name) + [names[|names| - 1]]
  }

  function Sorted(names: seq<string>): seq<string> {
    if names == [] then [] else Inserted(Sorted(names[..|names| - 1]), names[|names| - 1])
  }

  /** The first name, of names in order, for which `wanted` holds. */
  function Found(names: seq<string>, wanted: string -> bool): Option<string> {
    if names == [] then None else if wanted(names[0]) then Some(names[0]) else Found(names[1..], wanted)
  }

  ghost predicate InNameOrder(names: seq<string>) {
    forall i, j :: 0 <= i < j < |names| ==> !Less(names[j], names[i])
  }

  lemma {:induction false} InsertedInOrder(names: seq<string>, name: string)
    requires InNameOrder(names)
    ensures InNameOrder(Inserted(names, name))
    ensures forall one :: one in Inserted(names, name) <==> one in names || one == name
  {
    hide Less;
    if names != [] {
      var init, last := names[..|names| - 1], names[|names| - 1];
      assert names == init + [last];
      if Less(name, last) {
        InsertedInOrder(init, name);
        LessIsTotal(name, last);
        forall one | one in Inserted(init, name) ensures !Less(last, one) {
          if one in init {
            var i :| 0 <= i < |init| && init[i] == one;
            assert !Less(names[|names| - 1], names[i]);
          }
        }
      } else {
        forall i | 0 <= i < |names| ensures !Less(name, names[i]) {
          if i < |names| - 1 { NotLessIsTransitive(names[i], last, name); }
        }
      }
    }
  }

  lemma {:induction false} SortedInOrder(names: seq<string>)
    ensures InNameOrder(Sorted(names))
    ensures forall one :: one in Sorted(names) <==> one in names
  {
    hide Less;
    if names != [] {
      var init := names[..|names| - 1];
      SortedInOrder(init);
      InsertedInOrder(Sorted(init), names[|names| - 1]);
      assert names == init + [names[|names| - 1]];
    }
  }

  lemma {:induction false} FoundIsFirst(names: seq<string>, wanted: string -> bool)
    requires InNameOrder(names)
    ensures match Found(names, wanted)
            case None => forall one | one in names :: !wanted(one)
            case Some(first) =>
              first in names && wanted(first) && forall one | one in names && wanted(one) :: !Less(one, first)
  {
    hide Less;
    if names != [] {
      FoundIsFirst(names[1..], wanted);
      assert names == [names[0]] + names[1..];
      if wanted(names[0]) {
        forall one | one in names && wanted(one) ensures !Less(one, names[0]) {
          var i :| 0 <= i < |names| && names[i] == one;
          if i == 0 { LessIsTotal(one, one); }
        }
      }
    }
  }

  /** The least name of a list for which `wanted` holds, whatever order the list is in. */
  lemma LeastIsFound(names: seq<string>, wanted: string -> bool)
    ensures match Found(Sorted(names), wanted)
            case None => forall one | one in names :: !wanted(one)
            case Some(first) =>
              first in names && wanted(first) && forall one | one in names && wanted(one) :: !Less(one, first)
  {
    SortedInOrder(names);
    FoundIsFirst(Sorted(names), wanted);
  }

  // ---------------------------------------------------------------- what the evidence says

  /** The target passed although the call failed in it, and it let every failure go without looking. */
  predicate Absorbing(fate: Fate) {
    fate.outcome == Survived && fate.counted.Some?
    && fate.counted.value.made > 0 && fate.counted.value.read == 0
    && fate.counted.value.dropped == fate.counted.value.made
  }

  predicate AskedOn(evidence: Evidence, target: string) {
    exists i :: 0 <= i < |evidence.execs| && evidence.execs[i].role == First && evidence.execs[i].target == target
  }

  predicate FailedAs(evidence: Evidence, target: string, role: Role) {
    Exec(target, Killed, role) in evidence.execs
  }

  predicate PassedUnchanged(evidence: Evidence, target: string) {
    Control(target, true) in evidence.controls
  }

  /** `target` tells the faulty program from the unchanged one, and does so twice. */
  predicate NoticedOn(evidence: Evidence, target: string) {
    FailedAs(evidence, target, First) && PassedUnchanged(evidence, target) && FailedAs(evidence, target, Confirmation)
  }

  predicate BorneOutOn(evidence: Evidence, target: string) {
    exists i :: 0 <= i < |evidence.fates| && evidence.fates[i].target == target && Absorbing(evidence.fates[i])
  }

  /** The least target of a known route that was never run under the fault. */
  function Unasked(evidence: Evidence): Option<string> {
    if evidence.reaching.None? then None
    else Found(Sorted(evidence.reaching.value), target => !AskedOn(evidence, target))
  }

  function OnlyBefore(names: seq<string>, who: string): seq<string> {
    if names == [] then []
    else
      OnlyBefore(names[..|names| - 1], who)
      + if Less(names[|names| - 1], who) then [names[|names| - 1]] else []
  }

  /** The least target of the route, among those before `who`, that noticed or was passed over. */
  function Before(evidence: Evidence, who: string): Option<string> {
    if evidence.reaching.None? then None
    else Found(Sorted(OnlyBefore(evidence.reaching.value, who)),
        target => !AskedOn(evidence, target) || NoticedOn(evidence, target))
  }

  /**
   The least target of the route without an absorbing fate; with no route, or an empty one, a name that is
   no target's.
   */
  function Unborne(evidence: Evidence): Option<string> {
    if evidence.reaching.None? || evidence.reaching.value == [] then Some("")
    else Found(Sorted(evidence.reaching.value), target => !BorneOutOn(evidence, target))
  }

  predicate Ran(evidence: Evidence) {
    exists i :: 0 <= i < |evidence.execs| && evidence.execs[i].role == First
  }

  /** An execution that asked a target did not pass. */
  predicate SomeFailed(evidence: Evidence) {
    exists i :: 0 <= i < |evidence.execs| && evidence.execs[i].role == First && evidence.execs[i].outcome != Survived
  }

  predicate Bounded(evidence: Evidence) {
    exists i :: 0 <= i < |evidence.execs| && evidence.execs[i].role == First
        && evidence.execs[i].outcome in {WaitedOn, StepLimitReached}
  }

  /** What the evidence contradicts about a decision that every reaching test passed. */
  function PassedContradiction(decision: Decision, evidence: Evidence): Option<Contradiction> {
    if !Ran(evidence) then Some(NothingRan)
    else if SomeFailed(evidence) then Some(NotAllPassed)
    else if Unasked(evidence).Some? then Some(UnnoticedUnasked(Unasked(evidence).value))
    else if decision == Absorbed then
      if Unborne(evidence).Some? then Some(AbsorbedUnborne(Unborne(evidence).value)) else None
    else if Unborne(evidence).None? then Some(UnnoticedThoughAbsorbed)
    else None
  }

  /** What the evidence contradicts about a decision that `who` noticed the fault. */
  function NoticedContradiction(who: string, evidence: Evidence): Option<Contradiction> {
    if Before(evidence, who).Some? then Some(NoticedNotFirst(Before(evidence, who).value))
    else if !FailedAs(evidence, who, First) then Some(NoticedWithoutFailure)
    else if !PassedUnchanged(evidence, who) then Some(NoticedUnpassed)
    else if !FailedAs(evidence, who, Confirmation) then Some(NoticedUnrepeated)
    else None
  }

  /** The first thing in the evidence that speaks against the decision at a site, if any does. */
  function Contradicted(site: Site, evidence: Evidence): Option<Contradiction> {
    match site.decision
    case Noticed => if site.target.None? then Some(NoticedByNoOne)
        else NoticedContradiction(site.target.value, evidence)
    case Unnoticed => PassedContradiction(Unnoticed, evidence)
    case Absorbed => PassedContradiction(Absorbed, evidence)
    case Undecided => if Ran(evidence) && !SomeFailed(evidence) then Some(UndecidedThoughPassed) else None
    case Unreached =>
      if evidence.execs != [] then Some(RanThough)
      else if evidence.reaching.None? || evidence.reaching.value != [] then Some(UnreachedWithoutRoute)
      else None
    case NotPut => if evidence.execs != [] then Some(RanThough)
        else if !evidence.rejected then Some(NotPutWithoutRefusal) else None
    case Waited => if !Bounded(evidence) then Some(WaitedWithoutBound) else None
    case OtherDecision(_) => Some(UnknownDecision)
  }

  predicate Supports(site: Site, evidence: Evidence) {
    Contradicted(site, evidence) == None
  }

  // ---------------------------------------------------------------- what support means

  ghost predicate Reaches(evidence: Evidence, target: string) {
    evidence.reaching.Some? && target in evidence.reaching.value
  }

  /** Some execution asked the target. */
  ghost predicate WasAsked(evidence: Evidence, target: string) {
    exists outcome :: Exec(target, outcome, First) in evidence.execs
  }

  /** The target failed when asked and when asked again, and passed with nothing wrong. */
  ghost predicate TellsTwice(evidence: Evidence, target: string) {
    && Exec(target, Killed, First) in evidence.execs && Exec(target, Killed, Confirmation) in evidence.execs
    && Control(target, true) in evidence.controls
  }

  /** A run of the target passed, made some failures, read none of them and dropped as many. */
  ghost predicate LetGo(evidence: Evidence, target: string) {
    exists made: nat :: made != 0 && Fate(target, Survived, Some(Counts(made, 0, made))) in evidence.fates
  }

  ghost predicate SomeAsked(evidence: Evidence) {
    exists exec :: exec in evidence.execs && exec.role == First
  }

  ghost predicate AllAskedPassed(evidence: Evidence) {
    forall exec | exec in evidence.execs && exec.role == First :: exec.outcome == Survived
  }

  /** The evidence as the code looks it up is the evidence there is. */
  lemma LookedUp(evidence: Evidence, target: string)
    ensures AskedOn(evidence, target) <==> WasAsked(evidence, target)
    ensures NoticedOn(evidence, target) <==> TellsTwice(evidence, target)
    ensures BorneOutOn(evidence, target) <==> LetGo(evidence, target)
    ensures Ran(evidence) <==> SomeAsked(evidence)
    ensures SomeFailed(evidence) <==> !AllAskedPassed(evidence)
  {
    if AskedOn(evidence, target) {
      var i :| 0 <= i < |evidence.execs| && evidence.execs[i].role == First && evidence.execs[i].target == target;
      assert evidence.execs[i] == Exec(target, evidence.execs[i].outcome, First);
    }
    if BorneOutOn(evidence, target) {
      var i :| 0 <= i < |evidence.fates| && evidence.fates[i].target == target && Absorbing(evidence.fates[i]);
      var made := evidence.fates[i].counted.value.made;
      assert evidence.fates[i] == Fate(target, Survived, Some(Counts(made, 0, made)));
    }
    if made: nat :| made != 0 && Fate(target, Survived, Some(Counts(made, 0, made))) in evidence.fates {
      var i :| 0 <= i < |evidence.fates| && evidence.fates[i] == Fate(target, Survived, Some(Counts(made, 0, made)));
      assert Absorbing(evidence.fates[i]);
    }
  }

  /** `who` noticed, and every target known to reach the fault before it was asked and did not. */
  ghost predicate FirstToNotice(evidence: Evidence, who: string) {
    TellsTwice(evidence, who) &&
    forall target | Reaches(evidence, target) && Less(target, who) ::
        WasAsked(evidence, target) && !TellsTwice(evidence, target)
  }

  /** Every target known to reach the fault was asked, and every one asked passed. */
  ghost predicate EveryTestPassed(evidence: Evidence) {
    && SomeAsked(evidence) && AllAskedPassed(evidence)
    && forall target | Reaches(evidence, target) :: WasAsked(evidence, target)
  }

  /** The route is known and not empty, and each of its targets has an absorbing fate. */
  ghost predicate AbsorbedEverywhere(evidence: Evidence) {
    && (exists target :: Reaches(evidence, target))
    && forall target | Reaches(evidence, target) :: LetGo(evidence, target)
  }

  lemma {:induction false} OnlyBeforeHolds(names: seq<string>, who: string)
    ensures forall name :: name in OnlyBefore(names, who) <==> name in names && Less(name, who)
  {
    hide Less;
    if names != [] {
      OnlyBeforeHolds(names[..|names| - 1], who);
      assert names == names[..|names| - 1] + [names[|names| - 1]];
    }
  }

  /**
   Noticing is supported for just those targets that noticed while each earlier one of the route was asked
   and did not.
   */
  lemma NoticedMeans(evidence: Evidence, who: string)
    ensures Supports(Site(Noticed, Some(who)), evidence) <==> FirstToNotice(evidence, who)
  {
    hide Less, Sorted, Found, OnlyBefore, WasAsked, AskedOn, TellsTwice;
    forall target ensures AskedOn(evidence, target) <==> WasAsked(evidence, target)
      ensures NoticedOn(evidence, target) <==> TellsTwice(evidence, target)
    {
      LookedUp(evidence, target);
    }
    if evidence.reaching.Some? {
      OnlyBeforeHolds(evidence.reaching.value, who);
      LeastIsFound(OnlyBefore(evidence.reaching.value, who),
          target => !AskedOn(evidence, target) || NoticedOn(evidence, target));
    }
  }

  /**
   Unnoticed and absorbed are supported exactly where every test passed, and split on whether the failure
   went nowhere on every target.
   */
  lemma PassedMeans(evidence: Evidence, who: Option<string>)
    ensures Supports(Site(Absorbed, who), evidence) <==> EveryTestPassed(evidence) && AbsorbedEverywhere(evidence)
    ensures Supports(Site(Unnoticed, who), evidence) <==> EveryTestPassed(evidence) && !AbsorbedEverywhere(evidence)
  {
    hide Less, Sorted, Found, WasAsked, AskedOn, LetGo, BorneOutOn, Ran, SomeFailed, SomeAsked, AllAskedPassed;
    LookedUp(evidence, "");
    forall target ensures AskedOn(evidence, target) <==> WasAsked(evidence, target)
      ensures BorneOutOn(evidence, target) <==> LetGo(evidence, target)
    {
      LookedUp(evidence, target);
    }
    if evidence.reaching.Some? {
      LeastIsFound(evidence.reaching.value, target => !AskedOn(evidence, target));
      LeastIsFound(evidence.reaching.value, target => !BorneOutOn(evidence, target));
      if evidence.reaching.value != [] { assert Reaches(evidence, evidence.reaching.value[0]); }
    }
  }

  /**
   The other decisions: undecided unless all that were asked passed, unreached and not-put where nothing
   ran, waited where a bound stopped one.
   */
  lemma OthersMean(evidence: Evidence, who: Option<string>)
    ensures Supports(Site(Undecided, who), evidence) <==> !SomeAsked(evidence) || !AllAskedPassed(evidence)
    ensures Supports(Site(Unreached, who), evidence) <==> |evidence.execs| == 0 && evidence.reaching == Some([])
    ensures Supports(Site(NotPut, who), evidence) <==> |evidence.execs| == 0 && evidence.rejected
    ensures Supports(Site(Waited, who), evidence) <==>
            exists target: string :: Exec(target, WaitedOn, First) in evidence.execs
                                     || Exec(target, StepLimitReached, First) in evidence.execs
    ensures !Supports(Site(Noticed, None), evidence)
    ensures forall name :: !Supports(Site(OtherDecision(name), who), evidence)
  {
    LookedUp(evidence, "");
    if Bounded(evidence) {
      var i :| 0 <= i < |evidence.execs| && evidence.execs[i].role == First
               && evidence.execs[i].outcome in {WaitedOn, StepLimitReached};
      assert evidence.execs[i] == Exec(evidence.execs[i].target, evidence.execs[i].outcome, First);
      assert Exec(evidence.execs[i].target, WaitedOn, First) in evidence.execs
             || Exec(evidence.execs[i].target, StepLimitReached, First) in evidence.execs;
    }
  }

  /** What a contradiction says of the evidence, and of the site it was found in. */
  ghost predicate Says(contradiction: Contradiction, site: Site, evidence: Evidence) {
    var who := if site.target.Some? then site.target.value else "";
    var noticing := site.decision == Noticed && site.target.Some?;
    var passing := site.decision == Unnoticed || site.decision == Absorbed;
    match contradiction
    case NoticedByNoOne => site.decision == Noticed && site.target.None?
    case NoticedNotFirst(first) =>
      && noticing && Reaches(evidence, first) && Less(first, who)
      && (!WasAsked(evidence, first) || TellsTwice(evidence, first))
      && forall other | Reaches(evidence, other) && Less(other, who) && Less(other, first) ::
           WasAsked(evidence, other) && !TellsTwice(evidence, other)
    case NoticedWithoutFailure => noticing && Exec(who, Killed, First) !in evidence.execs
    case NoticedUnpassed =>
      noticing && Exec(who, Killed, First) in evidence.execs && Control(who, true) !in evidence.controls
    case NoticedUnrepeated =>
      && noticing && Exec(who, Killed, First) in evidence.execs && Control(who, true) in evidence.controls
      && Exec(who, Killed, Confirmation) !in evidence.execs
    case NothingRan => passing && !SomeAsked(evidence)
    case NotAllPassed => passing && !AllAskedPassed(evidence)
    case UnnoticedUnasked(target) =>
      && passing && AllAskedPassed(evidence) && Reaches(evidence, target) && !WasAsked(evidence, target)
      && forall other | Reaches(evidence, other) && Less(other, target) :: WasAsked(evidence, other)
    case AbsorbedUnborne(target) =>
      && site.decision == Absorbed
      && if evidence.reaching == None || evidence.reaching == Some([]) then target == ""
         else
           && Reaches(evidence, target) && !LetGo(evidence, target)
           && forall other | Reaches(evidence, other) && Less(other, target) :: LetGo(evidence, other)
    case UnnoticedThoughAbsorbed => site.decision == Unnoticed && AbsorbedEverywhere(evidence)
    case UndecidedThoughPassed => site.decision == Undecided && SomeAsked(evidence) && AllAskedPassed(evidence)
    case RanThough => (site.decision == Unreached || site.decision == NotPut) && |evidence.execs| > 0
    case UnreachedWithoutRoute => site.decision == Unreached && evidence.reaching != Some([])
    case NotPutWithoutRefusal => site.decision == NotPut && !evidence.rejected
    case WaitedWithoutBound =>
      && site.decision == Waited
      && forall exec | exec in evidence.execs && exec.role == First ::
           exec.outcome != WaitedOn && exec.outcome != StepLimitReached
    case UnknownDecision => site.decision.OtherDecision?
  }

  /** A contradiction is only ever given where it is so, and names the first target it is so of. */
  lemma ContradictionIsSo(site: Site, evidence: Evidence)
    ensures Contradicted(site, evidence).Some? ==> Says(Contradicted(site, evidence).value, site, evidence)
  {
    hide Less, Sorted, Found, OnlyBefore, WasAsked, AskedOn, TellsTwice, NoticedOn, LetGo, BorneOutOn, Ran, SomeFailed,
        SomeAsked, AllAskedPassed;
    LookedUp(evidence, "");
    forall target ensures AskedOn(evidence, target) <==> WasAsked(evidence, target)
      ensures NoticedOn(evidence, target) <==> TellsTwice(evidence, target)
      ensures BorneOutOn(evidence, target) <==> LetGo(evidence, target)
    {
      LookedUp(evidence, target);
    }
    if evidence.reaching.Some? {
      LeastIsFound(evidence.reaching.value, target => !AskedOn(evidence, target));
      LeastIsFound(evidence.reaching.value, target => !BorneOutOn(evidence, target));
      if site.target.Some? {
        OnlyBeforeHolds(evidence.reaching.value, site.target.value);
        LeastIsFound(OnlyBefore(evidence.reaching.value, site.target.value),
            target => !AskedOn(evidence, target) || NoticedOn(evidence, target));
      }
      if evidence.reaching.value != [] { assert Reaches(evidence, evidence.reaching.value[0]); }
    }
  }

  /**
   For any evidence: unnoticed and absorbed exclude each other, noticed excludes both and everything that
   says the fault never ran, and so does every decision that something ran.
   */
  lemma DecisionsExclude(evidence: Evidence, one: Site, other: Site)
    requires Supports(one, evidence) && Supports(other, evidence)
    ensures one.decision == Noticed ==> other.decision !in {Unnoticed, Absorbed, Unreached, NotPut}
    ensures one.decision == Unnoticed ==> other.decision !in {Absorbed, Undecided, Unreached, NotPut, Waited}
    ensures one.decision == Absorbed ==> other.decision !in {Undecided, Unreached, NotPut, Waited}
    ensures one.decision == Waited ==> other.decision !in {Unreached, NotPut}
  {
  }

  /**
   Decisions no evidence tells apart: those of a fault something failed under, those of one nothing was put
   to, and each that says every test passed.
   */
  ghost predicate ShareEvidence(one: Decision, other: Decision) {
    || {one, other} <= {Noticed, Undecided, Waited}
    || {one, other} <= {Undecided, Unreached, NotPut}
    || (one == other && one in {Unnoticed, Absorbed})
  }

  ghost predicate SupportsBoth(evidence: Evidence, one: Site, other: Site) {
    Supports(one, evidence) && Supports(other, evidence)
  }

  /** A fault that one target failed under twice, passing between, and that a bound stopped on another. */
  const FAILED := Evidence([Exec("a", Killed, First), Exec("a", Killed, Confirmation), Exec("b", WaitedOn, First)],
      [Control("a", true)], None, false, [])

  /** A fault nothing reaches and the compiler refused. */
  const NEVER_PUT := Evidence([], [], Some([]), true, [])

  /** A fault its one target passed under. */
  const PASSED := Evidence([Exec("a", Survived, First)], [], Some(["a"]), false, [])

  /** A fault its one target passed under, dropping the failure unread. */
  const DROPPED := Evidence([Exec("a", Survived, First)], [], Some(["a"]), false,
      [Fate("a", Survived, Some(Counts(1, 0, 1)))])

  lemma FailedSupports(decision: Decision)
    requires decision in {Noticed, Undecided, Waited}
    ensures Supports(Site(decision, Some("a")), FAILED)
  {
    assert FAILED.execs[0] == Exec("a", Killed, First) && FAILED.execs[1] == Exec("a", Killed, Confirmation)
           && FAILED.execs[2].outcome == WaitedOn;
    assert FAILED.controls[0] == Control("a", true);
  }

  lemma NeverPutSupports(decision: Decision)
    requires decision in {Undecided, Unreached, NotPut}
    ensures Supports(Site(decision, Some("a")), NEVER_PUT)
  {
  }

  lemma PassingSupports()
    ensures Supports(Site(Unnoticed, Some("a")), PASSED) && Supports(Site(Absorbed, Some("a")), DROPPED)
  {
    hide Sorted, Found;
    assert PASSED.execs[0] == Exec("a", Survived, First) && DROPPED.execs[0] == Exec("a", Survived, First);
    assert DROPPED.fates[0].target == "a" && Absorbing(DROPPED.fates[0]);
    assert DROPPED.reaching.value[0] == "a" && PASSED.reaching.value[0] == "a";
    assert Reaches(DROPPED, "a") && Reaches(PASSED, "a");
    PassedMeans(PASSED, Some("a"));
    PassedMeans(DROPPED, Some("a"));
  }

  /** Evidence that supports each of two decisions of one family. */
  lemma FamilyIsSupported(one: Decision, other: Decision) returns (evidence: Evidence)
    requires ShareEvidence(one, other)
    ensures SupportsBoth(evidence, Site(one, Some("a")), Site(other, Some("a")))
  {
    hide Supports;
    PassingSupports();
    if one == Unnoticed {
      evidence := PASSED;
    } else if one == Absorbed {
      evidence := DROPPED;
    } else if {one, other} <= {Noticed, Undecided, Waited} {
      evidence := FAILED;
      FailedSupports(one);
      FailedSupports(other);
    } else {
      evidence := NEVER_PUT;
      NeverPutSupports(one);
      NeverPutSupports(other);
    }
  }

  /**
   Two decisions can both be supported by some evidence exactly where they are of one family, so evidence
   that supports a decision rules out every one outside its families.
   */
  lemma DecisionsExcludeExactly(one: Decision, other: Decision)
    requires !one.OtherDecision? && !other.OtherDecision?
    ensures ShareEvidence(one, other) <==>
              exists evidence, who, whoElse :: SupportsBoth(evidence, Site(one, who), Site(other, whoElse))
  {
    hide Supports;
    if evidence, who, whoElse :| SupportsBoth(evidence, Site(one, who), Site(other, whoElse)) {
      DecisionsExclude(evidence, Site(one, who), Site(other, whoElse));
      DecisionsExclude(evidence, Site(other, whoElse), Site(one, who));
    }
    if ShareEvidence(one, other) {
      var evidence := FamilyIsSupported(one, other);
    }
  }

  /**
   Two targets can both be named as noticing exactly where the earlier one is not known to reach the
   fault, both noticed, and every target known to reach it before the later one was asked and did not.
   */
  lemma TwoTargetsAreNamed(evidence: Evidence, who: string, other: string)
    requires Less(who, other)
    ensures Supports(Site(Noticed, Some(who)), evidence) && Supports(Site(Noticed, Some(other)), evidence) <==>
              && !Reaches(evidence, who) && TellsTwice(evidence, who) && TellsTwice(evidence, other)
              && forall target | Reaches(evidence, target) && Less(target, other) ::
                  WasAsked(evidence, target) && !TellsTwice(evidence, target)
  {
    hide Less, TellsTwice, WasAsked, Supports;
    NoticedMeans(evidence, who);
    NoticedMeans(evidence, other);
    forall target | Less(target, who) ensures Less(target, other) { LessIsTransitive(target, who, other); }
  }

  /**
   Of two different targets that can be named, the earlier is never one known to reach the fault, whatever
   the later is; so no two that reach it can.
   */
  lemma OneTargetNotices(evidence: Evidence, who: string, other: string)
    requires Supports(Site(Noticed, Some(who)), evidence) && Supports(Site(Noticed, Some(other)), evidence)
    requires Reaches(evidence, who) && !Less(other, who)
    ensures who == other
  {
    hide Less, Supports, Reaches;
    LessIsTotal(who, other);
    if Less(who, other) {
      TwoTargetsAreNamed(evidence, who, other);
    }
  }

  /**
   Naming a reaching target is supported exactly where it is the least reaching target that noticed and
   every earlier one was asked.
   */
  lemma LeastNoticingIsNamed(evidence: Evidence, who: string)
    requires Reaches(evidence, who)
    ensures Supports(Site(Noticed, Some(who)), evidence) <==>
              && TellsTwice(evidence, who)
              && (forall target | Reaches(evidence, target) && TellsTwice(evidence, target) ::
                  target == who || Less(who, target))
              && (forall target | Reaches(evidence, target) && Less(target, who) :: WasAsked(evidence, target))
  {
    hide Less;
    NoticedMeans(evidence, who);
    forall target | Reaches(evidence, target) ensures Less(target, who) || target == who || Less(who, target) {
      LessIsTotal(target, who);
    }
    forall target | Reaches(evidence, target) ensures !(Less(target, who) && (target == who || Less(who, target))) {
      LessIsTotal(target, who);
    }
  }

  /**
   A target that is not among those the route holds may be named beside one that is: the check looks only
   at the route's targets before it.
   */
  lemma TargetOffTheRouteCanBeNamed() returns (evidence: Evidence)
    ensures Supports(Site(Noticed, Some("a")), evidence) && Supports(Site(Noticed, Some("b")), evidence)
    ensures Reaches(evidence, "b") && !Reaches(evidence, "a")
  {
    evidence := Evidence([Exec("a", Killed, First), Exec("a", Killed, Confirmation), Exec("b", Killed, First),
        Exec("b", Killed, Confirmation)],
                         [Control("a", true), Control("b", true)], Some(["b"]), false, []);
    assert evidence.execs[0] == Exec("a", Killed, First) && evidence.execs[1] == Exec("a", Killed, Confirmation);
    assert evidence.execs[2] == Exec("b", Killed, First) && evidence.execs[3] == Exec("b", Killed, Confirmation);
    assert evidence.controls[0] == Control("a", true) && evidence.controls[1] == Control("b", true);
    NotBeforeItself("b");
    assert !Less("b", "a");
    NoticedMeans(evidence, "a");
    NoticedMeans(evidence, "b");
  }

  // ---------------------------------------------------------------- evidence beside a fault

  /** A target run twice: under the fault, and under it with a survivor too. */
  datatype Pair = Pair(target: string, alone: Outcome, with: Outcome)

  /** The one of the two that failed. */
  datatype Failing = BesideIt | AloneIt

  /** The failing one of a pair with one failure and one pass. */
  function Told(pair: Pair): Option<Failing> {
    if pair.alone == Survived && pair.with == Killed then Some(BesideIt)
    else if pair.alone == Killed && pair.with == Survived then Some(AloneIt)
    else None
  }

  function RunsOf(pairs: seq<Pair>, target: string): seq<Pair> {
    if pairs == [] then []
    else RunsOf(pairs[..|pairs| - 1], target) + if pairs[|pairs| - 1].target == target then [pairs[|pairs| - 1]] else []
  }

  /** What the pairs of one target say, where every one, and at least two, say the same run failed. */
  function Said(pairs: seq<Pair>, target: string): Option<Failing> {
    var runs := RunsOf(pairs, target);
    if runs == [] || Told(runs[0]).None? then None
    else if |runs| >= 2 && forall i :: 0 <= i < |runs| ==> Told(runs[i]) == Told(runs[0]) then Told(runs[0])
    else None
  }

  /** The least target whose pairs all say one thing, and what they say. */
  function Derived(pairs: seq<Pair>): Option<(string, Failing)> {
    var targets := seq(|pairs|, i requires 0 <= i < |pairs| => pairs[i].target);
    match Found(Sorted(targets), target => Said(pairs, target).Some?)
    case None => None
    case Some(target) => if Said(pairs, target).Some? then Some((target, Said(pairs, target).value)) else None
  }

  ghost predicate Twice(pairs: seq<Pair>, target: string) {
    exists i, j :: 0 <= i < j < |pairs| && pairs[i].target == target && pairs[j].target == target
  }

  /** Two pairs and more were put to `target`, and in every one exactly the same run failed. */
  ghost predicate TellsApart(pairs: seq<Pair>, target: string, failed: Failing) {
    && Twice(pairs, target)
    && forall pair | pair in pairs && pair.target == target ::
         if failed == BesideIt then pair.alone == Survived && pair.with == Killed
         else pair.alone == Killed && pair.with == Survived
  }

  lemma {:induction false} RunsOfAreThePairs(pairs: seq<Pair>, target: string)
    ensures forall pair :: pair in RunsOf(pairs, target) <==> pair in pairs && pair.target == target
    ensures RunsOf(pairs, target) != [] <==> exists i :: 0 <= i < |pairs| && pairs[i].target == target
  {
    if pairs != [] {
      var init, last := pairs[..|pairs| - 1], pairs[|pairs| - 1];
      RunsOfAreThePairs(init, target);
      assert pairs == init + [last];
      if i :| 0 <= i < |pairs| && pairs[i].target == target && i < |init| { assert init[i].target == target; }
      if i :| 0 <= i < |init| && init[i].target == target { assert pairs[i].target == target; }
    }
  }

  lemma TwiceOnceMore(pairs: seq<Pair>, last: Pair, target: string)
    ensures Twice(pairs + [last], target) <==>
            Twice(pairs, target) || (last.target == target && exists i :: 0 <= i < |pairs| && pairs[i].target == target)
  {
    var more := pairs + [last];
    if Twice(pairs, target) {
      var i, j :| 0 <= i < j < |pairs| && pairs[i].target == target && pairs[j].target == target;
      assert more[i].target == target && more[j].target == target;
    }
    if i :| 0 <= i < |pairs| && pairs[i].target == target && last.target == target {
      assert more[i].target == target && more[|pairs|].target == target;
    }
    if Twice(more, target) {
      var i, j :| 0 <= i < j < |more| && more[i].target == target && more[j].target == target;
      assert pairs[i].target == target;
    }
  }

  lemma {:induction false} TwoRunsMeanTwoPairs(pairs: seq<Pair>, target: string)
    ensures |RunsOf(pairs, target)| >= 2 <==> Twice(pairs, target)
  {
    if pairs != [] {
      var init, last := pairs[..|pairs| - 1], pairs[|pairs| - 1];
      assert pairs == init + [last];
      TwoRunsMeanTwoPairs(init, target);
      RunsOfAreThePairs(init, target);
      TwiceOnceMore(init, last, target);
    }
  }

  lemma SaidMeans(pairs: seq<Pair>, target: string, failed: Failing)
    ensures Said(pairs, target) == Some(failed) <==> TellsApart(pairs, target, failed)
  {
    hide RunsOf;
    var runs := RunsOf(pairs, target);
    RunsOfAreThePairs(pairs, target);
    TwoRunsMeanTwoPairs(pairs, target);
    if Said(pairs, target) == Some(failed) {
      forall pair | pair in pairs && pair.target == target ensures Told(pair) == Some(failed) {
        var i :| 0 <= i < |runs| && runs[i] == pair;
      }
    }
    if TellsApart(pairs, target, failed) {
      forall i | 0 <= i < |runs| ensures Told(runs[i]) == Some(failed) { assert runs[i] in pairs; }
    }
  }

  /** The evidence is a target's exactly where it tells the survivor apart and no target before it does. */
  lemma DerivedIsTheFirstToTellApart(pairs: seq<Pair>, target: string, failed: Failing)
    ensures Derived(pairs) == Some((target, failed)) <==>
            TellsApart(pairs, target, failed)
            && forall other, how: Failing | TellsApart(pairs, other, how) :: other == target || Less(target, other)
  {
    hide Less, Sorted, Found, Said, TellsApart;
    var targets := seq(|pairs|, i requires 0 <= i < |pairs| => pairs[i].target);
    LeastIsFound(targets, one => Said(pairs, one).Some?);
    forall other, how: Failing
      ensures Said(pairs, other) == Some(how) <==> TellsApart(pairs, other, how)
    {
      SaidMeans(pairs, other, how);
    }
    forall other, how: Failing | TellsApart(pairs, other, how)
      ensures other in targets
    {
      TellsOfATarget(pairs, other, how, targets);
    }
    forall one, other ensures Less(one, other) || Less(other, one) || one == other
      ensures !(Less(one, other) && Less(other, one)) && !Less(one, one)
    {
      LessIsTotal(one, other);
    }
  }

  lemma TellsOfATarget(pairs: seq<Pair>, target: string, failed: Failing, targets: seq<string>)
    requires TellsApart(pairs, target, failed)
    requires |targets| == |pairs| && forall i | 0 <= i < |pairs| :: targets[i] == pairs[i].target
    ensures target in targets
  {
  }
}

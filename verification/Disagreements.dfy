/**
 Holding a report's crash sites to a recording (`xtask/src/crashes.rs`): steps are grouped by crash,
 groups are decided in the order they were opened, and once a stop has stained the tree every later
 group is decided in its knowledge.
 */
module Disagreements {
  import opened Crashes
  import opened Wrappers

  /** One line of the recording. */
  datatype Entry = Entry(crash: string, step: Step)

  /** The steps of one crash. */
  datatype Group = Group(crash: string, steps: seq<Step>)

  datatype Reason = Twice | NotMade | Unreported | Contradicted | Unrecorded

  /** A crash the report and the recording disagree about. */
  datatype Finding = Finding(crash: string, reason: Reason)

  // ---------------------------------------------------------------- grouping

  /** The crashes of a recording, in the order they first appear. */
  function Order(entries: seq<Entry>): seq<string> {
    if entries == [] then []
    else
      var before, last := Order(entries[..|entries| - 1]), entries[|entries| - 1].crash;
      if last in before then before else before + [last]
  }

  /** The steps of one crash, in recording order. */
  function Of(entries: seq<Entry>, crash: string): seq<Step> {
    if entries == [] then []
    else
      var before, last := Of(entries[..|entries| - 1], crash), entries[|entries| - 1];
      if last.crash == crash then before + [last.step] else before
  }

  function GroupsOf(entries: seq<Entry>): seq<Group> {
    var order := Order(entries);
    seq(|order|, i requires 0 <= i < |order| => Group(order[i], Of(entries, order[i])))
  }

  ghost predicate Distinct(names: seq<string>) {
    forall i, j :: 0 <= i < j < |names| ==> names[i] != names[j]
  }

  lemma {:induction false} OrderIsDistinct(entries: seq<Entry>)
    ensures Distinct(Order(entries))
    ensures forall crash :: crash in Order(entries) <==> exists i :: 0 <= i < |entries| && entries[i].crash == crash
  {
    if entries != [] {
      var before := entries[..|entries| - 1];
      OrderIsDistinct(before);
      forall crash ensures crash in Order(entries) <==> exists i :: 0 <= i < |entries| && entries[i].crash == crash {
        if i :| 0 <= i < |entries| && entries[i].crash == crash {
          if i < |before| { assert before[i].crash == crash; } else { assert crash in Order(entries); }
        }
        if crash in Order(before) {
          var i :| 0 <= i < |before| && before[i].crash == crash;
          assert entries[i].crash == crash;
        } else if crash in Order(entries) {
          assert entries[|before|].crash == crash;
        }
      }
    }
  }

  lemma {:induction false} NoStepsUnlessListed(entries: seq<Entry>, crash: string)
    requires crash !in Order(entries)
    ensures Of(entries, crash) == []
  {
    if entries != [] {
      NoStepsUnlessListed(entries[..|entries| - 1], crash);
    }
  }

  /** One more step goes to the group of its crash, or opens one. */
  lemma OneMoreStep(entries: seq<Entry>, entry: Entry)
    ensures var before, now := Order(entries), Order(entries + [entry]);
            now == if entry.crash in before then before else before + [entry.crash]
    ensures forall crash :: Of(entries + [entry], crash) == if crash == entry.crash
            then Of(entries, crash) + [entry.step] else Of(entries, crash)
    ensures entry.crash !in Order(entries) ==> Of(entries, entry.crash) == []
  {
  }

  /** Every step put to the group of its crash, a new group opened where there is none. */
  method Grouped(entries: seq<Entry>) returns (groups: seq<Group>)
    ensures groups == GroupsOf(entries)
  {
    hide Order, Of;
    groups := [];
    assert GroupsOf([]) == [] by { NothingGrouped(); }
    for i := 0 to |entries|
      invariant groups == GroupsOf(entries[..i])
    {
      var entry := entries[i];
      ghost var before := entries[..i];
      assert entries[..i + 1] == before + [entry];
      OneMoreStep(before, entry);
      OrderIsDistinct(before);
      var g := 0;
      while g < |groups| && groups[g].crash != entry.crash
        invariant g <= |groups|
        invariant forall k | 0 <= k < g :: Order(before)[k] != entry.crash
      {
        g := g + 1;
      }
      if g < |groups| {
        assert Order(before)[g] == entry.crash;
        groups := groups[g := groups[g].(steps := groups[g].steps + [entry.step])];
        forall k | 0 <= k < |groups| ensures groups[k] == GroupsOf(before + [entry])[k] {
          assert k != g ==> Order(before)[k] != Order(before)[g];
        }
      } else {
        assert entry.crash !in Order(before);
        groups := groups + [Group(entry.crash, [entry.step])];
        forall k | 0 <= k < |groups| ensures groups[k] == GroupsOf(before + [entry])[k] {
          assert k < g ==> Order(before)[k] != entry.crash;
          assert Of(before + [entry], entry.crash) == [] + [entry.step];
        }
      }
    }
    assert entries[..|entries|] == entries;
  }

  lemma NothingGrouped()
    ensures GroupsOf([]) == []
  {
  }

  // ---------------------------------------------------------------- deciding each group

  /** Whether a stop of a crash before the `i`th wrote into the tree. */
  function StainedBefore(groups: seq<Group>, i: nat): bool
    requires i <= |groups|
    decreases i, 0
  {
    i > 0
    && (StainedBefore(groups, i - 1) || (DecisionAt(groups, i - 1).Ok? && DecisionAt(groups, i - 1).value.outside))
  }

  /** What the steps of the `i`th crash decide, in its turn. */
  function DecisionAt(groups: seq<Group>, i: nat): Result<Decided, Unmade>
    requires i < |groups|
    decreases i, 1
  {
    Decide(groups[i].crash, groups[i].steps, StainedBefore(groups, i))
  }

  /** The site a report holds for each crash, the last where it holds more than one. */
  function Sites(reported: seq<Site>): map<string, Site> {
    if reported == [] then map[]
    else Sites(reported[..|reported| - 1])[reported[|reported| - 1].crash := reported[|reported| - 1]]
  }

  /** What keeps the report from holding exactly the decision of the `i`th crash. */
  function ReasonAt(sites: map<string, Site>, groups: seq<Group>, i: nat): Option<Reason>
    requires i < |groups|
  {
    match DecisionAt(groups, i)
    case Err(_) => Some(NotMade)
    case Ok(decided) =>
      if groups[i].crash !in sites then Some(Unreported)
      else if sites[groups[i].crash] != decided.site then Some(Contradicted)
      else None
  }

  ghost predicate HeldTwice(reported: seq<Site>, crash: string) {
    exists i, j :: 0 <= i < j < |reported| && reported[i].crash == crash && reported[j].crash == crash
  }

  /** One of the first `upto` crashes is not held as decided, for the finding's reason. */
  ghost predicate Differs(sites: map<string, Site>, groups: seq<Group>, upto: nat, finding: Finding)
    requires upto <= |groups|
  {
    exists i :: 0 <= i < upto && groups[i].crash == finding.crash && ReasonAt(sites, groups, i) == Some(finding.reason)
  }

  /** One of the first `upto` crashes is `crash`, and is decided. */
  ghost predicate DecidedBefore(groups: seq<Group>, upto: nat, crash: string)
    requires upto <= |groups|
  {
    exists i :: 0 <= i < upto && groups[i].crash == crash && DecisionAt(groups, i).Ok?
  }

  /** What keeps a report and a recording from agreeing, by crash and reason. */
  ghost predicate Disputed(reported: seq<Site>, groups: seq<Group>, finding: Finding) {
    match finding.reason
    case Twice => HeldTwice(reported, finding.crash)
    case Unrecorded => finding.crash in Sites(reported) && !DecidedBefore(groups, |groups|, finding.crash)
    case _ => Differs(Sites(reported), groups, |groups|, finding)
  }

  lemma {:induction false} SitesHold(reported: seq<Site>)
    ensures forall crash :: crash in Sites(reported) <==> exists i :: 0 <= i < |reported| && reported[i].crash == crash
    ensures forall crash | crash in Sites(reported) ::
            Sites(reported)[crash] in reported && Sites(reported)[crash].crash == crash
  {
    if reported != [] {
      var before, last := reported[..|reported| - 1], reported[|reported| - 1];
      SitesHold(before);
      forall crash ensures crash in Sites(reported) <==> exists i :: 0 <= i < |reported| && reported[i].crash == crash {
        if i :| 0 <= i < |reported| && reported[i].crash == crash && i < |before| { assert before[i].crash == crash; }
        if crash in Sites(before) {
          var i :| 0 <= i < |before| && before[i].crash == crash;
          assert reported[i].crash == crash;
        }
        assert reported[|before|] == last;
      }
    }
  }

  /** A crash is held twice once a site of it is read over one already held. */
  lemma TwiceOnceMore(reported: seq<Site>, site: Site, crash: string)
    ensures HeldTwice(reported + [site], crash) <==>
              HeldTwice(reported, crash) || (site.crash == crash && crash in Sites(reported))
  {
    var now := reported + [site];
    SitesHold(reported);
    if HeldTwice(now, crash) {
      var j, k :| 0 <= j < k < |now| && now[j].crash == crash && now[k].crash == crash;
      assert reported[j].crash == crash;
      assert k < |reported| ==> reported[k].crash == crash;
    }
    if HeldTwice(reported, crash) {
      var j, k :| 0 <= j < k < |reported| && reported[j].crash == crash && reported[k].crash == crash;
      assert now[j].crash == crash && now[k].crash == crash;
    }
    if site.crash == crash && crash in Sites(reported) {
      var j :| 0 <= j < |reported| && reported[j].crash == crash;
      assert now[j].crash == crash && now[|reported|].crash == crash;
    }
  }

  lemma OneMoreSite(reported: seq<Site>, site: Site)
    ensures Sites(reported + [site]) == Sites(reported)[site.crash := site]
  {
  }

  /** Reads the report's sites, naming each crash it holds again. */
  method ReportedSites(reported: seq<Site>) returns (sites: map<string, Site>, found: seq<Finding>)
    ensures sites == Sites(reported)
    ensures forall finding :: finding in found <==> finding.reason == Twice && HeldTwice(reported, finding.crash)
  {
    hide HeldTwice, Sites;
    sites, found := map[], [];
    NothingReported();
    for i := 0 to |reported|
      invariant sites == Sites(reported[..i])
      invariant forall finding :: finding in found <==>
                finding.reason == Twice && HeldTwice(reported[..i], finding.crash)
    {
      var site := reported[i];
      ghost var before := reported[..i];
      assert reported[..i + 1] == before + [site];
      OneMoreSite(before, site);
      forall crash
        ensures HeldTwice(before + [site], crash) <==>
                  HeldTwice(before, crash) || (site.crash == crash && crash in sites)
      {
        TwiceOnceMore(before, site, crash);
      }
      if site.crash in sites { found := found + [Finding(site.crash, Twice)]; }
      sites := sites[site.crash := site];
    }
    assert reported[..|reported|] == reported;
  }

  lemma NothingReported()
    ensures Sites([]) == map[]
    ensures forall crash :: !HeldTwice([], crash)
  {
  }

  function CrashesOf(groups: seq<Group>): seq<string> {
    seq(|groups|, i requires 0 <= i < |groups| => groups[i].crash)
  }

  lemma NothingDecided(sites: map<string, Site>, groups: seq<Group>)
    ensures forall finding :: !Differs(sites, groups, 0, finding)
    ensures forall crash :: !DecidedBefore(groups, 0, crash)
  {
  }

  lemma NotYetDecided(groups: seq<Group>, i: nat)
    requires i < |groups| && Distinct(CrashesOf(groups))
    ensures !DecidedBefore(groups, i, groups[i].crash)
  {
    forall j | 0 <= j < i ensures groups[j].crash != groups[i].crash {
      assert CrashesOf(groups)[j] != CrashesOf(groups)[i];
    }
  }

  lemma DiffersOnceMore(sites: map<string, Site>, groups: seq<Group>, i: nat, finding: Finding)
    requires i < |groups|
    ensures Differs(sites, groups, i + 1, finding) <==>
            Differs(sites, groups, i, finding)
            || (groups[i].crash == finding.crash && ReasonAt(sites, groups, i) == Some(finding.reason))
  {
    hide ReasonAt, DecisionAt;
    if j :| 0 <= j < i + 1 && groups[j].crash == finding.crash && ReasonAt(sites, groups, j) == Some(finding.reason) {
      assert j < i || j == i;
    }
  }

  lemma DecidedOnceMore(groups: seq<Group>, i: nat, crash: string)
    requires i < |groups|
    ensures DecidedBefore(groups, i + 1, crash) <==>
            DecidedBefore(groups, i, crash) || (groups[i].crash == crash && DecisionAt(groups, i).Ok?)
  {
    hide DecisionAt;
    if j :| 0 <= j < i + 1 && groups[j].crash == crash && DecisionAt(groups, j).Ok? {
      assert j < i || j == i;
    }
  }

  /** One more crash decided adds what it is disputed for, and itself to the decided ones. */
  lemma OneMoreDecided(sites: map<string, Site>, groups: seq<Group>, i: nat)
    requires i < |groups|
    ensures forall finding :: Differs(sites, groups, i + 1, finding) <==>
              Differs(sites, groups, i, finding)
              || (groups[i].crash == finding.crash && ReasonAt(sites, groups, i) == Some(finding.reason))
    ensures forall crash :: DecidedBefore(groups, i + 1, crash) <==>
              DecidedBefore(groups, i, crash) || (groups[i].crash == crash && DecisionAt(groups, i).Ok?)
  {
    hide Differs, DecidedBefore, ReasonAt, DecisionAt;
    forall finding ensures Differs(sites, groups, i + 1, finding) <==>
        Differs(sites, groups, i, finding)
        || (groups[i].crash == finding.crash && ReasonAt(sites, groups, i) == Some(finding.reason))
    {
      DiffersOnceMore(sites, groups, i, finding);
    }
    forall crash ensures DecidedBefore(groups, i + 1, crash) <==>
        DecidedBefore(groups, i, crash) || (groups[i].crash == crash && DecisionAt(groups, i).Ok?)
    {
      DecidedOnceMore(groups, i, crash);
    }
  }

  /**
   Decides each crash in its turn, naming those the report does not hold so; the sites left are those of no
   crash decided.
   */
  method HeldToSites(groups: seq<Group>, sites: map<string, Site>, twice: seq<Finding>)
    returns (left: map<string, Site>, found: seq<Finding>)
    requires Distinct(CrashesOf(groups))
    ensures forall finding :: finding in found <==> finding in twice || Differs(sites, groups, |groups|, finding)
    ensures forall crash :: crash in left <==> crash in sites && !DecidedBefore(groups, |groups|, crash)
  {
    hide Differs, DecidedBefore, Decide, Distinct;
    left, found := sites, twice;
    var stained := false;
    NothingDecided(sites, groups);
    for i := 0 to |groups|
      invariant stained == StainedBefore(groups, i)
      invariant forall finding :: finding in found <==> finding in twice || Differs(sites, groups, i, finding)
      invariant forall crash :: crash in left <==> crash in sites && !DecidedBefore(groups, i, crash)
      invariant forall crash | crash in left :: left[crash] == sites[crash]
    {
      var crash := groups[i].crash;
      var decided := DecideAgain(crash, groups[i].steps, stained);
      NotYetDecided(groups, i);
      OneMoreDecided(sites, groups, i);
      if decided.Err? {
        found := found + [Finding(crash, NotMade)];
        continue;
      }
      stained := stained || decided.value.outside;
      if crash !in left {
        found := found + [Finding(crash, Unreported)];
      } else if left[crash] != decided.value.site {
        found := found + [Finding(crash, Contradicted)];
      }
      left := left - {crash};
    }
  }

  /** Groups the recording, decides it over, and compares what it decides with the report both ways. */
  method Disagreements(reported: seq<Site>, entries: seq<Entry>) returns (found: seq<Finding>)
    ensures forall finding :: finding in found <==> Disputed(reported, GroupsOf(entries), finding)
    ensures found == [] <==> Agrees(reported, GroupsOf(entries))
  {
    hide HeldTwice, Differs, DecidedBefore, GroupsOf, Agrees, Distinct, Sites;
    var groups := Grouped(entries);
    GroupsAreDistinct(entries);
    var sites, twice := ReportedSites(reported);
    var left, disputed := HeldToSites(groups, sites, twice);
    found := disputed;
    var keys := left.Keys;
    ghost var gone: set<string> := {};
    while keys != {}
      invariant keys + gone == left.Keys && keys !! gone
      invariant forall finding :: finding in found <==>
                finding in disputed || (finding.crash in gone && finding.reason == Unrecorded)
      decreases keys
    {
      var crash :| crash in keys;
      keys, gone := keys - {crash}, gone + {crash};
      found := found + [Finding(crash, Unrecorded)];
    }
    DiffersForAReason(sites, groups);
    UndisputedMeansAgreement(reported, groups);
    if found != [] { assert found[0] in found; }
  }

  lemma DiffersForAReason(sites: map<string, Site>, groups: seq<Group>)
    ensures forall finding :: Differs(sites, groups, |groups|, finding) ==>
              finding.reason != Twice && finding.reason != Unrecorded
  {
    hide DecisionAt;
  }

  lemma GroupsAreDistinct(entries: seq<Entry>)
    ensures Distinct(CrashesOf(GroupsOf(entries)))
  {
    OrderIsDistinct(entries);
    assert CrashesOf(GroupsOf(entries)) == Order(entries);
  }

  // ---------------------------------------------------------------- what no disagreement means

  /** Every crash of the recording is decided in its turn, and the report holds exactly those decisions, each once. */
  ghost predicate Agrees(reported: seq<Site>, groups: seq<Group>) {
    && (forall crash :: !HeldTwice(reported, crash))
    && (forall i | 0 <= i < |groups| :: DecisionAt(groups, i).Ok?)
    && (forall site :: site in reported <==> DecidedAs(groups, site))
  }

  /** `site` is what some crash of the recording is decided as. */
  ghost predicate DecidedAs(groups: seq<Group>, site: Site) {
    exists i :: 0 <= i < |groups| && DecisionAt(groups, i).Ok? && DecisionAt(groups, i).value.site == site
  }

  lemma SiteHeldOnce(reported: seq<Site>, site: Site)
    requires site in reported && !HeldTwice(reported, site.crash)
    ensures site.crash in Sites(reported) && Sites(reported)[site.crash] == site
  {
  }

  lemma AgreementIsUndisputed(reported: seq<Site>, groups: seq<Group>, finding: Finding)
    requires Agrees(reported, groups)
    ensures !Disputed(reported, groups, finding)
  {
    hide Decide, HeldTwice;
    SitesHold(reported);
    forall i | 0 <= i < |groups| ensures ReasonAt(Sites(reported), groups, i).None? {
      var site := DecisionAt(groups, i).value.site;
      assert DecidedAs(groups, site);
      SiteHeldOnce(reported, site);
      DecidesItsCrash(groups[i].crash, groups[i].steps, StainedBefore(groups, i));
    }
    if finding.crash in Sites(reported) {
      var site := Sites(reported)[finding.crash];
      assert DecidedAs(groups, site);
      var i :| 0 <= i < |groups| && DecisionAt(groups, i).Ok? && DecisionAt(groups, i).value.site == site;
      DecidesItsCrash(groups[i].crash, groups[i].steps, StainedBefore(groups, i));
      assert DecidedBefore(groups, |groups|, finding.crash);
    }
  }

  lemma UndisputedIsAgreement(reported: seq<Site>, groups: seq<Group>)
    requires forall finding :: !Disputed(reported, groups, finding)
    ensures Agrees(reported, groups)
  {
    hide Decide, HeldTwice;
    SitesHold(reported);
    forall i | 0 <= i < |groups| ensures ReasonAt(Sites(reported), groups, i).None? && DecisionAt(groups, i).Ok? {
      var reason := ReasonAt(Sites(reported), groups, i);
      assert !Disputed(reported, groups, Finding(groups[i].crash, if reason.Some? then reason.value else NotMade));
    }
    forall crash ensures !HeldTwice(reported, crash) { assert !Disputed(reported, groups, Finding(crash, Twice)); }
    forall site ensures site in reported <==> DecidedAs(groups, site) {
      if site in reported {
        assert !Disputed(reported, groups, Finding(site.crash, Unrecorded));
        SiteHeldOnce(reported, site);
        var i :| 0 <= i < |groups| && groups[i].crash == site.crash && DecisionAt(groups, i).Ok?;
        assert ReasonAt(Sites(reported), groups, i).None?;
      }
      if i :| 0 <= i < |groups| && DecisionAt(groups, i).Ok? && DecisionAt(groups, i).value.site == site {
        assert ReasonAt(Sites(reported), groups, i).None?;
      }
    }
  }

  /** Nothing is disputed exactly when the report holds each decision of the recording once and nothing else. */
  lemma UndisputedMeansAgreement(reported: seq<Site>, groups: seq<Group>)
    ensures (forall finding :: !Disputed(reported, groups, finding)) <==> Agrees(reported, groups)
  {
    hide Disputed, Agrees;
    if Agrees(reported, groups) {
      forall finding ensures !Disputed(reported, groups, finding) { AgreementIsUndisputed(reported, groups, finding); }
    } else if forall finding :: !Disputed(reported, groups, finding) {
      UndisputedIsAgreement(reported, groups);
    }
  }

  // ---------------------------------------------------------------- agreement is what a run makes

  /** Whether, in a run that met `worlds`, a stop of a crash before the `i`th wrote into the tree. */
  function StainedIn(worlds: seq<World>, i: nat): bool
    requires i <= |worlds|
  {
    i > 0 && (StainedIn(worlds, i - 1) || Decides("", worlds[i - 1], StainedIn(worlds, i - 1)).outside)
  }

  /** A run that met a world for each crash, in turn, recorded these steps of them and reported these sites. */
  ghost predicate RunMakes(worlds: seq<World>, reported: seq<Site>, groups: seq<Group>) {
    && |worlds| == |groups|
    && (forall i | 0 <= i < |groups| ::
          Honest(worlds[i].oracle) && Recorded(worlds[i], StainedIn(worlds, i)) == groups[i].steps)
    && (forall crash :: !HeldTwice(reported, crash))
    && (forall site :: site in reported <==> ReportedBy(worlds, groups, site))
  }

  ghost predicate ReportedBy(worlds: seq<World>, groups: seq<Group>, site: Site) {
    exists i :: 0 <= i < |groups| && i < |worlds|
                && Decides(groups[i].crash, worlds[i], StainedIn(worlds, i)).site == site
  }

  /** The decisions a run makes are the ones its recording decides, and so is what is written into the tree. */
  lemma {:induction false} MadeDecidesAlike(worlds: seq<World>, groups: seq<Group>, i: nat)
    requires i <= |groups| == |worlds|
    requires forall j | 0 <= j < |groups| ::
               Honest(worlds[j].oracle) && Recorded(worlds[j], StainedIn(worlds, j)) == groups[j].steps
    ensures StainedIn(worlds, i) == StainedBefore(groups, i)
    ensures i < |groups| ==> DecisionAt(groups, i) == Ok(Decides(groups[i].crash, worlds[i], StainedIn(worlds, i)))
    decreases i
  {
    hide Decide, Honest, Recorded;
    if i > 0 {
      MadeDecidesAlike(worlds, groups, i - 1);
    }
    if i < |groups| {
      DecidesWhatIsMade(groups[i].crash, worlds[i], StainedIn(worlds, i));
    }
  }

  /** A world for each of the first `upto` crashes that makes a run record its steps. */
  lemma {:induction false} DecidedIsMadeInTurn(groups: seq<Group>, upto: nat) returns (worlds: seq<World>)
    requires upto <= |groups|
    requires forall i | 0 <= i < upto :: DecisionAt(groups, i).Ok?
    ensures |worlds| == upto
    ensures forall i | 0 <= i < upto ::
              Honest(worlds[i].oracle) && Recorded(worlds[i], StainedIn(worlds, i)) == groups[i].steps
    ensures StainedIn(worlds, upto) == StainedBefore(groups, upto)
    decreases upto
  {
    hide Decide, Honest, Recorded;
    worlds := [];
    if upto > 0 {
      var before := DecidedIsMadeInTurn(groups, upto - 1);
      var i := upto - 1;
      var world := AsMet(groups[i].steps, DecisionAt(groups, i).value.outside);
      DecidedIsMade(groups[i].crash, groups[i].steps, StainedBefore(groups, i));
      AsRecordedIsHonest(groups[i].steps);
      DecidesWhatIsMade(groups[i].crash, world, StainedBefore(groups, i));
      worlds := before + [world];
      forall j | 0 <= j <= i ensures StainedIn(worlds, j) == StainedIn(before, j) { StainedInPrefix(before, world, j); }
    }
  }

  lemma {:induction false} StainedInPrefix(worlds: seq<World>, more: World, i: nat)
    requires i <= |worlds|
    ensures StainedIn(worlds + [more], i) == StainedIn(worlds, i)
    decreases i
  {
    hide Decides;
    if i > 0 { StainedInPrefix(worlds, more, i - 1); }
  }

  /** A report and a recording agree exactly when some run could have made both. */
  lemma AgreementMeansARun(reported: seq<Site>, groups: seq<Group>)
    ensures Agrees(reported, groups) <==> exists worlds :: RunMakes(worlds, reported, groups)
  {
    hide Decide, Decides, Honest, Recorded, HeldTwice;
    if Agrees(reported, groups) {
      var worlds := DecidedIsMadeInTurn(groups, |groups|);
      forall i | 0 <= i < |groups|
        ensures DecisionAt(groups, i) == Ok(Decides(groups[i].crash, worlds[i], StainedIn(worlds, i)))
      {
        MadeDecidesAlike(worlds, groups, i);
      }
      forall site ensures DecidedAs(groups, site) <==> ReportedBy(worlds, groups, site) {}
      assert RunMakes(worlds, reported, groups);
    }
    if worlds :| RunMakes(worlds, reported, groups) {
      forall i | 0 <= i < |groups|
        ensures DecisionAt(groups, i) == Ok(Decides(groups[i].crash, worlds[i], StainedIn(worlds, i)))
      {
        MadeDecidesAlike(worlds, groups, i);
      }
      forall site ensures DecidedAs(groups, site) <==> ReportedBy(worlds, groups, site) {}
    }
  }

  // ---------------------------------------------------------------- interleaving

  /** Crashes first appear in one order in both recordings, and each has the same steps. */
  ghost predicate Interleaves(a: seq<Entry>, b: seq<Entry>) {
    Order(a) == Order(b) && forall crash :: Of(a, crash) == Of(b, crash)
  }

  /** What is recorded later neither drops a crash nor moves one. */
  lemma {:induction false} OrderOnlyGrows(entries: seq<Entry>, more: seq<Entry>)
    ensures Order(entries) <= Order(entries + more)
    decreases |more|
  {
    if more == [] {
      assert entries + more == entries;
    } else {
      var init, last := more[..|more| - 1], more[|more| - 1];
      OrderOnlyGrows(entries, init);
      assert entries + more == (entries + init) + [last];
      OneMoreStep(entries + init, last);
    }
  }

  lemma {:induction false} GroupsRestOnSteps(a: seq<Entry>, b: seq<Entry>, more: seq<Entry>)
    requires Interleaves(a, b)
    ensures Interleaves(a + more, b + more)
    decreases |more|
  {
    if more == [] {
      assert a + more == a && b + more == b;
    } else {
      var init, last := more[..|more| - 1], more[|more| - 1];
      GroupsRestOnSteps(a, b, init);
      assert a + more == (a + init) + [last] && b + more == (b + init) + [last];
      OneMoreStep(a + init, last);
      OneMoreStep(b + init, last);
    }
  }

  lemma InterleavedGroupAlike(a: seq<Entry>, b: seq<Entry>)
    requires Interleaves(a, b)
    ensures GroupsOf(a) == GroupsOf(b)
  {
    hide Order, Of;
  }

  lemma GroupedAlikeInterleave(a: seq<Entry>, b: seq<Entry>)
    requires GroupsOf(a) == GroupsOf(b)
    ensures Interleaves(a, b)
  {
    hide Order, Of;
    assert |Order(a)| == |GroupsOf(a)| == |GroupsOf(b)| == |Order(b)|;
    forall i | 0 <= i < |Order(a)| ensures Order(a)[i] == Order(b)[i] && Of(a, Order(a)[i]) == Of(b, Order(a)[i]) {
      assert GroupsOf(a)[i] == Group(Order(a)[i], Of(a, Order(a)[i]))
             && GroupsOf(b)[i] == Group(Order(b)[i], Of(b, Order(b)[i]));
    }
    assert Order(a) == Order(b);
    forall crash ensures Of(a, crash) == Of(b, crash) { StepsOfAnyCrash(a, b, crash); }
  }

  lemma StepsOfAnyCrash(a: seq<Entry>, b: seq<Entry>, crash: string)
    requires Order(a) == Order(b) && forall i | 0 <= i < |Order(a)| :: Of(a, Order(a)[i]) == Of(b, Order(a)[i])
    ensures Of(a, crash) == Of(b, crash)
  {
    hide Order, Of;
    if crash in Order(a) {
      var i :| 0 <= i < |Order(a)| && Order(a)[i] == crash;
    } else {
      NoStepsUnlessListed(a, crash);
      NoStepsUnlessListed(b, crash);
    }
  }

  /**
   However the steps of different crashes are interleaved, nothing else is decided: recordings group
   alike exactly where they keep each crash's steps and the order crashes first appear in, and then
   every report is disputed alike over them and the same runs could have made them.
   */
  lemma InterleavingChangesNothing(reported: seq<Site>, a: seq<Entry>, b: seq<Entry>)
    ensures Interleaves(a, b) <==> GroupsOf(a) == GroupsOf(b)
    ensures Interleaves(a, b) ==> forall finding :: Disputed(reported, GroupsOf(a), finding) <==>
              Disputed(reported, GroupsOf(b), finding)
    ensures Interleaves(a, b) ==> (Agrees(reported, GroupsOf(a)) <==> Agrees(reported, GroupsOf(b)))
    ensures Interleaves(a, b) ==> forall worlds :: RunMakes(worlds, reported, GroupsOf(a)) <==>
              RunMakes(worlds, reported, GroupsOf(b))
  {
    hide Disputed, Agrees, RunMakes, Interleaves, GroupsOf;
    if Interleaves(a, b) {
      InterleavedGroupAlike(a, b);
    } else if GroupsOf(a) == GroupsOf(b) {
      GroupedAlikeInterleave(a, b);
    }
  }

  /** A step of one crash and the next of another can change places exactly where one of the two appeared before. */
  lemma NeighboursChangePlaces(before: seq<Entry>, one: Entry, other: Entry, after: seq<Entry>)
    requires one.crash != other.crash
    ensures Interleaves(before + [one, other] + after, before + [other, one] + after) <==>
            one.crash in Order(before) || other.crash in Order(before)
  {
    hide Order, Of;
    assert before + [one, other] == (before + [one]) + [other] && before + [other, one] == (before + [other]) + [one];
    OneMoreStep(before, one);
    OneMoreStep(before + [one], other);
    OneMoreStep(before, other);
    OneMoreStep(before + [other], one);
    if one.crash in Order(before) || other.crash in Order(before) {
      GroupsRestOnSteps(before + [one, other], before + [other, one], after);
    } else {
      OrderOnlyGrows(before + [one, other], after);
      OrderOnlyGrows(before + [other, one], after);
      var at := |Order(before)|;
      assert Order(before + [one, other])[at] == one.crash && Order(before + [other, one])[at] == other.crash;
    }
  }
}

/**
 What can be told of recorded work and recorded runs from the machine's process table, when any answer
 about it may fail to be read; and what the answer is worth against the processes there really are.
 */
module Liveness {
  import opened Wrappers

  datatype Verdict = Alive | Over | Unseen

  /** An answer about a process id: running since then, a corpse, nothing there, or not read. */
  datatype Start = Running(born: string) | Ended(born: string) | Absent | Unread

  /** An answer about a process's session: that one, no such process, or not read. */
  datatype Session = Of(id: nat) | Left | Unknown

  /** A group line: the leader's id, which is the group's, the leader's start, and the session where one was read. */
  datatype Recorded = Recorded(pid: nat, born: string, session: Option<nat>)

  /** One row of the machine's listing. */
  datatype Listed = Listed(pid: nat, group: nat, ended: bool)

  /**
   Everything the machine was asked: how the leader stands, the listing where it could be read, and each
   member's session.
   */
  datatype Observed = Observed(leader: Start, listing: Option<seq<Listed>>, sessions: map<nat, Session>)

  function SessionOf(seen: Observed, pid: nat): Session {
    if pid in seen.sessions then seen.sessions[pid] else Unknown
  }

  // ---------------------------------------------------------------- the decision

  /** The process that bears on the group: a member of it that has not ended. */
  predicate Member(recorded: Recorded, one: Listed) {
    one.group == recorded.pid && !one.ended
  }

  /** The decision as the lanes take it: the leader first, then the members in the order they are listed. */
  method GroupLiveness(recorded: Recorded, seen: Observed) returns (verdict: Verdict)
    ensures verdict == LivenessOf(recorded, seen)
  {
    var tied: Option<nat> := None;
    match seen.leader {
      case Running(now) =>
        if now != recorded.born { return Over; }
      case Ended(now) =>
        if now != recorded.born { return Over; }
        if recorded.session.None? { return Over; }
        tied := recorded.session;
      case Unread => return Unseen;
      case Absent =>
        if recorded.session.None? { return Over; }
        tied := recorded.session;
    }
    if seen.listing.None? { return Unseen; }
    var processes := seen.listing.value;
    var unread := false;
    for i := 0 to |processes|
      invariant forall one | one in processes[..i] && Member(recorded, one) ::
                tied.Some? && SessionOf(seen, one.pid) != Of(tied.value)
      invariant unread <==>
                exists one | one in processes[..i] :: Member(recorded, one) && SessionOf(seen, one.pid) == Unknown
    {
      assert processes[..i + 1] == processes[..i] + [processes[i]];
      if Member(recorded, processes[i]) {
        if tied.None? {
          assert processes[i] in processes && Belongs(recorded, seen, processes[i]);
          return Alive;
        }
        match SessionOf(seen, processes[i].pid) {
          case Of(its) =>
            if its == tied.value {
              assert processes[i] in processes && Belongs(recorded, seen, processes[i]);
              return Alive;
            }
          case Unknown => unread := true;
          case Left =>
        }
      }
    }
    assert processes[..|processes|] == processes;
    verdict := if unread then Unseen else Over;
  }

  // ---------------------------------------------------------------- what it decides

  /** Whether the id the record names is still the leader's: nothing else has started under it. */
  predicate LeaderKnown(recorded: Recorded, leader: Start) {
    match leader
    case Running(born) => born == recorded.born
    case Ended(born) => born == recorded.born && recorded.session.Some?
    case Absent => recorded.session.Some?
    case Unread => false
  }

  /**
   A member of the recorded work: of the group while its leader runs, and of the group and the leader's
   session after.
   */
  predicate Belongs(recorded: Recorded, seen: Observed, one: Listed) {
    && Member(recorded, one)
    && (seen.leader.Running? || (recorded.session.Some? && SessionOf(seen, one.pid) == Of(recorded.session.value)))
  }

  /** The decision by what holds rather than by the order it is read in. */
  function LivenessOf(recorded: Recorded, seen: Observed): Verdict {
    if seen.leader.Unread? then Unseen
    else if !LeaderKnown(recorded, seen.leader) then Over
    else if seen.listing.None? then Unseen
    else if exists one | one in seen.listing.value :: Belongs(recorded, seen, one) then Alive
    else if !seen.leader.Running?
            && exists one | one in seen.listing.value ::
                Member(recorded, one) && SessionOf(seen, one.pid) == Unknown then Unseen
    else Over
  }

  /** Every answer the machine was asked for was read. */
  ghost predicate AllRead(seen: Observed) {
    && !seen.leader.Unread? && seen.listing.Some?
    && forall one | one in seen.listing.value :: SessionOf(seen, one.pid) != Unknown
  }

  /** `less` is `more` with some answers unread: the leader's start, the listing, or the sessions of some processes. */
  ghost predicate LessRead(less: Observed, more: Observed) {
    && (less.leader == more.leader || less.leader.Unread?)
    && (less.listing == more.listing || less.listing.None?)
    && forall pid :: SessionOf(less, pid) == SessionOf(more, pid) || SessionOf(less, pid) == Unknown
  }

  /** Reading less never turns one answer into another: it stays or becomes that nothing was seen. */
  lemma ReadingLessNeverMisleads(recorded: Recorded, less: Observed, more: Observed)
    requires LessRead(less, more)
    ensures LivenessOf(recorded, less) == LivenessOf(recorded, more) || LivenessOf(recorded, less) == Unseen
  {
  }

  // ---------------------------------------------------------------- what really runs

  /** A process of the machine: its start, group and session, and whether it is a corpse in the table. */
  datatype Process = Process(born: string, group: nat, session: nat, ended: bool)

  /**
   What really is: every process by its id, the ids of those that are the recorded work's, and the session
   that work runs in.
   */
  datatype Machine = Machine(processes: map<nat, Process>, work: set<nat>, session: nat)

  ghost predicate InTable(machine: Machine, pid: nat) {
    pid in machine.processes
  }

  /** Some process of the recorded work has not ended. */
  ghost predicate WorkRuns(machine: Machine) {
    exists pid :: InTable(machine, pid) && pid in machine.work && !machine.processes[pid].ended
  }

  /** The leader itself has not ended. */
  ghost predicate LeaderRuns(recorded: Recorded, machine: Machine) {
    && recorded.pid in machine.processes
    && machine.processes[recorded.pid].born == recorded.born && !machine.processes[recorded.pid].ended
  }

  /**
   What a machine keeps to.  Work stays in the group and session its leader was in, and the leader is
   told by its id and start.  No id is given again, and no other work enters a group by it, while a
   process of the group has not ended.  A session the record names is the leader's.
   */
  ghost predicate Lawful(recorded: Recorded, machine: Machine) {
    && (forall pid | InTable(machine, pid) && pid in machine.work ::
          machine.processes[pid].group == recorded.pid && machine.processes[pid].session == machine.session)
    && (recorded.pid in machine.processes && machine.processes[recorded.pid].born == recorded.born ==>
        recorded.pid in machine.work)
    && (WorkRuns(machine) ==>
          && (recorded.pid in machine.processes ==> machine.processes[recorded.pid].born == recorded.born)
          && forall pid | InTable(machine, pid) && machine.processes[pid].group == recorded.pid :: pid in machine.work)
    && (recorded.session.Some? ==> recorded.session.value == machine.session)
  }

  /**
   Every process of the work has ended, and a process that is none of it is in its session, in a group by
   the same id.
   */
  ghost predicate TakenAgain(recorded: Recorded, machine: Machine) {
    && !WorkRuns(machine)
    && exists pid :: InTable(machine, pid) && InItsPlace(recorded, machine, machine.processes[pid])
  }

  /** The process runs, in the work's group and session. */
  ghost predicate InItsPlace(recorded: Recorded, machine: Machine, process: Process) {
    process.group == recorded.pid && process.session == machine.session && !process.ended
  }

  ghost function LeaderOf(recorded: Recorded, machine: Machine): Start {
    if recorded.pid !in machine.processes then Absent
    else
      var process := machine.processes[recorded.pid];
      if process.ended then Ended(process.born) else Running(process.born)
  }

  ghost predicate ListedTruly(machine: Machine, one: Listed) {
    one.pid in machine.processes
    && one.group == machine.processes[one.pid].group && one.ended == machine.processes[one.pid].ended
  }

  /** Every answer is what the machine really is, or was not read. */
  ghost predicate ReadTruly(seen: Observed, recorded: Recorded, machine: Machine) {
    && (seen.leader == LeaderOf(recorded, machine) || seen.leader.Unread?)
    && (seen.listing.Some? ==>
          && (forall one | one in seen.listing.value :: ListedTruly(machine, one))
          && forall pid | InTable(machine, pid) :: exists one :: one in seen.listing.value && one.pid == pid)
    && forall pid ::
         || SessionOf(seen, pid) == Unknown
         || SessionOf(seen, pid) == if pid in machine.processes then Of(machine.processes[pid].session) else Left
  }

  /**
   A true reading that says alive: the leader runs, or its session is recorded and a process is in the
   work's place.
   */
  lemma AliveIsInItsPlace(recorded: Recorded, machine: Machine, seen: Observed)
    requires Lawful(recorded, machine) && ReadTruly(seen, recorded, machine) && LivenessOf(recorded, seen) == Alive
    ensures LeaderRuns(recorded, machine) || recorded.session.Some?
    ensures WorkRuns(machine) || TakenAgain(recorded, machine)
  {
    var one :| one in seen.listing.value && Belongs(recorded, seen, one);
    assert ListedTruly(machine, one) && InTable(machine, one.pid);
    if seen.leader.Running? {
      assert InTable(machine, recorded.pid) && recorded.pid in machine.work;
    } else {
      assert InItsPlace(recorded, machine, machine.processes[one.pid]);
    }
  }

  /** A true and complete reading of work that runs says alive where the leader runs or the session is recorded. */
  lemma RunningWorkIsSeen(recorded: Recorded, machine: Machine, seen: Observed)
    requires Lawful(recorded, machine) && ReadTruly(seen, recorded, machine) && WorkRuns(machine)
    requires !seen.leader.Unread? && seen.listing.Some?
    ensures (LeaderRuns(recorded, machine) || recorded.session.Some?) && AllRead(seen) ==>
              LivenessOf(recorded, seen) == Alive
    ensures LeaderRuns(recorded, machine) || recorded.session.Some? ==> LivenessOf(recorded, seen) != Over
    ensures !LeaderRuns(recorded, machine) && recorded.session.None? ==> LivenessOf(recorded, seen) == Over
  {
    var pid :| InTable(machine, pid) && pid in machine.work && !machine.processes[pid].ended;
    var shown := if LeaderRuns(recorded, machine) then recorded.pid else pid;
    assert InTable(machine, shown) && shown in machine.work && !machine.processes[shown].ended;
    var one :| one in seen.listing.value && one.pid == shown;
    assert ListedTruly(machine, one) && Member(recorded, one);
    if LeaderRuns(recorded, machine) || (recorded.session.Some? && SessionOf(seen, shown) != Unknown) {
      assert Belongs(recorded, seen, one);
    }
  }

  /**
   What a true reading of a recorded group means.  Alive: recorded work really runs, unless all of it
   ended and its group's id was taken again in its session.  Over: none of it runs, except exactly
   where the record names no session and the leader is gone, whatever members still run.
   */
  lemma TrueReadingsOfAGroup(recorded: Recorded, machine: Machine, seen: Observed)
    requires Lawful(recorded, machine) && ReadTruly(seen, recorded, machine)
    ensures LivenessOf(recorded, seen) == Alive ==> WorkRuns(machine) || TakenAgain(recorded, machine)
    ensures LivenessOf(recorded, seen) == Over && WorkRuns(machine) ==>
              recorded.session.None? && !LeaderRuns(recorded, machine)
    ensures AllRead(seen) && WorkRuns(machine) ==>
              (LivenessOf(recorded, seen) == Over <==> recorded.session.None? && !LeaderRuns(recorded, machine))
    ensures AllRead(seen) ==> LivenessOf(recorded, seen) != Unseen
  {
    if LivenessOf(recorded, seen) == Alive { AliveIsInItsPlace(recorded, machine, seen); }
    if WorkRuns(machine) && !seen.leader.Unread? && seen.listing.Some? { RunningWorkIsSeen(recorded, machine, seen); }
  }

  // ---------------------------------------------------------------- a holder, a waiting run

  /** What a recorded holder's id and start come to. */
  function HolderState(now: Start, born: string): Verdict {
    match now
    case Running(started) => if started == born then Alive else Over
    case Unread => Unseen
    case _ => Over
  }

  /** Whether a waiting run is still there; one that left no birth is taken to be whatever runs under its id. */
  function WaiterState(me: nat, pid: nat, born: Option<string>, now: Start): Verdict {
    if pid == me then Alive
    else
      match now
      case Running(started) => if born.None? || born.value == "" || born.value == started then Alive else Over
      case Unread => Unseen
      case _ => Over
  }

  /** What a process under some id really is, against what was recorded of one: gone, that same process, or another. */
  datatype Truth = Nobody | Same(ended: bool) | Another(born: string)

  /** A reading of the machine that is truthful, or no reading at all. */
  ghost predicate Truthful(now: Start, truth: Truth, born: string) {
    now.Unread? ||
      match truth
      case Nobody => now.Absent?
      case Same(ended) => now == if ended then Ended(born) else Running(born)
      case Another(other) => other != born && (now == Running(other) || now == Ended(other))
  }

  /**
   A process that still runs is never taken for dead, and one read as alive runs: a holder always, and a
   waiting run that left when it started.
   */
  lemma TruthfulReadingsDecide(me: nat, pid: nat, truth: Truth, born: string, now: Start)
    requires Truthful(now, truth, born) && born != ""
    ensures HolderState(now, born) == Over ==> truth != Same(false)
    ensures HolderState(now, born) == Alive ==> truth == Same(false)
    ensures pid != me ==> WaiterState(me, pid, Some(born), now) == HolderState(now, born)
    ensures truth == Same(false) ==>
              WaiterState(me, pid, None, now) != Over && WaiterState(me, pid, Some(""), now) != Over
    ensures pid != me && now.Running? ==>
              WaiterState(me, pid, None, now) == Alive && WaiterState(me, pid, Some(""), now) == Alive
    ensures WaiterState(pid, pid, Some(born), now) == Alive
  {
  }
}

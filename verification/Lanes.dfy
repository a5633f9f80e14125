/**
 The lanes protocol as a transition system.  Any number of runs ask for one lane, each step of
 each run interleaves with every other, and a run may be killed, a lock file removed, a group
 end, or the machine restart between any two steps.  The operating system is assumed to give a
 lock to one holder at a time and to take it back when its holder dies, to rename in one step,
 and to answer truthfully whether a process runs, where it answers at all.
 */
module Lanes {
  import Liveness
  import opened Wrappers

  /** One run asking for the lane once; runs are ordered as their process ids are. */
  type Run = nat
  type Inode = nat
  type Group = nat

  /** A group line: the group, and whether it names the session the group's leader ran in. */
  datatype Entry = Entry(group: Group, tied: bool)

  /** What a run read of the work the last holder left. */
  datatype Left = Nothing | Work(holder: Run, entries: set<Entry>)

  /** Where a run stands in asking for, holding, and letting go of the lane. */
  datatype Phase =
    | Starting
    | Ticketing(todo: set<Run>, next: nat)              // holds the line, reading the waiting runs
    | Marked(ticket: nat)                               // its marker is written, the line not let go yet
    | Waiting(ticket: nat)
    | Looking(ticket: nat, todo: set<Run>, ahead: bool) // reading the markers for an earlier ticket
    | First(ticket: nat)                                // no live run held an earlier ticket when it looked
    | Opened(ticket: nat, inode: Inode)
    | Locked(ticket: nat, inode: Inode)
    | Named(ticket: nat, inode: Inode)                  // the path still named the file it locked
    | Taking(inode: Inode)                              // its marker is gone, the record not read yet
    | Outwaiting(inode: Inode, holder: Run, entries: set<Entry>)
    | Ending(inode: Inode, entries: set<Entry>)         // the groups not seen gone yet
    | Replacing(inode: Inode)
    | Holding(inode: Inode)
    | Dropping(inode: Inode)                            // let go, its lock not closed yet
    | Out                                               // alive, and no longer asking
    | Gone

  /**
   A record: the holder that wrote it, whether that names when it started, its boot, and its finished lines
   with the holder each was written under.
   */
  datatype Rec = Rec(holder: Run, known: bool, boot: Option<nat>, lines: set<(Entry, Run)>, released: bool)

  /** The line: who holds its lock, the tickets on disk, and, which no step reads, when each run took its place. */
  datatype Queue = Queue(turn: Option<Run>, markers: map<Run, nat>, order: map<Run, nat>, joined: nat)

  /**
   The lock files: which one the path leads to, how many were ever made, who holds the lock of each, and,
   which no step reads, whether one was ever removed.
   */
  datatype Files = Files(named: Option<Inode>, inodes: nat, locks: map<Inode, Run>, removed: bool)

  /** The record, and the work of the machine it is about. */
  datatype Works = Works(
    record: Option<Rec>,
    boot: nat,
    running: set<Group>,              // the groups with any process not ended
    leading: set<Group>,              // the groups whose leader has not ended
    spawned: set<Group>,              // every group there has been
    // History, which no step reads.
    recorded: set<(Run, Entry)>,      // the work recorded under a holder before a run read its record, or read by one
    known: set<Run>,                  // the holders whose record says when they started
    left: set<Run>,                   // the holders that let the lane go and said so
    took: map<Run, Left>)             // what each run read before it took the lane over

  /** Every run that ever started, the line, the lock files, and the work. */
  datatype State = State(phases: map<Run, Phase>, queue: Queue, files: Files, work: Works)

  /** Taking a place in line, and looking whether it is the first. */
  datatype LineStep =
    | LockLine
    | ReadMarker(other: Run, mistaken: bool)   // a recycled id can make a dead run look alive, never the reverse
    | WriteMarker
    | UnlockLine
    | Look
    | LookAt(other: Run, mistaken: bool)
    | Decide
    | Leave                                    // a signal, or the quiet window, ended the wait

  /** Taking the lock of the file the lane's path names. */
  datatype LockStep = Open | TryLock | StillNamed | RemoveMarker

  /** Outlasting what the last holder left, and replacing its record. */
  datatype OverStep =
    | ReadRecord(bootRead: bool)
    | HolderGone
    | GroupGone(entry: Entry)
    | AllGone
    | Replace(bornRead: bool, bootRead: bool)

  /** What a run does once it holds the lane, or any run can do to the record or by ending. */
  datatype RunStep =
    | Start
    | Append(entry: Entry, under: Run)         // a finished group line, under the holder its writer read
    | Release                                  // says in the record that it lets the lane go
    | LetGo                                    // lets it go without, because work is left or the line was cut
    | Unlock
    | Fail                                     // gives up with an error, and stays alive
    | Die

  /** What the machine does. */
  datatype WorldStep =
    | Spawn(group: Group)
    | LeaderEnds(group: Group)
    | GroupEnds(group: Group)
    | RemoveLockFile
    | Restart

  datatype Action =
    | InLine(run: Run, line: LineStep)
    | AtLock(run: Run, lock: LockStep)
    | TakingOver(run: Run, over: OverStep)
    | OfRun(run: Run, step: RunStep)
    | OfWorld(world: WorldStep)

  // ---------------------------------------------------------------- reading a state

  function TicketOf(phase: Phase): Option<nat> {
    if phase.Marked? || phase.Waiting? || phase.Looking? || phase.First? || phase.Opened? || phase.Locked?
        || phase.Named?
    then Some(phase.ticket) else None
  }

  /** A run that waits in line, with its ticket: alive, and neither in nor out yet. */
  ghost predicate Queued(s: State, run: Run) {
    run in s.phases && TicketOf(s.phases[run]).Some?
  }

  /** When `run` took its place in line; after every other where it never did. */
  ghost function OrderOf(s: State, run: Run): nat {
    if run in s.queue.order then s.queue.order[run] else s.queue.joined
  }

  ghost function Ticket(s: State, run: Run): nat
    requires Queued(s, run)
  {
    TicketOf(s.phases[run]).value
  }

  predicate Alive(s: State, run: Run) {
    run in s.phases && !s.phases[run].Gone?
  }

  /** The order tickets are compared in, a tie going to the lower process id. */
  predicate Before(ticket: nat, run: Run, otherTicket: nat, other: Run) {
    ticket < otherTicket || (ticket == otherTicket && run < other)
  }

  /** A run that found itself first in line and has not taken the lane or gone back to waiting. */
  ghost predicate InFront(phase: Phase) {
    phase.First? || phase.Opened? || phase.Locked? || phase.Named?
  }

  /** A run that holds the lock of a lock file. */
  ghost predicate HasLock(phase: Phase) {
    || phase.Locked? || phase.Named? || phase.Taking? || phase.Outwaiting? || phase.Ending?
    || phase.Replacing? || phase.Holding? || phase.Dropping?
  }

  /** What the record says its holder left, as a run that may or may not read this boot's id reads it. */
  function LeftBy(s: State, bootRead: bool): Left {
    match s.work.record
    case None => Nothing
    case Some(rec) =>
      var entries := EntriesUnder(rec);
      if !rec.known then Nothing
      else if bootRead && rec.boot.Some? && rec.boot.value != s.work.boot then Nothing
      else if rec.released || entries == {} then Nothing
      else Work(rec.holder, entries)
  }

  function EntriesUnder(rec: Rec): set<Entry> {
    set line | line in rec.lines && line.1 == rec.holder :: line.0
  }

  /** The record is not one of an earlier boot, as far as it says. */
  ghost predicate OfThisBoot(s: State) {
    s.work.record.Some? && (s.work.record.value.boot.Some? ==> s.work.record.value.boot.value == s.work.boot)
  }

  /** A run that has read the record and not replaced it yet. */
  ghost predicate PastReading(phase: Phase) {
    phase.Outwaiting? || phase.Ending? || phase.Replacing?
  }

  /** The record is the holder's own, living or dead, and no run that has read it is about to replace it. */
  ghost predicate Stands(s: State, holder: Run) {
    && OfThisBoot(s) && s.work.record.value.holder == holder
    && forall run | run in s.phases :: !PastReading(s.phases[run])
  }

  /** The work a run reads of a record of this boot. */
  ghost function WorkRead(s: State, read: Left): set<(Run, Entry)> {
    if read.Work? && OfThisBoot(s) then set entry | entry in read.entries :: (read.holder, entry) else {}
  }

  // ---------------------------------------------------------------- whether a group is seen gone

  /** What a group line records: the group's id is its leader's, and its session where the line names one. */
  function RecordedOf(entry: Entry): Liveness.Recorded {
    Liveness.Recorded(entry.group, "", if entry.tied then Some(entry.group) else None)
  }

  /** The processes of one group: its leader, where that has not ended, and another, where any has not. */
  ghost function MachineOf(s: State, group: Group): Liveness.Machine {
    var process := Liveness.Process("", group, group, false);
    Liveness.Machine(
      (if group in s.work.leading then map[group := process] else map[])
      + (if group in s.work.running then map[group + 1 := process] else map[]),
      {group, group + 1}, group)
  }

  /** A true and complete reading of those processes. */
  ghost function SeenOf(s: State, group: Group): Liveness.Observed {
    Liveness.Observed(
      if group in s.work.leading then Liveness.Running("") else Liveness.Absent,
      Some((if group in s.work.leading then [Liveness.Listed(group, group, false)] else [])
           + if group in s.work.running then [Liveness.Listed(group + 1, group, false)] else []),
      map pid | pid in MachineOf(s, group).processes :: Liveness.Of(group))
  }

  /** A look at the group a line names says it is over. */
  ghost predicate SeenOver(s: State, entry: Entry) {
    Liveness.LivenessOf(RecordedOf(entry), SeenOf(s, entry.group)) == Liveness.Over
  }

  /** What a look goes by: no leader, and where the line names a session no process of the group at all. */
  predicate Spent(s: State, entry: Entry) {
    entry.group !in s.work.leading && (entry.tied ==> entry.group !in s.work.running)
  }

  lemma SeenOverMeansSpent(s: State, entry: Entry)
    ensures SeenOver(s, entry) <==> Spent(s, entry)
  {
    var seen := SeenOf(s, entry.group);
    if entry.group in s.work.leading {
      assert Liveness.Belongs(RecordedOf(entry), seen, seen.listing.value[0]);
    } else if entry.tied && entry.group in s.work.running {
      assert entry.group + 1 in MachineOf(s, entry.group).processes;
      assert Liveness.Belongs(RecordedOf(entry), seen, seen.listing.value[0]);
    }
  }

  /** Any look whose answers are true or unread says over only where that one does. */
  lemma NoTrueLookSaysOverSooner(s: State, entry: Entry, seen: Liveness.Observed)
    requires Liveness.ReadTruly(seen, RecordedOf(entry), MachineOf(s, entry.group))
    requires Liveness.LivenessOf(RecordedOf(entry), seen) == Liveness.Over
    ensures SeenOver(s, entry)
  {
    var machine := MachineOf(s, entry.group);
    SeenOverMeansSpent(s, entry);
    if entry.group in machine.processes { assert Liveness.InTable(machine, entry.group); }
    if entry.group + 1 in machine.processes { assert Liveness.InTable(machine, entry.group + 1); }
    assert Liveness.Lawful(RecordedOf(entry), machine);
    Liveness.TrueReadingsOfAGroup(RecordedOf(entry), machine, seen);
  }

  // ---------------------------------------------------------------- steps

  const INITIAL := State(
    map[], Queue(None, map[], map[], 0), Files(None, 0, map[], false), Works(None, 0, {}, {}, {}, {}, {}, {}, map[]))

  ghost predicate Enabled(s: State, a: Action) {
    match a
    case InLine(run, line) => run in s.phases && LineEnabled(s, run, line)
    case AtLock(run, lock) => run in s.phases && LockEnabled(s, run, lock)
    case TakingOver(run, over) => run in s.phases && OverEnabled(s, run, over)
    case OfRun(run, step) => RunEnabled(s, run, step)
    case OfWorld(world) => WorldEnabled(s, world)
  }

  ghost predicate LineEnabled(s: State, run: Run, line: LineStep)
    requires run in s.phases
  {
    var phase := s.phases[run];
    match line
    case LockLine => phase.Starting? && s.queue.turn.None?
    case ReadMarker(other, _) => phase.Ticketing? && other in phase.todo
    case WriteMarker => phase.Ticketing? && phase.todo == {}
    case UnlockLine => phase.Marked?
    case Look => phase.Waiting?
    case LookAt(other, _) => phase.Looking? && other in phase.todo
    case Decide => phase.Looking? && phase.todo == {}
    case Leave => phase.Waiting?
  }

  ghost predicate LockEnabled(s: State, run: Run, lock: LockStep)
    requires run in s.phases
  {
    var phase := s.phases[run];
    match lock
    case Open => phase.First?
    case TryLock => phase.Opened?
    case StillNamed => phase.Locked?
    case RemoveMarker => phase.Named?
  }

  ghost predicate OverEnabled(s: State, run: Run, over: OverStep)
    requires run in s.phases
  {
    var phase := s.phases[run];
    match over
    case ReadRecord(_) => phase.Taking?
    case HolderGone => phase.Outwaiting? && !Alive(s, phase.holder)
    case GroupGone(entry) => phase.Ending? && entry in phase.entries && SeenOver(s, entry)
    case AllGone => phase.Ending? && phase.entries == {}
    case Replace(_, _) => phase.Replacing?
  }

  ghost predicate RunEnabled(s: State, run: Run, step: RunStep) {
    match step
    case Start => run !in s.phases
    case Append(entry, _) => Alive(s, run) && entry.group in s.work.spawned && s.work.record.Some?
    case Release => run in s.phases && s.phases[run].Holding? && s.work.record.Some?
    case LetGo => run in s.phases && s.phases[run].Holding?
    case Unlock => run in s.phases && s.phases[run].Dropping?
    case Fail => Alive(s, run) && !s.phases[run].Holding?
    case Die => Alive(s, run)
  }

  ghost predicate WorldEnabled(s: State, world: WorldStep) {
    match world
    case Spawn(group) => group !in s.work.spawned
    case LeaderEnds(_) => true
    case GroupEnds(_) => true
    case RemoveLockFile => s.files.named.Some?
    case Restart => true
  }

  function Moved(s: State, run: Run, phase: Phase): State {
    s.(phases := s.phases[run := phase])
  }

  /** A run that no longer holds the line or any lock, which the operating system takes back when it fails or dies. */
  function LetGoOf(s: State, run: Run): State {
    s.(queue := s.queue.(turn := if s.queue.turn == Some(run) then None else s.queue.turn),
       files := s.files.(
         locks := map inode | inode in s.files.locks && s.files.locks[inode] != run :: s.files.locks[inode]))
  }

  ghost function Next(s: State, a: Action): State
    requires Enabled(s, a)
  {
    match a
    case InLine(run, line) => NextInLine(s, run, line)
    case AtLock(run, lock) => NextAtLock(s, run, lock)
    case TakingOver(run, over) => NextOver(s, run, over)
    case OfRun(run, step) => NextOfRun(s, run, step)
    case OfWorld(world) => NextOfWorld(s, world)
  }

  /** The ticket a marker gives, where it is there and its run is read as alive. */
  function SeenTicket(s: State, other: Run, mistaken: bool): Option<nat> {
    if other in s.queue.markers && (Alive(s, other) || mistaken) then Some(s.queue.markers[other]) else None
  }

  /** The markers once one has been read: gone where its run is read as dead. */
  function Swept(s: State, other: Run, mistaken: bool): map<Run, nat> {
    if Alive(s, other) || mistaken then s.queue.markers else s.queue.markers - {other}
  }

  ghost function NextInLine(s: State, run: Run, line: LineStep): State
    requires run in s.phases && LineEnabled(s, run, line)
  {
    var phase := s.phases[run];
    match line
    case LockLine => Moved(s, run, Ticketing(s.queue.markers.Keys, 0)).(queue := s.queue.(turn := Some(run)))
    case ReadMarker(other, mistaken) =>
      var seen := SeenTicket(s, other, mistaken);
      var next := if seen.Some? && seen.value + 1 > phase.next then seen.value + 1 else phase.next;
      Moved(s, run, Ticketing(phase.todo - {other}, next)).(queue := s.queue.(markers := Swept(s, other, mistaken)))
    case WriteMarker =>
      Moved(s, run, Marked(phase.next)).(queue := Joined(s, run, phase.next))
    case UnlockLine => Moved(s, run, Waiting(phase.ticket)).(queue := s.queue.(turn := None))
    case Look => Moved(s, run, Looking(phase.ticket, s.queue.markers.Keys - {run}, false))
    case LookAt(other, mistaken) =>
      var seen := SeenTicket(s, other, mistaken);
      var ahead := phase.ahead || (seen.Some? && Before(seen.value, other, phase.ticket, run));
      Moved(s, run, Looking(phase.ticket, phase.todo - {other}, ahead)).(
        queue := s.queue.(markers := Swept(s, other, mistaken)))
    case Decide => Moved(s, run, if phase.ahead then Waiting(phase.ticket) else First(phase.ticket))
    case Leave => Moved(s, run, Out).(queue := Unmarked(s, run))
  }

  /** The line with one more run in it. */
  function Joined(s: State, run: Run, ticket: nat): Queue {
    Queue(s.queue.turn, s.queue.markers[run := ticket], s.queue.order[run := s.queue.joined], s.queue.joined + 1)
  }

  /** The line without a run's marker. */
  function Unmarked(s: State, run: Run): Queue {
    s.queue.(markers := s.queue.markers - {run})
  }

  ghost function NextAtLock(s: State, run: Run, lock: LockStep): State
    requires run in s.phases && LockEnabled(s, run, lock)
  {
    var phase := s.phases[run];
    match lock
    case Open =>
      if s.files.named.Some? then Moved(s, run, Opened(phase.ticket, s.files.named.value))
      else
        Moved(s, run, Opened(phase.ticket, s.files.inodes)).(
          files := s.files.(named := Some(s.files.inodes), inodes := s.files.inodes + 1))
    case TryLock =>
      if phase.inode in s.files.locks then Moved(s, run, Waiting(phase.ticket))
      else
        Moved(s, run, Locked(phase.ticket, phase.inode)).(
          files := s.files.(locks := s.files.locks[phase.inode := run]))
    case StillNamed =>
      if s.files.named == Some(phase.inode) then Moved(s, run, Named(phase.ticket, phase.inode))
      else Moved(s, run, Waiting(phase.ticket)).(files := s.files.(locks := s.files.locks - {phase.inode}))
    case RemoveMarker => Moved(s, run, Taking(phase.inode)).(queue := Unmarked(s, run))
  }

  ghost function NextOver(s: State, run: Run, over: OverStep): State
    requires run in s.phases && OverEnabled(s, run, over)
  {
    var phase := s.phases[run];
    match over
    case ReadRecord(bootRead) =>
      var read := LeftBy(s, bootRead);
      var next :=
        match read
        case Nothing => Replacing(phase.inode)
        case Work(holder, entries) => Outwaiting(phase.inode, holder, entries);
      Moved(s, run, next).(
        work := s.work.(took := s.work.took[run := read], recorded := s.work.recorded + WorkRead(s, read)))
    case HolderGone => Moved(s, run, Ending(phase.inode, phase.entries))
    case GroupGone(entry) => Moved(s, run, Ending(phase.inode, phase.entries - {entry}))
    case AllGone => Moved(s, run, Replacing(phase.inode))
    case Replace(bornRead, bootRead) =>
      Moved(s, run, Holding(phase.inode)).(
        work := s.work.(
          record := Some(Rec(run, bornRead, if bootRead then Some(s.work.boot) else None, {}, false)),
          known := if bornRead then s.work.known + {run} else s.work.known))
  }

  /** A run that holds the lane. */
  predicate Holds(s: State, run: Run) {
    run in s.phases && s.phases[run].Holding?
  }

  ghost function NextOfRun(s: State, run: Run, step: RunStep): State
    requires RunEnabled(s, run, step)
  {
    match step
    case Start => Moved(s, run, Starting)
    case Append(entry, under) =>
      s.(work := s.work.(
           record := Some(s.work.record.value.(lines := s.work.record.value.lines + {(entry, under)})),
           recorded := if Stands(s, under) then s.work.recorded + {(under, entry)} else s.work.recorded))
    case Release =>
      Moved(s, run, Dropping(s.phases[run].inode)).(
        work := s.work.(record := Some(s.work.record.value.(released := true)), left := s.work.left + {run}))
    case LetGo => Moved(s, run, Dropping(s.phases[run].inode))
    case Unlock => LetGoOf(Moved(s, run, Out), run)
    case Fail => LetGoOf(Moved(s, run, Out), run)
    case Die => LetGoOf(Moved(s, run, Gone), run)
  }

  ghost function NextOfWorld(s: State, world: WorldStep): State
    requires WorldEnabled(s, world)
  {
    match world
    case Spawn(group) =>
      s.(work := s.work.(running := s.work.running + {group}, leading := s.work.leading + {group},
                         spawned := s.work.spawned + {group}))
    case LeaderEnds(group) => s.(work := s.work.(leading := s.work.leading - {group}))
    case GroupEnds(group) =>
      s.(work := s.work.(running := s.work.running - {group}, leading := s.work.leading - {group}))
    case RemoveLockFile => s.(files := s.files.(named := None, removed := true))
    case Restart =>
      s.(phases := map run | run in s.phases :: Gone, queue := s.queue.(turn := None),
          files := s.files.(locks := map[]),
         work := s.work.(boot := s.work.boot + 1, running := {}, leading := {}))
  }

  ghost function Step(s: State, a: Action): State {
    if Enabled(s, a) then Next(s, a) else s
  }

  /** The state any interleaving of steps comes to; a step that cannot be taken where it stands takes none. */
  ghost function After(s: State, actions: seq<Action>): State
    decreases |actions|
  {
    if actions == [] then s else After(Step(s, actions[0]), actions[1..])
  }

  // ---------------------------------------------------------------- what every step keeps: the line

  /** A waiting run's marker holds its ticket, and only the holder of the line reads markers to take one. */
  ghost predicate Placed(s: State, run: Run) {
    && (run in s.queue.markers ==> run in s.phases)
    && (Queued(s, run) ==>
          run in s.queue.markers && s.queue.markers[run] == Ticket(s, run) && OrderOf(s, run) < s.queue.joined)
    && (run in s.phases && (s.phases[run].Ticketing? || s.phases[run].Marked?) ==> s.queue.turn == Some(run))
  }

  /**
   Tickets follow the order runs queued in, whoever reads the markers misses nobody ahead, and nobody in
   front is behind another.
   */
  ghost predicate Ranked(s: State, run: Run, other: Run) {
    Queued(s, other) && run != other ==>
      && (Queued(s, run) ==>
            && OrderOf(s, run) != OrderOf(s, other)
            && (OrderOf(s, run) < OrderOf(s, other) ==> Ticket(s, run) < Ticket(s, other)))
      && (run in s.phases && s.phases[run].Ticketing? ==>
            other in s.phases[run].todo || Ticket(s, other) < s.phases[run].next)
      && (run in s.phases && s.phases[run].Looking? && Before(Ticket(s, other), other, s.phases[run].ticket, run) ==>
            s.phases[run].ahead || other in s.phases[run].todo)
      && (run in s.phases && InFront(s.phases[run]) ==>
            !Before(Ticket(s, other), other, s.phases[run].ticket, run))
  }

  ghost predicate LineKept(s: State) {
    && (forall run :: Placed(s, run))
    && (forall run, other :: Ranked(s, run, other))
  }

  /**
   As far as the line sees, `run` did not move on: it kept its phase, or kept its ticket without coming
   nearer the front, or left.
   */
  ghost predicate Still(s: State, t: State, run: Run) {
    && (run in t.queue.markers ==> run in s.queue.markers && t.queue.markers[run] == s.queue.markers[run])
    && (run in s.phases ==> run in t.phases)
    && (Queued(t, run) ==>
          && Queued(s, run) && Ticket(t, run) == Ticket(s, run) && OrderOf(t, run) == OrderOf(s, run)
          && (run in s.queue.markers ==> run in t.queue.markers))
    && (run in t.phases && (run !in s.phases || t.phases[run] != s.phases[run]) ==>
          && !t.phases[run].Ticketing? && !t.phases[run].Marked? && !t.phases[run].Looking?
          && (InFront(t.phases[run]) ==> run in s.phases && InFront(s.phases[run])))
    && (run in t.phases && (t.phases[run].Ticketing? || t.phases[run].Marked?) && s.queue.turn == Some(run) ==>
        t.queue.turn == Some(run))
    && t.queue.joined == s.queue.joined
  }

  lemma StillKeeps(s: State, t: State, run: Run, other: Run)
    requires Placed(s, run) && Placed(s, other) && Still(s, t, run) && Still(s, t, other)
    ensures Placed(t, run)
    ensures Ranked(s, run, other) ==> Ranked(t, run, other)
  {
  }

  lemma LockStepsAreStill(s: State, run: Run, lock: LockStep, one: Run)
    requires Placed(s, one) && run in s.phases && LockEnabled(s, run, lock)
    ensures Still(s, NextAtLock(s, run, lock), one)
  {
  }

  lemma OverStepsAreStill(s: State, run: Run, over: OverStep, one: Run)
    requires Placed(s, one) && run in s.phases && OverEnabled(s, run, over)
    ensures Still(s, NextOver(s, run, over), one)
  {
  }

  lemma RunStepsAreStill(s: State, run: Run, step: RunStep, one: Run)
    requires Placed(s, one) && RunEnabled(s, run, step)
    ensures Still(s, NextOfRun(s, run, step), one)
  {
  }

  lemma WorldStepsAreStill(s: State, world: WorldStep, one: Run)
    requires Placed(s, one) && WorldEnabled(s, world)
    ensures Still(s, NextOfWorld(s, world), one)
  {
  }

  lemma TicketStepsPlace(s: State, run: Run, line: LineStep, one: Run)
    requires Placed(s, run) && Placed(s, one)
    requires run in s.phases && LineEnabled(s, run, line)
    requires !line.ReadMarker? && !line.LookAt?
    ensures Placed(NextInLine(s, run, line), one)
  {
  }

  lemma ReadingPlaces(s: State, run: Run, read: Run, mistaken: bool, one: Run)
    requires Placed(s, run) && Placed(s, one)
    requires run in s.phases && LineEnabled(s, run, ReadMarker(read, mistaken))
    ensures Placed(NextInLine(s, run, ReadMarker(read, mistaken)), one)
  {
  }

  lemma LookingPlaces(s: State, run: Run, read: Run, mistaken: bool, one: Run)
    requires Placed(s, run) && Placed(s, one)
    requires run in s.phases && LineEnabled(s, run, LookAt(read, mistaken))
    ensures Placed(NextInLine(s, run, LookAt(read, mistaken)), one)
  {
  }

  ghost predicate RankedBoth(s: State, one: Run, other: Run) {
    Placed(s, one) && Placed(s, other) && Ranked(s, one, other) && Ranked(s, other, one)
  }

  lemma TicketStepsRank(s: State, run: Run, line: LineStep, one: Run, other: Run)
    requires Placed(s, run) && RankedBoth(s, one, other)
    requires run in s.phases && LineEnabled(s, run, line)
    requires line.LockLine? || line.WriteMarker? || line.UnlockLine? || line.Look? || line.Decide? || line.Leave?
    ensures Ranked(NextInLine(s, run, line), one, other)
  {
  }

  lemma ReadingRanks(s: State, run: Run, read: Run, mistaken: bool, one: Run, other: Run)
    requires Placed(s, run) && RankedBoth(s, one, other)
    requires run in s.phases && LineEnabled(s, run, ReadMarker(read, mistaken))
    ensures Ranked(NextInLine(s, run, ReadMarker(read, mistaken)), one, other)
  {
  }

  lemma LookingRanks(s: State, run: Run, read: Run, mistaken: bool, one: Run, other: Run)
    requires Placed(s, run) && RankedBoth(s, one, other)
    requires run in s.phases && LineEnabled(s, run, LookAt(read, mistaken))
    ensures Ranked(NextInLine(s, run, LookAt(read, mistaken)), one, other)
  {
  }

  lemma PairIsKept(s: State, a: Action, one: Run, other: Run)
    requires LineKept(s) && Enabled(s, a)
    ensures Placed(Next(s, a), one) && Ranked(Next(s, a), one, other)
  {
    assert RankedBoth(s, one, other);
    var t := Next(s, a);
    match a {
      case InLine(run, line) =>
        assert Placed(s, run);
        match line {
          case ReadMarker(read, mistaken) =>
            ReadingPlaces(s, run, read, mistaken, one);
            ReadingRanks(s, run, read, mistaken, one, other);
          case LookAt(read, mistaken) =>
            LookingPlaces(s, run, read, mistaken, one);
            LookingRanks(s, run, read, mistaken, one, other);
          case _ =>
            TicketStepsPlace(s, run, line, one);
            TicketStepsRank(s, run, line, one, other);
        }
      case AtLock(run, lock) =>
        LockStepsAreStill(s, run, lock, one);
        LockStepsAreStill(s, run, lock, other);
        StillKeeps(s, t, one, other);
      case TakingOver(run, over) =>
        OverStepsAreStill(s, run, over, one);
        OverStepsAreStill(s, run, over, other);
        StillKeeps(s, t, one, other);
      case OfRun(run, step) =>
        RunStepsAreStill(s, run, step, one);
        RunStepsAreStill(s, run, step, other);
        StillKeeps(s, t, one, other);
      case OfWorld(world) =>
        WorldStepsAreStill(s, world, one);
        WorldStepsAreStill(s, world, other);
        StillKeeps(s, t, one, other);
    }
  }

  lemma LineIsKept(s: State, a: Action)
    requires LineKept(s)
    ensures LineKept(Step(s, a))
  {
    if Enabled(s, a) {
      forall one, other ensures Placed(Next(s, a), one) && Ranked(Next(s, a), one, other) {
        PairIsKept(s, a, one, other);
      }
      forall one ensures Placed(Next(s, a), one) {
        PairIsKept(s, a, one, one);
      }
    }
  }

  // ---------------------------------------------------------------- what every step keeps: the locks

  /** The lock file a run opened or locked. */
  ghost function InodeOf(phase: Phase): Option<Inode> {
    if phase.Opened? || HasLock(phase) then Some(phase.inode) else None
  }

  /** Until a lock file is removed there has been at most the one the path names. */
  ghost predicate OneFile(s: State) {
    && (s.files.named.Some? ==> s.files.named.value < s.files.inodes)
    && (!s.files.removed ==> s.files.inodes == if s.files.named.Some? then 1 else 0)
  }

  /** A run past the lock is the one the operating system gave the lock to. */
  ghost predicate LockHeld(s: State, run: Run) {
    run in s.phases && InodeOf(s.phases[run]).Some? ==>
      var inode := InodeOf(s.phases[run]).value;
      inode < s.files.inodes && (HasLock(s.phases[run]) ==> inode in s.files.locks && s.files.locks[inode] == run)
  }

  lemma LineStepsKeepLocks(s: State, run: Run, step: LineStep, one: Run)
    requires run in s.phases && LineEnabled(s, run, step)
    requires OneFile(s) && LockHeld(s, one)
    ensures OneFile(NextInLine(s, run, step)) && LockHeld(NextInLine(s, run, step), one)
  {
  }

  lemma LockStepsKeepLocks(s: State, run: Run, step: LockStep, one: Run)
    requires run in s.phases && LockEnabled(s, run, step)
    requires OneFile(s) && LockHeld(s, one) && LockHeld(s, run)
    ensures OneFile(NextAtLock(s, run, step)) && LockHeld(NextAtLock(s, run, step), one)
  {
  }

  lemma OverStepsKeepLocks(s: State, run: Run, step: OverStep, one: Run)
    requires run in s.phases && OverEnabled(s, run, step)
    requires OneFile(s) && LockHeld(s, one)
    ensures OneFile(NextOver(s, run, step)) && LockHeld(NextOver(s, run, step), one)
  {
  }

  lemma RunStepsKeepLocks(s: State, run: Run, step: RunStep, one: Run)
    requires RunEnabled(s, run, step)
    requires OneFile(s) && LockHeld(s, one)
    ensures OneFile(NextOfRun(s, run, step)) && LockHeld(NextOfRun(s, run, step), one)
  {
  }

  lemma WorldStepsKeepLocks(s: State, step: WorldStep, one: Run)
    requires WorldEnabled(s, step)
    requires OneFile(s) && LockHeld(s, one)
    ensures OneFile(NextOfWorld(s, step)) && LockHeld(NextOfWorld(s, step), one)
  {
  }

  /** While no lock file has been removed, one run at most holds the lane's lock. */
  lemma OneHolder(s: State, run: Run, other: Run)
    requires OneFile(s) && !s.files.removed && LockHeld(s, run) && LockHeld(s, other)
    requires run in s.phases && HasLock(s.phases[run]) && other in s.phases && HasLock(s.phases[other])
    ensures run == other
  {
  }

  // ---------------------------------------------------------------- what every step keeps: the work

  /** A run that holds the lane, or has ended or stopped asking. */
  predicate MayHaveHeld(s: State, run: Run) {
    run in s.phases
    && (s.phases[run].Holding? || s.phases[run].Dropping? || s.phases[run].Out? || s.phases[run].Gone?)
  }

  /** The record names a run that ran, and groups there have been. */
  ghost predicate RecordIsOfRuns(s: State, entry: Entry, under: Run) {
    && s.work.leading <= s.work.running && (entry.group in s.work.running ==> entry.group in s.work.spawned)
    && (s.work.record.Some? ==>
          && MayHaveHeld(s, s.work.record.value.holder)
          && (s.work.record.value.holder in s.work.known <==> s.work.record.value.known)
          && ((entry, under) in s.work.record.value.lines ==> entry.group in s.work.spawned)
          && (!s.files.removed && s.work.record.value.released ==> s.work.record.value.holder in s.work.left))
  }

  ghost predicate IsGone(s: State, run: Run) {
    run in s.phases && s.phases[run].Gone?
  }

  /** What a run read before it took the lane over is gone, as far as it has come in seeing it gone. */
  ghost predicate Outlasted(s: State, run: Run, entry: Entry) {
    run in s.phases ==>
      match s.phases[run]
      case Outwaiting(_, holder, entries) =>
        && run in s.work.took && s.work.took[run] == Work(holder, entries) && MayHaveHeld(s, holder)
        && (entry in entries ==> entry.group in s.work.spawned)
      case Ending(_, todo) =>
        && run in s.work.took && s.work.took[run].Work? && IsGone(s, s.work.took[run].holder)
        && (entry in s.work.took[run].entries ==> entry.group in s.work.spawned && (entry in todo || Spent(s, entry)))
      case Replacing(_) => Overcome(s, run, entry)
      case Holding(_) => Overcome(s, run, entry)
      case Dropping(_) => Overcome(s, run, entry)
      case _ => true
  }

  ghost predicate Overcome(s: State, run: Run, entry: Entry) {
    && run in s.work.took
    && (s.work.took[run].Work? ==>
          && IsGone(s, s.work.took[run].holder)
          && (entry in s.work.took[run].entries ==> entry.group in s.work.spawned && Spent(s, entry)))
  }

  /**
   Work recorded under a holder, by it or by a run nested in it, before its record was read for the last
   time, that a look would not say is over, the holder having said nothing of letting go.
   */
  ghost predicate Owed(s: State, run: Run, entry: Entry) {
    (run, entry) in s.work.recorded && !Spent(s, entry) && run in s.work.known && run !in s.work.left
  }

  /** Only a run that held the lane wrote a record or recorded work, and only work there has been. */
  ghost predicate RecordedByHolder(s: State, run: Run, entry: Entry) {
    && ((run, entry) in s.work.recorded ==> MayHaveHeld(s, run) && entry.group in s.work.spawned)
    && (run in s.work.known ==> MayHaveHeld(s, run))
  }

  /** The record is the holder's own, for as long as it holds the lane. */
  ghost predicate RecordIsHolders(s: State, run: Run) {
    !s.files.removed && run in s.phases && s.phases[run].Holding? ==>
      && OfThisBoot(s) && s.work.record.value.holder == run && !s.work.record.value.released
      && (run in s.work.known <==> s.work.record.value.known)
  }

  /** Work that is owed and still runs is named by the record, so the next run will read it. */
  ghost predicate OwedIsNamed(s: State, run: Run, entry: Entry) {
    !s.files.removed && Owed(s, run, entry) ==>
      && OfThisBoot(s) && s.work.record.value.holder == run && !s.work.record.value.released
      && s.work.record.value.known
      && (entry, run) in s.work.record.value.lines
  }

  /** A run taking the lane over still has every owed entry before it. */
  ghost predicate OwedIsAwaited(s: State, run: Run, holder: Run, entry: Entry) {
    !s.files.removed && Owed(s, holder, entry) && run in s.phases ==>
      match s.phases[run]
      case Outwaiting(_, _, entries) => entry in entries
      case Ending(_, entries) => entry in entries
      case Replacing(_) => false
      case _ => true
  }

  /** Nothing of the work changed, and `run` neither came to nor left a phase that matters to it, but by giving up. */
  ghost predicate Quiet(s: State, t: State, run: Run) {
    && t.work == s.work && t.files.removed == s.files.removed
    && (run in s.phases ==> run in t.phases)
    && (run in t.phases && (run !in s.phases || t.phases[run] != s.phases[run]) ==>
          && (run in s.phases ==> !MayHaveHeld(s, run))
          && (t.phases[run].Out? || TicketOf(t.phases[run]).Some? || t.phases[run].Ticketing? || t.phases[run].Taking?))
  }

  lemma LineStepsAreQuiet(s: State, run: Run, step: LineStep, one: Run)
    requires run in s.phases && LineEnabled(s, run, step)
    ensures Quiet(s, NextInLine(s, run, step), one)
  {
  }

  lemma LockStepsAreQuiet(s: State, run: Run, step: LockStep, one: Run)
    requires run in s.phases && LockEnabled(s, run, step)
    ensures Quiet(s, NextAtLock(s, run, step), one)
  {
  }

  /** What is known of one run taking the lane, one that held it, and one entry of its work. */
  ghost predicate WorkKept(s: State, run: Run, holder: Run, entry: Entry) {
    && RecordIsOfRuns(s, entry, holder) && Outlasted(s, run, entry) && RecordedByHolder(s, holder, entry)
    && RecordIsHolders(s, run) && RecordIsHolders(s, holder)
    && OwedIsNamed(s, holder, entry) && OwedIsAwaited(s, run, holder, entry)
  }

  lemma QuietStepsKeepWork(s: State, t: State, run: Run, holder: Run, entry: Entry)
    requires WorkKept(s, run, holder, entry) && Quiet(s, t, run) && Quiet(s, t, holder)
    requires s.work.record.Some? ==> Quiet(s, t, s.work.record.value.holder)
    requires run in s.work.took && s.work.took[run].Work? ==> Quiet(s, t, s.work.took[run].holder)
    ensures WorkKept(t, run, holder, entry)
  {
  }

  lemma OverStepsKeepRecord(s: State, run: Run, step: OverStep, holder: Run, entry: Entry)
    requires run in s.phases && OverEnabled(s, run, step)
    requires RecordIsOfRuns(s, entry, holder) && RecordedByHolder(s, holder, entry) && RecordedByHolder(s, run, entry)
    ensures RecordIsOfRuns(NextOver(s, run, step), entry, holder)
    ensures RecordedByHolder(NextOver(s, run, step), holder, entry)
  {
    hide SeenOver;
  }

  lemma OverStepsKeepReading(s: State, run: Run, step: OverStep, one: Run, entry: Entry)
    requires run in s.phases && OverEnabled(s, run, step)
    requires Outlasted(s, one, entry)
    requires s.work.record.Some? ==> RecordIsOfRuns(s, entry, s.work.record.value.holder)
    ensures Outlasted(NextOver(s, run, step), one, entry)
  {
    hide SeenOver, Spent;
    SpentAlike(s, NextOver(s, run, step), entry);
    if step.GroupGone? { SeenOverMeansSpent(s, step.entry); }
  }

  lemma OverStepsKeepHolder(s: State, run: Run, step: OverStep, one: Run, holder: Run, entry: Entry)
    requires run in s.phases && OverEnabled(s, run, step)
    requires WorkKept(s, one, holder, entry) && WorkKept(s, run, one, entry)
    requires OneFile(s) && LockHeld(s, one) && LockHeld(s, run)
    ensures RecordIsHolders(NextOver(s, run, step), one)
  {
  }

  lemma OverStepsKeepOwed(s: State, run: Run, step: OverStep, one: Run, holder: Run, entry: Entry)
    requires run in s.phases && OverEnabled(s, run, step)
    requires WorkKept(s, one, holder, entry) && WorkKept(s, run, holder, entry)
    requires OneFile(s) && LockHeld(s, one) && LockHeld(s, run) && LockHeld(s, holder)
    ensures OwedIsNamed(NextOver(s, run, step), holder, entry)
    ensures OwedIsAwaited(NextOver(s, run, step), one, holder, entry)
  {
    hide SeenOver;
    if step.GroupGone? { SeenOverMeansSpent(s, step.entry); }
    if s.work.record.Some? && s.work.record.value.holder == holder && (entry, holder) in s.work.record.value.lines {
      assert entry in EntriesUnder(s.work.record.value);
    }
  }

  lemma RunStepsKeepRecord(s: State, run: Run, step: RunStep, holder: Run, entry: Entry)
    requires RunEnabled(s, run, step)
    requires RecordIsOfRuns(s, entry, holder) && RecordedByHolder(s, holder, entry) && RecordIsHolders(s, run)
    ensures RecordIsOfRuns(NextOfRun(s, run, step), entry, holder)
    ensures RecordedByHolder(NextOfRun(s, run, step), holder, entry)
  {
  }

  lemma RunStepsKeepReading(s: State, run: Run, step: RunStep, one: Run, entry: Entry)
    requires RunEnabled(s, run, step) && Outlasted(s, one, entry)
    ensures Outlasted(NextOfRun(s, run, step), one, entry)
  {
    hide Spent;
    SpentAlike(s, NextOfRun(s, run, step), entry);
  }

  lemma SpentAlike(s: State, t: State, entry: Entry)
    ensures s.work.leading == t.work.leading && s.work.running == t.work.running ==>
              (Spent(s, entry) <==> Spent(t, entry))
  {
  }

  lemma RunStepsKeepOwed(s: State, run: Run, step: RunStep, one: Run, holder: Run, entry: Entry)
    requires RunEnabled(s, run, step)
    requires WorkKept(s, one, holder, entry) && WorkKept(s, run, holder, entry)
    requires OneFile(s) && LockHeld(s, one) && LockHeld(s, run) && LockHeld(s, holder)
    ensures RecordIsHolders(NextOfRun(s, run, step), one)
    ensures OwedIsNamed(NextOfRun(s, run, step), holder, entry)
    ensures OwedIsAwaited(NextOfRun(s, run, step), one, holder, entry)
  {
  }

  /** A group's work, its leader's end or its start change what is spent only one way. */
  lemma WorldStepsKeepReading(s: State, step: WorldStep, one: Run, holder: Run, entry: Entry)
    requires WorldEnabled(s, step) && RecordIsOfRuns(s, entry, holder) && Outlasted(s, one, entry)
    ensures Outlasted(NextOfWorld(s, step), one, entry)
  {
    hide RecordIsOfRuns, Spent;
    SpentStays(s, step, entry);
  }

  lemma SpentStays(s: State, step: WorldStep, entry: Entry)
    requires WorldEnabled(s, step)
    ensures entry.group in s.work.spawned && Spent(s, entry) ==> Spent(NextOfWorld(s, step), entry)
  {
  }

  lemma WorldStepsKeepRecord(s: State, step: WorldStep, holder: Run, entry: Entry)
    requires WorldEnabled(s, step) && RecordIsOfRuns(s, entry, holder) && RecordedByHolder(s, holder, entry)
    ensures RecordIsOfRuns(NextOfWorld(s, step), entry, holder)
    ensures RecordedByHolder(NextOfWorld(s, step), holder, entry)
  {
  }

  lemma WorldStepsKeepOwed(s: State, step: WorldStep, one: Run, holder: Run, entry: Entry)
    requires WorldEnabled(s, step)
    requires WorkKept(s, one, holder, entry)
    ensures RecordIsHolders(NextOfWorld(s, step), one)
    ensures OwedIsNamed(NextOfWorld(s, step), holder, entry)
    ensures OwedIsAwaited(NextOfWorld(s, step), one, holder, entry)
  {
  }

  // ---------------------------------------------------------------- what every reachable state keeps

  ghost predicate Kept(s: State) {
    && LineKept(s) && OneFile(s)
    && (forall run :: LockHeld(s, run))
    && (forall run, holder, entry :: WorkKept(s, run, holder, entry))
  }

  lemma LocksAreKept(s: State, a: Action, one: Run)
    requires Kept(s) && Enabled(s, a)
    ensures OneFile(Next(s, a)) && LockHeld(Next(s, a), one)
  {
    match a
    case InLine(run, step) => LineStepsKeepLocks(s, run, step, one);
    case AtLock(run, step) => LockStepsKeepLocks(s, run, step, one);
    case TakingOver(run, step) => OverStepsKeepLocks(s, run, step, one);
    case OfRun(run, step) => RunStepsKeepLocks(s, run, step, one);
    case OfWorld(step) => WorldStepsKeepLocks(s, step, one);
  }

  lemma QuietActionsKeepWork(s: State, a: Action, one: Run, holder: Run, entry: Entry)
    requires Kept(s) && Enabled(s, a) && (a.InLine? || a.AtLock?)
    ensures WorkKept(Next(s, a), one, holder, entry)
  {
    var t := Next(s, a);
    forall run ensures Quiet(s, t, run) {
      match a
      case InLine(mover, step) => LineStepsAreQuiet(s, mover, step, run);
      case AtLock(mover, step) => LockStepsAreQuiet(s, mover, step, run);
    }
    QuietStepsKeepWork(s, t, one, holder, entry);
  }

  lemma OverStepsKeepWork(s: State, run: Run, step: OverStep, one: Run, holder: Run, entry: Entry)
    requires Kept(s) && run in s.phases && OverEnabled(s, run, step)
    ensures WorkKept(NextOver(s, run, step), one, holder, entry)
  {
    hide NextOver, OverEnabled, Outlasted, RecordIsHolders, OwedIsNamed, OwedIsAwaited, RecordedByHolder;
    assert WorkKept(s, one, holder, entry) && WorkKept(s, run, one, entry) && WorkKept(s, run, holder, entry);
    if s.work.record.Some? { assert WorkKept(s, run, s.work.record.value.holder, entry); }
    assert WorkKept(s, run, run, entry);
    OverStepsKeepRecord(s, run, step, holder, entry);
    OverStepsKeepReading(s, run, step, one, entry);
    OverStepsKeepHolder(s, run, step, one, holder, entry);
    assert WorkKept(s, holder, holder, entry);
    OverStepsKeepHolder(s, run, step, holder, holder, entry);
    OverStepsKeepOwed(s, run, step, one, holder, entry);
  }

  lemma RunStepsKeepWork(s: State, run: Run, step: RunStep, one: Run, holder: Run, entry: Entry)
    requires Kept(s) && RunEnabled(s, run, step)
    ensures WorkKept(NextOfRun(s, run, step), one, holder, entry)
  {
    hide NextOfRun, RunEnabled, Outlasted, OwedIsNamed, OwedIsAwaited, RecordedByHolder, RecordIsOfRuns;
    assert WorkKept(s, one, holder, entry) && WorkKept(s, run, holder, entry) && WorkKept(s, holder, holder, entry);
    RunStepsKeepRecord(s, run, step, holder, entry);
    RunStepsKeepReading(s, run, step, one, entry);
    RunStepsKeepOwed(s, run, step, one, holder, entry);
    RunStepsKeepOwed(s, run, step, holder, holder, entry);
  }

  lemma WorldStepsKeepWork(s: State, step: WorldStep, one: Run, holder: Run, entry: Entry)
    requires Kept(s) && WorldEnabled(s, step)
    ensures WorkKept(NextOfWorld(s, step), one, holder, entry)
  {
    hide NextOfWorld, WorldEnabled, Outlasted, RecordIsHolders, OwedIsNamed, OwedIsAwaited, RecordedByHolder,
        RecordIsOfRuns;
    assert WorkKept(s, one, holder, entry) && WorkKept(s, holder, holder, entry);
    WorldStepsKeepReading(s, step, one, holder, entry);
    WorldStepsKeepRecord(s, step, holder, entry);
    WorldStepsKeepOwed(s, step, one, holder, entry);
    WorldStepsKeepOwed(s, step, holder, holder, entry);
  }

  lemma WorkIsKept(s: State, a: Action, one: Run, holder: Run, entry: Entry)
    requires Kept(s) && Enabled(s, a)
    ensures WorkKept(Next(s, a), one, holder, entry)
  {
    hide Kept, WorkKept;
    match a
    case TakingOver(run, step) => OverStepsKeepWork(s, run, step, one, holder, entry);
    case OfRun(run, step) => RunStepsKeepWork(s, run, step, one, holder, entry);
    case OfWorld(step) => WorldStepsKeepWork(s, step, one, holder, entry);
    case _ => QuietActionsKeepWork(s, a, one, holder, entry);
  }

  lemma StepKeeps(s: State, a: Action)
    requires Kept(s)
    ensures Kept(Step(s, a))
  {
    if Enabled(s, a) {
      LineIsKept(s, a);
      forall run ensures LockHeld(Next(s, a), run) { LocksAreKept(s, a, run); }
      LocksAreKept(s, a, 0);
      forall run, holder, entry ensures WorkKept(Next(s, a), run, holder, entry) {
        WorkIsKept(s, a, run, holder, entry);
      }
    }
  }

  lemma {:induction false} EveryRunKeeps(s: State, actions: seq<Action>)
    requires Kept(s)
    ensures Kept(After(s, actions))
    decreases |actions|
  {
    if actions != [] {
      StepKeeps(s, actions[0]);
      EveryRunKeeps(Step(s, actions[0]), actions[1..]);
    }
  }

  lemma ReachableIsKept(actions: seq<Action>)
    ensures Kept(After(INITIAL, actions))
  {
    EveryRunKeeps(INITIAL, actions);
  }

  // ---------------------------------------------------------------- the protocol's promises

  /**
   Over every interleaving with crashes, until a lock file is removed: one run at most holds the
   lane's lock; and while one holds the lane, no leader of any other holder's recorded and unreleased
   work runs, and no process at all of such work whose line names its session.  Recorded is every line
   finished under the holder of this boot's record, alive or dead, before a run read it to replace it, and
   every line any run read; `LateLineRunsUnderAnother` is a line finished after the last reading.
   */
  lemma OneLaneOneWork(actions: seq<Action>, run: Run, other: Run, entry: Entry)
    requires var s := After(INITIAL, actions); !s.files.removed && run in s.phases
    ensures var s := After(INITIAL, actions);
            && (HasLock(s.phases[run]) && other in s.phases && HasLock(s.phases[other]) ==> run == other)
            && (Holds(s, run) && other != run && Unreleased(s, other, entry) ==>
                  entry.group !in s.work.leading && (entry.tied ==> entry.group !in s.work.running))
  {
    ReachableIsKept(actions);
    var s := After(INITIAL, actions);
    if other in s.phases && HasLock(s.phases[run]) && HasLock(s.phases[other]) {
      OneHolder(s, run, other);
    }
    assert WorkKept(s, run, other, entry);
  }

  /** Recorded work of a holder whose record says when it started, the holder having said nothing of letting go. */
  ghost predicate Unreleased(s: State, run: Run, entry: Entry) {
    (run, entry) in s.work.recorded && run in s.work.known && run !in s.work.left
  }

  /**
   Over every interleaving, lock files removed or not: a run that holds the lane saw the holder whose
   unreleased work it read dead, and a look at every group of that work say it is over, as it would still.
   */
  lemma HoldOutlastsWhatItRead(actions: seq<Action>, run: Run)
    requires Holds(After(INITIAL, actions), run)
    ensures var s := After(INITIAL, actions);
            && run in s.work.took
            && (s.work.took[run].Work? ==>
                  && !Alive(s, s.work.took[run].holder)
                  && forall entry | entry in s.work.took[run].entries :: SeenOver(s, entry) && Spent(s, entry))
  {
    ReachableIsKept(actions);
    var s := After(INITIAL, actions);
    assert WorkKept(s, run, run, Entry(0, true));
    if s.work.took[run].Work? {
      forall entry | entry in s.work.took[run].entries ensures SeenOver(s, entry) && Spent(s, entry) {
        assert WorkKept(s, run, run, entry);
        SeenOverMeansSpent(s, entry);
      }
    }
  }

  /**
   Over every interleaving: a run past the check that it is first, up to the moment its marker goes
   with the lock in hand, took its place in line before every other live run that waits there.
   */
  lemma FirstComeFirstServed(actions: seq<Action>, run: Run, other: Run)
    requires var s := After(INITIAL, actions);
             run in s.phases && InFront(s.phases[run]) && Queued(s, other) && other != run
    ensures var s := After(INITIAL, actions); OrderOf(s, run) < OrderOf(s, other)
  {
    ReachableIsKept(actions);
    var s := After(INITIAL, actions);
    assert Ranked(s, run, other) && Ranked(s, other, run);
  }

  // ---------------------------------------------------------------- a whole look, a whole reading of the line

  /** The step reads, for `run`, a marker of a run it takes for alive, and the ticket in it. */
  ghost predicate Reads(s: State, a: Action, run: Run, looking: bool, other: Run, ticket: nat) {
    && (exists mistaken ::
          && a == InLine(run, if looking then LookAt(other, mistaken) else ReadMarker(other, mistaken))
          && (mistaken || (other in s.phases && s.phases[other] != Gone)))
    && Enabled(s, a) && other in s.queue.markers && s.queue.markers[other] == ticket
  }

  /** On the way through `actions`, `run` reads the marker of `other` as alive, with this ticket. */
  ghost predicate ReadOnTheWay(s: State, actions: seq<Action>, run: Run, looking: bool, other: Run, ticket: nat)
    decreases |actions|
  {
    actions != []
    && (|| Reads(s, actions[0], run, looking, other, ticket)
        || ReadOnTheWay(Step(s, actions[0]), actions[1..], run, looking, other, ticket))
  }

  /** On the way through `actions`, `run` comes to the marker of `other`, whatever it reads there. */
  ghost predicate ComeToOnTheWay(s: State, actions: seq<Action>, run: Run, looking: bool, other: Run)
    decreases |actions|
  {
    actions != []
    && (|| (Enabled(s, actions[0]) && exists mistaken ::
              actions[0] == InLine(run, if looking then LookAt(other, mistaken) else ReadMarker(other, mistaken)))
        || ComeToOnTheWay(Step(s, actions[0]), actions[1..], run, looking, other))
  }

  /** A run stands in a look, or in reading the line, with these markers to come to. */
  ghost predicate StandsIn(s: State, run: Run, looking: bool) {
    run in s.phases && if looking then s.phases[run].Looking? else s.phases[run].Ticketing?
  }

  /** A run that gave up or died stays so. */
  predicate GaveUp(s: State, run: Run) {
    run in s.phases && (s.phases[run].Out? || s.phases[run].Gone?)
  }

  lemma {:induction false} GivingUpStays(s: State, actions: seq<Action>, run: Run)
    requires GaveUp(s, run)
    ensures GaveUp(After(s, actions), run)
    decreases |actions|
  {
    hide SeenOver;
    if actions != [] {
      GivingUpStays(Step(s, actions[0]), actions[1..], run);
    }
  }

  /** A run in a look is still in it after any step but its decision, or gave up. */
  lemma StaysIn(s: State, a: Action, run: Run, looking: bool)
    requires StandsIn(s, run, looking) && a != InLine(run, Decide) && (!looking ==> a != InLine(run, WriteMarker))
    ensures StandsIn(Step(s, a), run, looking) || GaveUp(Step(s, a), run)
  {
    hide SeenOver;
  }

  /**
   One step of a look: the run falls behind by it exactly where it reads a lower ticket, or the same one of
   a lower id.
   */
  lemma OneStepOfALook(s: State, a: Action, run: Run)
    requires StandsIn(s, run, true) && StandsIn(Step(s, a), run, true)
    ensures Step(s, a).phases[run].ticket == s.phases[run].ticket
    ensures Step(s, a).phases[run].ahead <==>
            s.phases[run].ahead || ReadsLower(s, a, run, s.phases[run].ticket)
    ensures forall other | other in s.phases[run].todo ::
              other in Step(s, a).phases[run].todo
              || (Enabled(s, a) && exists mistaken :: a == InLine(run, LookAt(other, mistaken)))
  {
    hide SeenOver;
    if a.InLine? && a.run == run && a.line.LookAt? && Enabled(s, a) && a.line.other in s.queue.markers {
      assert a == InLine(run, LookAt(a.line.other, a.line.mistaken));
      assert (a.line.mistaken || (a.line.other in s.phases && s.phases[a.line.other] != Gone)) <==>
             Reads(s, a, run, true, a.line.other, s.queue.markers[a.line.other]);
    }
  }

  /** The step reads a lower ticket, or the same ticket of a lower id. */
  ghost predicate ReadsLower(s: State, a: Action, run: Run, ticket: nat) {
    exists other: Run, held: nat ::
      Reads(s, a, run, true, other, held) && (held < ticket || (held == ticket && other < run))
  }

  lemma BehindByAnyStep(s: State, actions: seq<Action>, run: Run, ticket: nat)
    requires actions != []
    ensures BehindAnother(s, actions, run, ticket) <==>
            ReadsLower(s, actions[0], run, ticket) || BehindAnother(Step(s, actions[0]), actions[1..], run, ticket)
  {
    hide Reads, Step;
    var a, next := actions[0], Step(s, actions[0]);
    if ReadsLower(s, a, run, ticket) {
      var other: Run, held: nat :|
        Reads(s, a, run, true, other, held) && (held < ticket || (held == ticket && other < run));
      assert ReadOnTheWay(s, actions, run, true, other, held);
    }
    if BehindAnother(next, actions[1..], run, ticket) {
      var other: Run, held: nat :|
        ReadOnTheWay(next, actions[1..], run, true, other, held) && (held < ticket || (held == ticket && other < run));
      assert ReadOnTheWay(s, actions, run, true, other, held);
    }
    if BehindAnother(s, actions, run, ticket) {
      var other: Run, held: nat :|
        ReadOnTheWay(s, actions, run, true, other, held) && (held < ticket || (held == ticket && other < run));
      assert Reads(s, a, run, true, other, held) || ReadOnTheWay(next, actions[1..], run, true, other, held);
    }
  }

  /** A marker read on the way holds a lower ticket, or the same ticket and is of a lower id. */
  ghost predicate BehindAnother(s: State, actions: seq<Action>, run: Run, ticket: nat) {
    exists other: Run, held: nat ::
      ReadOnTheWay(s, actions, run, true, other, held) && (held < ticket || (held == ticket && other < run))
  }

  lemma NothingOnTheWay(s: State, run: Run)
    ensures forall ticket :: !BehindAnother(s, [], run, ticket)
  {
  }

  lemma {:induction false} LookSaysWhatItRead(s: State, actions: seq<Action>, run: Run)
    requires StandsIn(s, run, true) && StandsIn(After(s, actions), run, true) && InLine(run, Decide) !in actions
    ensures After(s, actions).phases[run].ticket == s.phases[run].ticket
    ensures After(s, actions).phases[run].ahead <==>
            s.phases[run].ahead || BehindAnother(s, actions, run, s.phases[run].ticket)
    ensures forall other | other in s.phases[run].todo && other !in After(s, actions).phases[run].todo ::
              ComeToOnTheWay(s, actions, run, true, other)
    decreases |actions|
  {
    hide Step, Reads, ReadsLower, BehindAnother;
    if actions == [] {
      assert !BehindAnother(s, actions, run, s.phases[run].ticket) by { NothingOnTheWay(s, run); }
    } else {
      var a, next := actions[0], Step(s, actions[0]);
      StaysIn(s, a, run, true);
      if GaveUp(next, run) { GivingUpStays(next, actions[1..], run); }
      OneStepOfALook(s, a, run);
      LookSaysWhatItRead(next, actions[1..], run);
      BehindByAnyStep(s, actions, run, s.phases[run].ticket);
    }
  }

  /**
   A whole look, whatever else happens meanwhile: the run comes out first exactly when no marker it read as
   alive held a lower ticket, or the same one of a lower id, and it came to every marker there was.
   */
  lemma LookIsExact(s: State, between: seq<Action>, run: Run)
    requires run in s.phases && s.phases[run].Waiting? && InLine(run, Decide) !in between
    requires var t := After(Step(s, InLine(run, Look)), between);
             run in t.phases && LineEnabled(t, run, Decide)
    ensures var looking, ticket := Step(s, InLine(run, Look)), s.phases[run].ticket;
            Step(After(looking, between), InLine(run, Decide)).phases[run]
            == if BehindAnother(looking, between, run, ticket) then Waiting(ticket) else First(ticket)
    ensures forall other | other in s.queue.markers && other != run ::
              ComeToOnTheWay(Step(s, InLine(run, Look)), between, run, true, other)
  {
    hide SeenOver, BehindAnother, ComeToOnTheWay;
    LookSaysWhatItRead(Step(s, InLine(run, Look)), between, run);
  }

  /** The step reads the ticket before this one. */
  ghost predicate ReadsJustBelow(s: State, a: Action, run: Run, ticket: nat) {
    exists other: Run, held: nat :: Reads(s, a, run, false, other, held) && ticket == held + 1
  }

  /** The ticket before this one was read on the way. */
  ghost predicate JustAbove(s: State, actions: seq<Action>, run: Run, ticket: nat) {
    exists other: Run, held: nat :: ReadOnTheWay(s, actions, run, false, other, held) && ticket == held + 1
  }

  lemma JustAboveByAnyStep(s: State, actions: seq<Action>, run: Run, ticket: nat)
    requires actions != []
    ensures JustAbove(s, actions, run, ticket) <==>
            ReadsJustBelow(s, actions[0], run, ticket) || JustAbove(Step(s, actions[0]), actions[1..], run, ticket)
  {
    hide Reads, Step;
    var a, next := actions[0], Step(s, actions[0]);
    if ReadsJustBelow(s, a, run, ticket) {
      var other: Run, held: nat :| Reads(s, a, run, false, other, held) && ticket == held + 1;
      assert ReadOnTheWay(s, actions, run, false, other, held);
    }
    if JustAbove(next, actions[1..], run, ticket) {
      var other: Run, held: nat :| ReadOnTheWay(next, actions[1..], run, false, other, held) && ticket == held + 1;
      assert ReadOnTheWay(s, actions, run, false, other, held);
    }
    if JustAbove(s, actions, run, ticket) {
      var other: Run, held: nat :| ReadOnTheWay(s, actions, run, false, other, held) && ticket == held + 1;
      assert Reads(s, a, run, false, other, held) || ReadOnTheWay(next, actions[1..], run, false, other, held);
    }
  }

  /** One step of reading the line: the ticket due is raised just above a greater one read. */
  lemma OneStepOfReading(s: State, a: Action, run: Run)
    requires StandsIn(s, run, false) && StandsIn(Step(s, a), run, false)
    ensures var before, now := s.phases[run].next, Step(s, a).phases[run].next;
            && before <= now && (forall other: Run, held: nat :: Reads(s, a, run, false, other, held) ==> held < now)
            && (now == before || ReadsJustBelow(s, a, run, now))
    ensures forall other | other in s.phases[run].todo ::
              other in Step(s, a).phases[run].todo
              || (Enabled(s, a) && exists mistaken :: a == InLine(run, ReadMarker(other, mistaken)))
  {
    hide SeenOver;
    if a.InLine? && a.run == run && a.line.ReadMarker? && Enabled(s, a) && a.line.other in s.queue.markers {
      assert a == InLine(run, ReadMarker(a.line.other, a.line.mistaken));
      assert (a.line.mistaken || (a.line.other in s.phases && s.phases[a.line.other] != Gone)) <==>
             Reads(s, a, run, false, a.line.other, s.queue.markers[a.line.other]);
    }
  }

  lemma {:induction false} ReadingSaysWhatItRead(s: State, actions: seq<Action>, run: Run)
    requires StandsIn(s, run, false) && StandsIn(After(s, actions), run, false)
    requires InLine(run, Decide) !in actions && InLine(run, WriteMarker) !in actions
    ensures var before, now := s.phases[run].next, After(s, actions).phases[run].next;
            && before <= now
            && (forall other: Run, held: nat :: ReadOnTheWay(s, actions, run, false, other, held) ==> held < now)
            && (now == before || JustAbove(s, actions, run, now))
    ensures forall other | other in s.phases[run].todo && other !in After(s, actions).phases[run].todo ::
              ComeToOnTheWay(s, actions, run, false, other)
    decreases |actions|
  {
    hide Step, Reads, ReadsJustBelow, JustAbove;
    if actions != [] {
      var a, next := actions[0], Step(s, actions[0]);
      StaysIn(s, a, run, false);
      if GaveUp(next, run) { GivingUpStays(next, actions[1..], run); }
      OneStepOfReading(s, a, run);
      ReadingSaysWhatItRead(next, actions[1..], run);
      JustAboveByAnyStep(s, actions, run, After(s, actions).phases[run].next);
    }
  }

  /**
   A whole reading of the line: the ticket a run takes is above every ticket it read as of a live run, and
   just above the greatest of them, or the first where it read none; and it came to every marker there was.
   */
  lemma TicketIsNext(s: State, between: seq<Action>, run: Run)
    requires run in s.phases && LineEnabled(s, run, LockLine)
    requires InLine(run, Decide) !in between && InLine(run, WriteMarker) !in between
    requires var t := After(Step(s, InLine(run, LockLine)), between);
             run in t.phases && LineEnabled(t, run, WriteMarker)
    ensures var reading := Step(s, InLine(run, LockLine));
            var t := Step(After(reading, between), InLine(run, WriteMarker));
            && t.phases[run].Marked? && run in t.queue.markers && t.queue.markers[run] == t.phases[run].ticket
            && (forall other: Run, held: nat :: ReadOnTheWay(reading, between, run, false, other, held) ==>
                held < t.phases[run].ticket)
            && (t.phases[run].ticket == 0 || JustAbove(reading, between, run, t.phases[run].ticket))
    ensures forall other | other in s.queue.markers ::
              ComeToOnTheWay(Step(s, InLine(run, LockLine)), between, run, false, other)
  {
    hide SeenOver, ReadOnTheWay, ComeToOnTheWay;
    ReadingSaysWhatItRead(Step(s, InLine(run, LockLine)), between, run);
  }

  // ---------------------------------------------------------------- who can come first

  /** Looks of `run` alone at one marker and another, none of them misread. */
  ghost predicate OwnLook(own: seq<Action>, run: Run) {
    forall a | a in own :: a.InLine? && a.run == run && a.line.LookAt? && !a.line.mistaken
  }

  /** Of some runs, one that lives has a marker with a lower ticket, or the same one and a lower id. */
  ghost predicate LiveAhead(s: State, run: Run, some: set<Run>, ticket: nat) {
    exists other :: other in some && IsAhead(s, run, other, ticket)
  }

  ghost predicate IsAhead(s: State, run: Run, other: Run, ticket: nat) {
    && other in s.phases && s.phases[other] != Gone && other in s.queue.markers
    && (s.queue.markers[other] < ticket || (s.queue.markers[other] == ticket && other < run))
  }

  lemma OneOwnLook(s: State, a: Action, run: Run)
    requires StandsIn(s, run, true) && run !in s.phases[run].todo && OwnLook([a], run)
    ensures var t := Step(s, a);
            && StandsIn(t, run, true) && t.phases[run].ticket == s.phases[run].ticket
            && t.phases[run].todo <= s.phases[run].todo && t.phases - {run} == s.phases - {run}
            && (t.phases[run].ahead <==>
                s.phases[run].ahead
                || LiveAhead(s, run, s.phases[run].todo - t.phases[run].todo, s.phases[run].ticket))
    ensures forall other | other != run ::
              IsAhead(Step(s, a), run, other, s.phases[run].ticket) <==> IsAhead(s, run, other, s.phases[run].ticket)
  {
    assert a in [a];
    if Enabled(s, a) { assert a.line.other in s.phases[run].todo - Step(s, a).phases[run].todo; }
    forall other | other != run ensures other in Step(s, a).phases - {run} <==> other in s.phases {}
  }

  lemma {:induction false} OwnLooks(s: State, own: seq<Action>, run: Run)
    requires StandsIn(s, run, true) && run !in s.phases[run].todo && OwnLook(own, run)
    ensures var t := After(s, own);
            && StandsIn(t, run, true) && t.phases[run].ticket == s.phases[run].ticket
            && t.phases[run].todo <= s.phases[run].todo
            && (t.phases[run].ahead <==>
                s.phases[run].ahead
                || LiveAhead(s, run, s.phases[run].todo - t.phases[run].todo, s.phases[run].ticket))
    decreases |own|
  {
    hide Step, IsAhead;
    if own != [] {
      assert own[0] in own && forall a | a in own[1..] :: a in own;
      OneOwnLook(s, own[0], run);
      OwnLooks(Step(s, own[0]), own[1..], run);
    }
  }

  lemma {:induction false} LooksAlone(s: State, run: Run) returns (own: seq<Action>)
    requires StandsIn(s, run, true) && run !in s.phases[run].todo
    ensures OwnLook(own, run) && StandsIn(After(s, own), run, true) && After(s, own).phases[run].todo == {}
    decreases s.phases[run].todo
  {
    hide SeenOver;
    own := [];
    if other: Run :| other in s.phases[run].todo {
      var a := InLine(run, LookAt(other, false));
      OneOwnLook(s, a, run);
      own := LooksAlone(Step(s, a), run);
      own := [a] + own;
      assert own[1..] + [] == own[1..];
    }
  }

  /** Looking by itself, misreading nothing, the run comes out first. */
  ghost predicate ComesFirst(s: State, own: seq<Action>, run: Run) {
    && OwnLook(own, run)
    && var t := Step(After(Step(s, InLine(run, Look)), own), InLine(run, Decide));
       run in t.phases && t.phases[run].First?
  }

  /**
   Exactly when a waiting run can come out first by its own look alone: when no other run that lives has a
   marker with a lower ticket, or the same one and a lower id.  So of the runs that wait the first always can.
   */
  lemma CanComeFirst(s: State, run: Run)
    requires run in s.phases && s.phases[run].Waiting?
    ensures (exists own :: ComesFirst(s, own, run)) <==>
            forall other | other in s.queue.markers && other != run && other in s.phases && s.phases[other] != Gone ::
              s.queue.markers[other] > s.phases[run].ticket
              || (s.queue.markers[other] == s.phases[run].ticket && other > run)
  {
    hide SeenOver, After;
    var looking, ticket := Step(s, InLine(run, Look)), s.phases[run].ticket;
    var todo := s.queue.markers.Keys - {run};
    assert LiveAhead(looking, run, todo, ticket) <==>
           exists other :: other in todo && other in s.phases && s.phases[other] != Gone && other in s.queue.markers
                           && !(s.queue.markers[other] > ticket
                               || (s.queue.markers[other] == ticket && other > run)) by {
      forall other | other in todo ensures other in looking.phases <==> other in s.phases {}
    }
    var alone := LooksAlone(looking, run);
    OwnLooks(looking, alone, run);
    assert todo - {} == todo;
    if !LiveAhead(looking, run, todo, ticket) {
      assert ComesFirst(s, alone, run);
    }
    forall own: seq<Action> | ComesFirst(s, own, run) ensures !LiveAhead(looking, run, todo, ticket) {
      OwnLooks(looking, own, run);
    }
  }

  /**
   First come, first let in: over every interleaving, a waiting run that comes out first by its own look took
   its place before every other live run in line; and it can where it did, and no run that gave up waiting
   left its marker behind.
   */
  lemma EarliestCanComeFirst(actions: seq<Action>, run: Run)
    requires var s := After(INITIAL, actions); run in s.phases && s.phases[run].Waiting?
    ensures var s := After(INITIAL, actions);
            (exists own :: ComesFirst(s, own, run)) ==>
              forall other | Queued(s, other) && other != run :: OrderOf(s, run) < OrderOf(s, other)
    ensures var s := After(INITIAL, actions);
            && (forall other | Queued(s, other) && other != run :: OrderOf(s, run) < OrderOf(s, other))
            && (forall other | other in s.queue.markers && Alive(s, other) :: Queued(s, other)) ==>
              exists own :: ComesFirst(s, own, run)
  {
    hide SeenOver, ComesFirst;
    ReachableIsKept(actions);
    var s := After(INITIAL, actions);
    CanComeFirst(s, run);
    assert Placed(s, run);
    forall other | Queued(s, other) && other != run
      ensures Ranked(s, run, other) && Ranked(s, other, run) && Placed(s, other) {}
  }

  // ---------------------------------------------------------------- places and markers

  /** A run that waits keeps its ticket until it takes the lane's lock for good, gives up or dies. */
  lemma PlaceIsKept(s: State, a: Action, run: Run)
    requires run in s.phases && TicketOf(s.phases[run]).Some?
    ensures run in Step(s, a).phases
    ensures var now := Step(s, a).phases[run];
            TicketOf(now) == TicketOf(s.phases[run]) || now.Taking? || now.Out? || now.Gone?
    ensures Step(s, a).phases[run].Taking? ==>
              s.phases[run].Named? && a == AtLock(run, RemoveMarker) && run !in Step(s, a).queue.markers
  {
    hide SeenOver;
  }

  /**
   Coming to a marker takes it away exactly where its run does not live and is not misread; nothing else but
   a run's own does.
   */
  lemma MarkersAreSwept(s: State, a: Action, other: Run)
    requires other in s.queue.markers
    ensures other !in Step(s, a).queue.markers ==>
              || a == InLine(other, Leave) || a == AtLock(other, RemoveMarker)
              || (!Alive(s, other) && exists run ::
                  a in {InLine(run, ReadMarker(other, false)), InLine(run, LookAt(other, false))})
    ensures forall run |
              a in {InLine(run, ReadMarker(other, false)), InLine(run, LookAt(other, false))} && Enabled(s, a) ::
              other in Step(s, a).queue.markers <==> Alive(s, other)
  {
    hide SeenOver;
  }

  // ---------------------------------------------------------------- a removed lock file

  /** Some steps lead from one state to the other. */
  ghost predicate Leads(s: State, t: State) {
    exists actions: seq<Action> :: After(s, actions) == t
  }

  lemma {:induction false} RunsJoin(s: State, first: seq<Action>, second: seq<Action>)
    ensures After(s, first + second) == After(After(s, first), second)
    decreases |first|
  {
    if first == [] {
      assert first + second == second;
    } else {
      assert (first + second)[1..] == first[1..] + second;
      RunsJoin(Step(s, first[0]), first[1..], second);
    }
  }

  lemma LeadsOn(s: State, t: State, a: Action)
    requires Leads(s, t)
    ensures Leads(s, Step(t, a))
  {
    var actions: seq<Action> :| After(s, actions) == t;
    RunsJoin(s, actions, [a]);
    assert [a][1..] == [];
    assert After(t, [a]) == After(Step(t, a), []);
    assert After(s, actions + [a]) == Step(t, a);
  }

  /** A run that asks for the lane alone, and what it left as it was. */
  ghost predicate AloneAt(s: State, t: State, run: Run, phase: Phase, marked: bool, reading: bool) {
    && run in t.phases && t.phases[run] == phase && t.phases - {run} == s.phases - {run}
    && t.queue.markers == (if marked then map[run := 0] else map[])
    && t.queue.turn == (if reading then Some(run) else None)
    && t.work == s.work && t.files.removed == s.files.removed
  }

  ghost predicate SameFiles(s: State, t: State) {
    t.files == s.files
  }

  /** Nobody waits or reads the line. */
  ghost predicate Free(s: State) {
    s.queue.turn.None? && s.queue.markers == map[]
  }

  lemma AloneStarts(s: State, run: Run)
    requires run !in s.phases && Free(s)
    ensures var t := Step(s, OfRun(run, Start)); AloneAt(s, t, run, Starting, false, false) && SameFiles(s, t)
  {
  }

  lemma AloneReadsTheLine(s: State, t: State, run: Run)
    requires AloneAt(s, t, run, Starting, false, false) && SameFiles(s, t)
    ensures var u := Step(t, InLine(run, LockLine));
            AloneAt(s, u, run, Ticketing({}, 0), false, true) && SameFiles(s, u)
  {
  }

  lemma AloneMarks(s: State, t: State, run: Run)
    requires AloneAt(s, t, run, Ticketing({}, 0), false, true) && SameFiles(s, t)
    ensures var u := Step(t, InLine(run, WriteMarker)); AloneAt(s, u, run, Marked(0), true, true) && SameFiles(s, u)
  {
  }

  lemma AloneWaits(s: State, t: State, run: Run)
    requires AloneAt(s, t, run, Marked(0), true, true) && SameFiles(s, t)
    ensures var u := Step(t, InLine(run, UnlockLine)); AloneAt(s, u, run, Waiting(0), true, false) && SameFiles(s, u)
  {
  }

  lemma AloneLooks(s: State, t: State, run: Run)
    requires AloneAt(s, t, run, Waiting(0), true, false) && SameFiles(s, t)
    ensures var u := Step(t, InLine(run, Look));
            AloneAt(s, u, run, Looking(0, {}, false), true, false) && SameFiles(s, u)
  {
  }

  lemma AloneDecides(s: State, t: State, run: Run)
    requires AloneAt(s, t, run, Looking(0, {}, false), true, false) && SameFiles(s, t)
    ensures var u := Step(t, InLine(run, Decide)); AloneAt(s, u, run, First(0), true, false) && SameFiles(s, u)
  {
  }

  /** The lock file a run that opens the lock's path comes to: the one there, or a new one. */
  function FileOf(s: State): Inode {
    if s.files.named.Some? then s.files.named.value else s.files.inodes
  }

  ghost predicate FileThere(s: State, t: State) {
    && t.files.named == Some(FileOf(s))
    && t.files.inodes == (if s.files.named.Some? then s.files.inodes else s.files.inodes + 1)
  }

  lemma AloneOpens(s: State, t: State, run: Run)
    requires AloneAt(s, t, run, First(0), true, false) && SameFiles(s, t)
    ensures var u := Step(t, AtLock(run, Open));
            AloneAt(s, u, run, Opened(0, FileOf(s)), true, false) && FileThere(s, u) && u.files.locks == s.files.locks
  {
  }

  lemma AloneLocks(s: State, t: State, run: Run)
    requires AloneAt(s, t, run, Opened(0, FileOf(s)), true, false) && FileThere(s, t) && t.files.locks == s.files.locks
    requires FileOf(s) !in s.files.locks
    ensures var u := Step(t, AtLock(run, TryLock));
            AloneAt(s, u, run, Locked(0, FileOf(s)), true, false) && FileThere(s, u)
                && u.files.locks == s.files.locks[FileOf(s) := run]
  {
  }

  lemma AloneChecks(s: State, t: State, run: Run)
    requires AloneAt(s, t, run, Locked(0, FileOf(s)), true, false) && FileThere(s, t)
    requires t.files.locks == s.files.locks[FileOf(s) := run]
    ensures var u := Step(t, AtLock(run, StillNamed));
            AloneAt(s, u, run, Named(0, FileOf(s)), true, false) && FileThere(s, u)
                && u.files.locks == s.files.locks[FileOf(s) := run]
  {
  }

  lemma AloneTakes(s: State, t: State, run: Run)
    requires AloneAt(s, t, run, Named(0, FileOf(s)), true, false) && FileThere(s, t)
    requires t.files.locks == s.files.locks[FileOf(s) := run]
    ensures var u := Step(t, AtLock(run, RemoveMarker));
            AloneAt(s, u, run, Taking(FileOf(s)), false, false) && FileThere(s, u)
                && u.files.locks == s.files.locks[FileOf(s) := run]
  {
  }

  /** A run alone in line for a free lane comes to take its lock. */
  lemma AloneTakesTheLane(s: State, run: Run) returns (t: State)
    requires run !in s.phases && Free(s) && FileOf(s) !in s.files.locks
    ensures Leads(s, t) && AloneAt(s, t, run, Taking(FileOf(s)), false, false) && FileThere(s, t)
    ensures t.files.locks == s.files.locks[FileOf(s) := run]
  {
    t := s;
    assert After(s, []) == s;
    AloneStarts(s, run);
    LeadsOn(s, t, OfRun(run, Start));
    t := Step(t, OfRun(run, Start));
    AloneReadsTheLine(s, t, run);
    LeadsOn(s, t, InLine(run, LockLine));
    t := Step(t, InLine(run, LockLine));
    AloneMarks(s, t, run);
    LeadsOn(s, t, InLine(run, WriteMarker));
    t := Step(t, InLine(run, WriteMarker));
    AloneWaits(s, t, run);
    LeadsOn(s, t, InLine(run, UnlockLine));
    t := Step(t, InLine(run, UnlockLine));
    AloneLooks(s, t, run);
    LeadsOn(s, t, InLine(run, Look));
    t := Step(t, InLine(run, Look));
    AloneDecides(s, t, run);
    LeadsOn(s, t, InLine(run, Decide));
    t := Step(t, InLine(run, Decide));
    t := FirstTakesTheLane(s, t, run);
  }

  lemma FirstTakesTheLane(s: State, first: State, run: Run) returns (t: State)
    requires Leads(s, first) && AloneAt(s, first, run, First(0), true, false) && SameFiles(s, first)
    requires FileOf(s) !in s.files.locks
    ensures Leads(s, t) && AloneAt(s, t, run, Taking(FileOf(s)), false, false) && FileThere(s, t)
    ensures t.files.locks == s.files.locks[FileOf(s) := run]
  {
    t := first;
    AloneOpens(s, t, run);
    LeadsOn(s, t, AtLock(run, Open));
    t := Step(t, AtLock(run, Open));
    AloneLocks(s, t, run);
    LeadsOn(s, t, AtLock(run, TryLock));
    t := Step(t, AtLock(run, TryLock));
    AloneChecks(s, t, run);
    LeadsOn(s, t, AtLock(run, StillNamed));
    t := Step(t, AtLock(run, StillNamed));
    AloneTakes(s, t, run);
    LeadsOn(s, t, AtLock(run, RemoveMarker));
    t := Step(t, AtLock(run, RemoveMarker));
  }

  // ---------------------------------------------------------------- finishing to take over

  /** No line of `entries` names the session of a group that is kept. */
  ghost predicate Avoids(entries: set<Entry>, kept: set<Group>) {
    forall entry | entry in entries && entry.group in kept :: !entry.tied
  }

  /**
   A run that has read the record, and waits neither on itself nor on `other`, nor to see a kept group's
   session empty.
   */
  ghost predicate CanFinish(s: State, run: Run, other: Run, kept: set<Group>) {
    && run in s.phases && run != other
    && match s.phases[run]
       case Outwaiting(_, holder, entries) => holder != run && holder != other && Avoids(entries, kept)
       case Ending(_, entries) => Avoids(entries, kept)
       case Replacing(_) => true
       case _ => false
  }

  /** What was left as it was: where `other` stands, the groups kept, and what is remembered of the work. */
  ghost predicate Spares(s: State, t: State, other: Run, kept: set<Group>) {
    && (other in s.phases ==> other in t.phases && t.phases[other] == s.phases[other])
    && kept * s.work.running <= t.work.running
    && t.work.recorded == s.work.recorded && t.work.left == s.work.left && s.work.known <= t.work.known
    && t.work.took == s.work.took && t.work.boot == s.work.boot && t.files.removed == s.files.removed
  }

  /** The entries a run has still to see gone. */
  function Awaited(phase: Phase): set<Entry> {
    if phase.Outwaiting? || phase.Ending? then phase.entries else {}
  }

  /** Some line of the group is among `entries`, with a session or without. */
  predicate Names(entries: set<Entry>, group: Group) {
    Entry(group, true) in entries || Entry(group, false) in entries
  }

  /** No leader ended but of a group named in `entries`. */
  ghost predicate LeadersStay(s: State, t: State, entries: set<Entry>) {
    forall group | group in s.work.leading && !Names(entries, group) :: group in t.work.leading
  }

  lemma FinishesReplacing(s: State, run: Run, other: Run, kept: set<Group>) returns (t: State)
    requires run in s.phases && s.phases[run].Replacing? && run != other
    ensures Leads(s, t) && Spares(s, t, other, kept) && LeadersStay(s, t, {})
    ensures Holds(t, run) && t.work.record == Some(Rec(run, true, Some(s.work.boot), {}, false))
  {
    assert After(s, []) == s;
    LeadsOn(s, s, TakingOver(run, Replace(true, true)));
    t := Step(s, TakingOver(run, Replace(true, true)));
  }

  lemma SeesOver(s: State, run: Run, other: Run, kept: set<Group>, entry: Entry) returns (t: State)
    requires run in s.phases && s.phases[run].Ending? && run != other && entry in s.phases[run].entries
    requires Avoids(s.phases[run].entries, kept)
    ensures Leads(s, t) && Spares(s, t, other, kept) && LeadersStay(s, t, {entry})
    ensures run in t.phases && t.phases[run] == Ending(s.phases[run].inode, s.phases[run].entries - {entry})
  {
    hide SeenOver;
    var ends := OfWorld(if entry.group in kept then LeaderEnds(entry.group) else GroupEnds(entry.group));
    assert After(s, []) == s;
    LeadsOn(s, s, ends);
    var ended := Step(s, ends);
    SeenOverMeansSpent(ended, entry);
    LeadsOn(s, ended, TakingOver(run, GroupGone(entry)));
    t := Step(ended, TakingOver(run, GroupGone(entry)));
  }

  lemma {:induction false} FinishesEnding(s: State, run: Run, other: Run, kept: set<Group>) returns (t: State)
    requires run in s.phases && s.phases[run].Ending? && run != other && Avoids(s.phases[run].entries, kept)
    ensures Leads(s, t) && Spares(s, t, other, kept) && LeadersStay(s, t, s.phases[run].entries)
    ensures Holds(t, run) && t.work.record == Some(Rec(run, true, Some(s.work.boot), {}, false))
    decreases |s.phases[run].entries|
  {
    hide SeenOver, After;
    var next: State;
    if s.phases[run].entries == {} {
      StaysPut(s);
      LeadsOn(s, s, TakingOver(run, AllGone));
      next := Step(s, TakingOver(run, AllGone));
      t := FinishesReplacing(next, run, other, kept);
    } else {
      var entry :| entry in s.phases[run].entries;
      next := SeesOver(s, run, other, kept, entry);
      t := FinishesEnding(next, run, other, kept);
    }
    LeadsThrough(s, next, t);
  }

  lemma StaysPut(s: State)
    ensures Leads(s, s)
  {
    assert After(s, []) == s;
  }

  /**
   A run that waits on nobody it must not comes to hold the lane, whoever it waits on dying and their work
   ending as far as it must.
   */
  lemma Finishes(s: State, run: Run, other: Run, kept: set<Group>) returns (t: State)
    requires CanFinish(s, run, other, kept)
    ensures Leads(s, t) && Spares(s, t, other, kept) && LeadersStay(s, t, Awaited(s.phases[run]))
    ensures Holds(t, run) && t.work.record == Some(Rec(run, true, Some(s.work.boot), {}, false))
  {
    hide SeenOver, After;
    StaysPut(s);
    if s.phases[run].Replacing? {
      t := FinishesReplacing(s, run, other, kept);
    } else if s.phases[run].Ending? {
      t := FinishesEnding(s, run, other, kept);
    } else {
      var holder := s.phases[run].holder;
      LeadsOn(s, s, OfRun(holder, Die));
      var dead := Step(s, OfRun(holder, Die));
      LeadsOn(s, dead, TakingOver(run, HolderGone));
      var next := Step(dead, TakingOver(run, HolderGone));
      t := FinishesEnding(next, run, other, kept);
      LeadsThrough(s, next, t);
    }
  }

  lemma LeadsThrough(s: State, t: State, u: State)
    requires Leads(s, t) && Leads(t, u)
    ensures Leads(s, u)
  {
    var first: seq<Action> :| After(s, first) == t;
    var second: seq<Action> :| After(t, second) == u;
    RunsJoin(s, first, second);
  }

  /** Removing the lock file of a holder whose record names no group yet lets a second run hold the lane beside it. */
  lemma RemovedFileLetsTwoHold() returns (s: State)
    ensures Leads(INITIAL, s) && Holds(s, 0) && Holds(s, 1)
  {
    hide SeenOver;
    StaysPut(INITIAL);
    var one := AloneHolds(INITIAL, 0, 1);
    var two := Step(one, OfWorld(RemoveLockFile));
    LeadsOn(INITIAL, one, OfWorld(RemoveLockFile));
    assert two == one.(files := one.files.(named := None, removed := true));
    assert EntriesUnder(two.work.record.value) == {};
    assert 1 !in one.phases - {0};
    s := AloneHolds(two, 1, 0);
    LeadsThrough(INITIAL, two, s);
  }

  /**
   A run alone in line for a free lane whose record leaves nothing to outlast comes to hold it, another run
   standing where it stood.
   */
  lemma AloneHolds(s: State, run: Run, other: Run) returns (t: State)
    requires run !in s.phases && Free(s) && FileOf(s) !in s.files.locks && LeftBy(s, true).Nothing? && run != other
    ensures Leads(s, t) && Holds(t, run) && t.work.record == Some(Rec(run, true, Some(s.work.boot), {}, false))
    ensures Free(t) && t.work.boot == s.work.boot && t.files.removed == s.files.removed
    ensures FileThere(s, t) && t.files.locks == s.files.locks[FileOf(s) := run]
    ensures t.phases - {run} == s.phases - {run}
    ensures other in s.phases ==> other in t.phases && t.phases[other] == s.phases[other]
    ensures t.work.known == s.work.known + {run} && t.work.left == s.work.left && t.work.recorded == s.work.recorded
    ensures t.work.spawned == s.work.spawned
  {
    hide SeenOver;
    t := AloneTakesTheLane(s, run);
    if other in s.phases { assert other in s.phases - {run} && other in t.phases - {run}; }
    assert LeftBy(t, true) == LeftBy(s, true);
    LeadsOn(s, t, TakingOver(run, ReadRecord(true)));
    var read := Step(t, TakingOver(run, ReadRecord(true)));
    assert read.phases == t.phases[run := Replacing(FileOf(s))] && read.phases - {run} == t.phases - {run};
    LeadsOn(s, read, TakingOver(run, Replace(true, true)));
    t := Step(read, TakingOver(run, Replace(true, true)));
  }

  /** A run past reading the record, and what it read. */
  ghost predicate HasRead(s: State, run: Run, read: Left) {
    && run in s.phases && run in s.work.took && s.work.took[run] == read
    && (MayHaveHeld(s, run) || s.phases[run].Outwaiting? || s.phases[run].Ending? || s.phases[run].Replacing?)
  }

  lemma LineStepsKeepRead(s: State, mover: Run, step: LineStep, run: Run, read: Left)
    requires HasRead(s, run, read) && mover in s.phases && LineEnabled(s, mover, step)
    ensures HasRead(NextInLine(s, mover, step), run, read)
  {
  }

  lemma LockStepsKeepRead(s: State, mover: Run, step: LockStep, run: Run, read: Left)
    requires HasRead(s, run, read) && mover in s.phases && LockEnabled(s, mover, step)
    ensures HasRead(NextAtLock(s, mover, step), run, read)
  {
  }

  lemma OverStepsKeepRead(s: State, mover: Run, step: OverStep, run: Run, read: Left)
    requires HasRead(s, run, read) && mover in s.phases && OverEnabled(s, mover, step)
    ensures HasRead(NextOver(s, mover, step), run, read)
  {
  }

  lemma OtherStepsKeepRead(s: State, a: Action, run: Run, read: Left)
    requires HasRead(s, run, read) && Enabled(s, a) && (a.OfRun? || a.OfWorld?)
    ensures HasRead(Next(s, a), run, read)
  {
    match a
    case OfRun(mover, step) => assert HasRead(NextOfRun(s, mover, step), run, read);
    case OfWorld(step) => assert HasRead(NextOfWorld(s, step), run, read);
  }

  lemma {:induction false} ReadIsKept(s: State, actions: seq<Action>, run: Run, read: Left)
    requires HasRead(s, run, read)
    ensures HasRead(After(s, actions), run, read)
    decreases |actions|
  {
    if actions != [] {
      var a := actions[0];
      if Enabled(s, a) {
        match a
        case InLine(mover, step) => LineStepsKeepRead(s, mover, step, run, read);
        case AtLock(mover, step) => LockStepsKeepRead(s, mover, step, run, read);
        case TakingOver(mover, step) => OverStepsKeepRead(s, mover, step, run, read);
        case _ => OtherStepsKeepRead(s, a, run, read);
      }
      ReadIsKept(Step(s, a), actions[1..], run, read);
    }
  }

  /** `run` came to hold the lane while `holder` lives. */
  ghost predicate HoldsOver(s: State, actions: seq<Action>, run: Run, holder: Run) {
    var t := After(s, actions);
    run in t.phases && t.phases[run].Holding? && Alive(t, holder)
  }

  lemma NothingToOutlast(s: State, run: Run, bootRead: bool)
    requires run in s.phases && s.phases[run].Taking? && s.work.record.Some? && Alive(s, s.work.record.value.holder)
    requires LeftBy(s, bootRead).Nothing?
    ensures HoldsOver(Step(s, TakingOver(run, ReadRecord(bootRead))), [TakingOver(run, Replace(true, true))], run,
                      s.work.record.value.holder)
  {
    var next := Step(s, TakingOver(run, ReadRecord(bootRead)));
    var more := [TakingOver(run, Replace(true, true))];
    assert more[1..] == [];
    assert next.phases[run].Replacing?;
    assert After(next, more) == Step(next, more[0]);
  }

  /** A run that came to hold the lane outlasted what it read. */
  lemma HoldOutlastsRead(actions: seq<Action>, run: Run, bootRead: bool, more: seq<Action>)
    requires var s := After(INITIAL, actions); run in s.phases && s.phases[run].Taking?
    requires var next := Step(After(INITIAL, actions), TakingOver(run, ReadRecord(bootRead)));
             Holds(After(next, more), run)
    ensures var s := After(INITIAL, actions);
            var t := After(Step(s, TakingOver(run, ReadRecord(bootRead))), more);
            LeftBy(s, bootRead).Work? ==>
              && !Alive(t, LeftBy(s, bootRead).holder)
              && forall entry | entry in LeftBy(s, bootRead).entries :: Spent(t, entry)
  {
    hide SeenOver;
    var s := After(INITIAL, actions);
    var read := TakingOver(run, ReadRecord(bootRead));
    var next := Step(s, read);
    assert HasRead(next, run, LeftBy(s, bootRead));
    ReadIsKept(next, more, run, LeftBy(s, bootRead));
    RunsJoin(INITIAL, actions, [read]);
    assert [read][1..] == [];
    assert After(s, [read]) == next;
    RunsJoin(INITIAL, actions + [read], more);
    HoldOutlastsWhatItRead(actions + [read] + more, run);
  }

  /**
   Exactly when a run takes the lane over a recorded holder that still lives: when what it reads of
   the record, at the moment it reads it, leaves nothing to outlast.
   */
  lemma LiveHolderIsPassedOver(actions: seq<Action>, run: Run, bootRead: bool)
    requires var s := After(INITIAL, actions);
             run in s.phases && s.phases[run].Taking? && s.work.record.Some? && Alive(s, s.work.record.value.holder)
    ensures var s := After(INITIAL, actions);
            LeftBy(s, bootRead).Nothing? <==>
            exists more: seq<Action> ::
              HoldsOver(Step(s, TakingOver(run, ReadRecord(bootRead))), more, run, s.work.record.value.holder)
  {
    hide SeenOver;
    var s := After(INITIAL, actions);
    var holder := s.work.record.value.holder;
    var next := Step(s, TakingOver(run, ReadRecord(bootRead)));
    if LeftBy(s, bootRead).Nothing? {
      NothingToOutlast(s, run, bootRead);
    } else {
      forall more: seq<Action> ensures !HoldsOver(next, more, run, holder) {
        if Holds(After(next, more), run) { HoldOutlastsRead(actions, run, bootRead, more); }
      }
    }
  }

  // ---------------------------------------------------------------- when two can hold

  /** A run past the lock that has not let the lane go. */
  ghost predicate TakesOver(phase: Phase) {
    phase.Taking? || phase.Outwaiting? || phase.Ending? || phase.Replacing? || phase.Holding?
  }

  ghost predicate BothHold(s: State, actions: seq<Action>, run: Run, other: Run) {
    Holds(After(s, actions), run) && Holds(After(s, actions), other)
  }

  /** A run that has read the record waits on nobody that has not held the lane. */
  lemma WaitsOnHolders(s: State, run: Run, other: Run)
    requires Kept(s) && run in s.phases && other in s.phases && run != other
    requires !MayHaveHeld(s, other)
    requires s.phases[run].Outwaiting? || s.phases[run].Ending? || s.phases[run].Replacing?
    ensures CanFinish(s, run, other, {})
  {
    assert WorkKept(s, run, run, Entry(0, true));
  }

  /** A run that takes the lane over comes to hold it beside one that holds it and recorded nothing yet. */
  lemma HoldsBesideAnother(s: State, run: Run, other: Run) returns (t: State)
    requires run in s.phases && run != other && Holds(s, other)
    requires s.work.record == Some(Rec(other, true, Some(s.work.boot), {}, false))
    requires s.phases[run].Taking? || s.phases[run].Holding? || CanFinish(s, run, other, {})
    ensures Leads(s, t) && Holds(t, run) && Holds(t, other)
  {
    hide SeenOver, After;
    StaysPut(s);
    t := s;
    if s.phases[run].Taking? {
      assert EntriesUnder(s.work.record.value) == {};
      LeadsOn(s, s, TakingOver(run, ReadRecord(true)));
      t := Step(s, TakingOver(run, ReadRecord(true)));
    }
    if !s.phases[run].Holding? {
      var held := Finishes(t, run, other, {});
      LeadsThrough(s, t, held);
      t := held;
    }
  }

  /**
   Exactly when two runs can hold the lane: of a run about to read the record and another past the lock,
   some continuation has both hold it unless what the first reads is work left by that other run itself.
   */
  lemma TwoCanHold(actions: seq<Action>, run: Run, other: Run, bootRead: bool)
    requires var s := After(INITIAL, actions);
             && run in s.phases && s.phases[run].Taking? && other in s.phases && TakesOver(s.phases[other])
             && run != other
    ensures var s := After(INITIAL, actions);
            (exists more :: BothHold(Step(s, TakingOver(run, ReadRecord(bootRead))), more, run, other)) <==>
            LeftBy(s, bootRead).Nothing? || LeftBy(s, bootRead).holder != other
  {
    hide SeenOver;
    var s := After(INITIAL, actions);
    var read := TakingOver(run, ReadRecord(bootRead));
    var next := Step(s, read);
    ReachableIsKept(actions);
    if LeftBy(s, bootRead).Nothing? || LeftBy(s, bootRead).holder != other {
      StepKeeps(s, read);
      var t := BothComeToHold(s, next, run, other, bootRead);
      var more: seq<Action> :| After(next, more) == t;
      assert BothHold(next, more, run, other);
    } else {
      forall more: seq<Action> ensures !BothHold(next, more, run, other) {
        if Holds(After(next, more), run) {
          HoldOutlastsRead(actions, run, bootRead, more);
        }
      }
    }
  }

  lemma BothComeToHold(s: State, next: State, run: Run, other: Run, bootRead: bool) returns (t: State)
    requires Kept(s) && Kept(next) && next == Step(s, TakingOver(run, ReadRecord(bootRead)))
    requires run in s.phases && s.phases[run].Taking? && other in s.phases && TakesOver(s.phases[other]) && run != other
    requires LeftBy(s, bootRead).Nothing? || LeftBy(s, bootRead).holder != other
    ensures Leads(next, t) && Holds(t, run) && Holds(t, other)
  {
    hide SeenOver, After, Kept;
    assert CanFinish(next, run, other, {}) by { ReaderCanFinish(s, next, run, other, bootRead); }
    if !s.phases[other].Taking? && !s.phases[other].Holding? { WaitsOnHolders(s, other, run); }
    var first := Finishes(next, run, other, {});
    t := HoldsBesideAnother(first, other, run);
    LeadsThrough(next, first, t);
  }

  lemma ReaderCanFinish(s: State, next: State, run: Run, other: Run, bootRead: bool)
    requires Kept(s) && next == Step(s, TakingOver(run, ReadRecord(bootRead)))
    requires run in s.phases && s.phases[run].Taking? && run != other
    requires LeftBy(s, bootRead).Nothing? || LeftBy(s, bootRead).holder != other
    ensures CanFinish(next, run, other, {})
  {
    hide SeenOver;
    assert WorkKept(s, run, run, Entry(0, true));
  }

  // ---------------------------------------------------------------- work nobody waits for

  ghost predicate HoldsBeside(s: State, actions: seq<Action>, run: Run, group: Group) {
    Holds(After(s, actions), run) && group in After(s, actions).work.running
  }

  /** A group there has been, of which no process runs. */
  predicate IsOver(s: State, group: Group) {
    group in s.work.spawned && group !in s.work.running
  }

  lemma {:induction false} OverIsKept(s: State, actions: seq<Action>, group: Group)
    requires IsOver(s, group)
    ensures IsOver(After(s, actions), group)
    decreases |actions|
  {
    hide SeenOver;
    if actions != [] {
      OverIsKept(Step(s, actions[0]), actions[1..], group);
    }
  }

  /**
   Exactly when a group can run beside a run that has come to hold the lane, as that run is about to read
   the record: when the group runs or may yet be started, and no line of it that is read names its session.
   None is read of a record that is released, of an earlier boot or without its holder's start; nor of a
   line that is not finished yet, or was written under another holder.
   */
  lemma WorkCanRunOn(actions: seq<Action>, run: Run, bootRead: bool, group: Group)
    requires var s := After(INITIAL, actions); run in s.phases && s.phases[run].Taking?
    ensures var s := After(INITIAL, actions);
            (exists more :: HoldsBeside(Step(s, TakingOver(run, ReadRecord(bootRead))), more, run, group)) <==>
            !IsOver(s, group) && (LeftBy(s, bootRead).Nothing? || Entry(group, true) !in LeftBy(s, bootRead).entries)
  {
    hide SeenOver, After;
    var s := After(INITIAL, actions);
    var left, next := LeftBy(s, bootRead), Step(s, TakingOver(run, ReadRecord(bootRead)));
    ReachableIsKept(actions);
    if IsOver(s, group) {
      forall more: seq<Action> ensures !HoldsBeside(next, more, run, group) { OverIsKept(next, more, group); }
    } else if left.Work? && Entry(group, true) in left.entries {
      forall more: seq<Action> ensures !HoldsBeside(next, more, run, group) {
        if Holds(After(next, more), run) { HoldOutlastsRead(actions, run, bootRead, more); }
      }
    } else {
      var t := HoldsBesideUnread(s, next, run, bootRead, group);
      var more: seq<Action> :| After(next, more) == t;
      assert HoldsBeside(next, more, run, group);
    }
  }

  lemma HoldsBesideUnread(s: State, next: State, run: Run, bootRead: bool, group: Group) returns (t: State)
    requires Kept(s) && next == Step(s, TakingOver(run, ReadRecord(bootRead)))
    requires run in s.phases && s.phases[run].Taking?
    requires !IsOver(s, group) && (LeftBy(s, bootRead).Nothing? || Entry(group, true) !in LeftBy(s, bootRead).entries)
    ensures Leads(next, t) && Holds(t, run) && group in t.work.running
  {
    hide SeenOver, After;
    var other := run + (if LeftBy(s, bootRead).Work? then LeftBy(s, bootRead).holder else 0) + 1;
    ReaderCanFinish(s, next, run, other, bootRead);
    StaysPut(next);
    LeadsOn(next, next, OfWorld(Spawn(group)));
    var spawned := Step(next, OfWorld(Spawn(group)));
    assert group in spawned.work.running;
    assert CanFinish(spawned, run, other, {group});
    t := Finishes(spawned, run, other, {group});
    LeadsThrough(next, spawned, t);
  }

  /** The leader of a group there has been has ended. */
  predicate LeaderIsOver(s: State, group: Group) {
    group in s.work.spawned && group !in s.work.leading
  }

  lemma {:induction false} LeaderOverIsKept(s: State, actions: seq<Action>, group: Group)
    requires LeaderIsOver(s, group)
    ensures LeaderIsOver(After(s, actions), group)
    decreases |actions|
  {
    hide SeenOver;
    if actions != [] {
      LeaderOverIsKept(Step(s, actions[0]), actions[1..], group);
    }
  }

  ghost predicate LedBeside(s: State, actions: seq<Action>, run: Run, group: Group) {
    Holds(After(s, actions), run) && group in After(s, actions).work.leading
  }

  /** The same of a group's leader: it can run on exactly when no line of its group is read at all. */
  lemma LeaderCanRunOn(actions: seq<Action>, run: Run, bootRead: bool, group: Group)
    requires var s := After(INITIAL, actions); run in s.phases && s.phases[run].Taking?
    ensures var s := After(INITIAL, actions);
            (exists more :: LedBeside(Step(s, TakingOver(run, ReadRecord(bootRead))), more, run, group)) <==>
            !LeaderIsOver(s, group) && (LeftBy(s, bootRead).Nothing? || !Names(LeftBy(s, bootRead).entries, group))
  {
    hide SeenOver, After;
    var s := After(INITIAL, actions);
    var left, next := LeftBy(s, bootRead), Step(s, TakingOver(run, ReadRecord(bootRead)));
    ReachableIsKept(actions);
    if LeaderIsOver(s, group) {
      forall more: seq<Action> ensures !LedBeside(next, more, run, group) { LeaderOverIsKept(next, more, group); }
    } else if left.Work? && Names(left.entries, group) {
      forall more: seq<Action> ensures !LedBeside(next, more, run, group) {
        if Holds(After(next, more), run) { HoldOutlastsRead(actions, run, bootRead, more); }
      }
    } else {
      var t := LedBesideUnread(s, next, run, bootRead, group);
      var more: seq<Action> :| After(next, more) == t;
      assert LedBeside(next, more, run, group);
    }
  }

  lemma LedBesideUnread(s: State, next: State, run: Run, bootRead: bool, group: Group) returns (t: State)
    requires Kept(s) && next == Step(s, TakingOver(run, ReadRecord(bootRead)))
    requires run in s.phases && s.phases[run].Taking?
    requires !LeaderIsOver(s, group) && (LeftBy(s, bootRead).Nothing? || !Names(LeftBy(s, bootRead).entries, group))
    ensures Leads(next, t) && Holds(t, run) && group in t.work.leading
  {
    hide SeenOver, After;
    var other := run + (if LeftBy(s, bootRead).Work? then LeftBy(s, bootRead).holder else 0) + 1;
    ReaderCanFinish(s, next, run, other, bootRead);
    StaysPut(next);
    LeadsOn(next, next, OfWorld(Spawn(group)));
    var spawned := Step(next, OfWorld(Spawn(group)));
    assert group in spawned.work.leading;
    t := Finishes(spawned, run, other, {});
    LeadsThrough(next, spawned, t);
  }

  /** Every line under the run that holds the lane is recorded, whoever writes it, until a lock file is removed. */
  lemma HolderStands(actions: seq<Action>, run: Run)
    requires Holds(After(INITIAL, actions), run) && !After(INITIAL, actions).files.removed
    ensures Stands(After(INITIAL, actions), run)
  {
    ReachableIsKept(actions);
    var s := After(INITIAL, actions);
    assert WorkKept(s, run, run, Entry(0, true));
    forall one | one in s.phases ensures !PastReading(s.phases[one]) {
      if PastReading(s.phases[one]) { OneHolder(s, run, one); }
    }
  }

  /** A holder whose group was recorded without its session dies while the group runs. */
  lemma DiesOverSessionlessWork(held: State) returns (dead: State)
    requires Holds(held, 0) && Free(held) && held.work.record == Some(Rec(0, true, Some(held.work.boot), {}, false))
    requires 0 !in held.work.spawned && held.files.named.Some? && held.files.locks == map[held.files.named.value := 0]
    ensures Leads(held, dead) && dead.phases == held.phases[0 := Gone] && Free(dead)
            && FileOf(dead) !in dead.files.locks
    ensures dead.files.removed == held.files.removed
    ensures dead.work.record == Some(Rec(0, true, Some(dead.work.boot), {(Entry(0, false), 0)}, false))
    ensures 0 in dead.work.running
    ensures dead.work.known == held.work.known && dead.work.left == held.work.left
  {
    hide SeenOver;
    StaysPut(held);
    LeadsOn(held, held, OfWorld(Spawn(0)));
    var spawned := Step(held, OfWorld(Spawn(0)));
    LeadsOn(held, spawned, OfRun(0, Append(Entry(0, false), 0)));
    var recorded := Step(spawned, OfRun(0, Append(Entry(0, false), 0)));
    assert recorded.work.record.value.lines == {(Entry(0, false), 0)};
    LeadsOn(held, recorded, OfRun(0, Die));
    dead := Step(recorded, OfRun(0, Die));
  }

  /** A run that reads such work in the record, once its leader ended, comes to hold the lane while it runs. */
  lemma HoldsOverSessionlessWork(taking: State) returns (t: State)
    requires 1 in taking.phases && taking.phases[1].Taking? && 0 in taking.work.running
    requires taking.work.record == Some(Rec(0, true, Some(taking.work.boot), {(Entry(0, false), 0)}, false))
    ensures Leads(taking, t) && Holds(t, 1) && 0 in t.work.running && 0 !in t.work.leading
    ensures 1 in t.work.took && t.work.took[1] == Work(0, {Entry(0, false)})
    ensures (0, Entry(0, false)) in t.work.recorded
    ensures taking.work.known <= t.work.known && t.work.left == taking.work.left
    ensures t.files.removed == taking.files.removed
  {
    hide SeenOver, After;
    StaysPut(taking);
    assert EntriesUnder(taking.work.record.value) == {Entry(0, false)};
    LeadsOn(taking, taking, TakingOver(1, ReadRecord(true)));
    var read := Step(taking, TakingOver(1, ReadRecord(true)));
    assert (0, Entry(0, false)) in WorkRead(taking, LeftBy(taking, true));
    var held := Finishes(read, 1, 2, {0});
    LeadsThrough(taking, read, held);
    LeadsOn(taking, held, OfWorld(LeaderEnds(0)));
    t := Step(held, OfWorld(LeaderEnds(0)));
  }

  /**
   No lock file was removed, and yet: a holder recorded a group without its session and died, the
   group's leader ended, and another run holds the lane while the group runs.
   */
  lemma SessionlessWorkRunsUnderAnother() returns (s: State)
    ensures Leads(INITIAL, s) && !s.files.removed && Holds(s, 1) && IsGone(s, 0)
    ensures Unreleased(s, 0, Entry(0, false)) && 0 in s.work.running && 0 !in s.work.leading
  {
    hide SeenOver, After, Kept;
    StaysPut(INITIAL);
    var held := AloneHolds(INITIAL, 0, 1);
    var dead := DiesOverSessionlessWork(held);
    LeadsThrough(INITIAL, held, dead);
    assert 1 !in held.phases - {0};
    var taking := AloneTakesTheLane(dead, 1);
    LeadsThrough(INITIAL, dead, taking);
    s := HoldsOverSessionlessWork(taking);
    LeadsThrough(INITIAL, taking, s);
    ReaderOutlasted(s, 1);
  }

  /** A holder dies over a group that runs, nothing of it recorded, and a run that was nested in it still lives. */
  lemma DiesBeforeTheLine() returns (s: State)
    ensures Leads(INITIAL, s) && !s.files.removed && s.phases == map[2 := Starting, 0 := Gone]
    ensures s.work.record == Some(Rec(0, true, Some(s.work.boot), {}, false)) && 0 in s.work.known && 0 !in s.work.left
    ensures 0 in s.work.running && 0 in s.work.leading && Free(s) && FileOf(s) !in s.files.locks
  {
    hide SeenOver, After;
    StaysPut(INITIAL);
    LeadsOn(INITIAL, INITIAL, OfRun(2, Start));
    var started := Step(INITIAL, OfRun(2, Start));
    var held := AloneHolds(started, 0, 2);
    LeadsThrough(INITIAL, started, held);
    assert held.phases - {0} == map[2 := Starting];
    s := DiesOverUnrecordedWork(held);
    LeadsThrough(INITIAL, held, s);
    forall run ensures run in s.phases <==> run == 0 || run in held.phases - {0} {}
  }

  lemma DiesOverUnrecordedWork(held: State) returns (dead: State)
    requires Holds(held, 0) && Free(held) && 0 !in held.work.spawned
    requires held.files.named.Some? && held.files.locks == map[held.files.named.value := 0]
    ensures Leads(held, dead) && dead.phases == held.phases[0 := Gone] && Free(dead)
    ensures FileOf(dead) !in dead.files.locks && dead.files.removed == held.files.removed
    ensures 0 in dead.work.running && 0 in dead.work.leading
    ensures dead.work.record == held.work.record && dead.work.boot == held.work.boot
    ensures dead.work.known == held.work.known && dead.work.left == held.work.left
  {
    hide SeenOver;
    StaysPut(held);
    LeadsOn(held, held, OfWorld(Spawn(0)));
    var spawned := Step(held, OfWorld(Spawn(0)));
    LeadsOn(held, spawned, OfRun(0, Die));
    dead := Step(spawned, OfRun(0, Die));
  }

  /** Another run reads the record before that nested run finishes a line. */
  lemma ReadsBeforeTheLine() returns (s: State)
    ensures Leads(INITIAL, s) && !s.files.removed && IsGone(s, 0) && Alive(s, 2)
    ensures s.work.record == Some(Rec(0, true, Some(s.work.boot), {}, false)) && 0 in s.work.known && 0 !in s.work.left
    ensures 1 in s.phases && s.phases[1].Replacing? && 0 in s.work.running && 0 in s.work.leading
  {
    hide SeenOver, After;
    var dead := DiesBeforeTheLine();
    var taking := AloneTakesTheLane(dead, 1);
    LeadsThrough(INITIAL, dead, taking);
    assert 0 in dead.phases - {1} && 2 in dead.phases - {1};
    assert EntriesUnder(taking.work.record.value) == {};
    LeadsOn(INITIAL, taking, TakingOver(1, ReadRecord(true)));
    s := Step(taking, TakingOver(1, ReadRecord(true)));
  }

  /**
   No lock file was removed, every line names its session, and yet: a run nested in a dead holder finishes
   its group's line under that holder once the next run has read the record, and that run holds the lane
   while the group and its leader run.
   */
  lemma LateLineRunsUnderAnother() returns (s: State, t: State)
    ensures Leads(INITIAL, s) && IsGone(s, 0) && 0 in s.work.known && 0 !in s.work.left
    ensures s.work.record == Some(Rec(0, true, Some(s.work.boot), {}, false))
    ensures RunEnabled(s, 2, Append(Entry(0, true), 0)) && Leads(NextOfRun(s, 2, Append(Entry(0, true), 0)), t)
    ensures Holds(t, 1) && !t.files.removed && 0 in t.work.running && 0 in t.work.leading
    ensures 0 in t.work.known && 0 !in t.work.left
  {
    hide SeenOver, After;
    s := ReadsBeforeTheLine();
    assert RecordIsOfRuns(s, Entry(0, true), 0) by { RunningIsSpawned(s); }
    var late := NextOfRun(s, 2, Append(Entry(0, true), 0));
    StaysPut(late);
    LeadsOn(late, late, TakingOver(1, Replace(true, true)));
    t := Step(late, TakingOver(1, Replace(true, true)));
  }

  lemma RunningIsSpawned(s: State)
    requires Leads(INITIAL, s)
    ensures RecordIsOfRuns(s, Entry(0, true), 0)
  {
    var actions: seq<Action> :| After(INITIAL, actions) == s;
    ReachableIsKept(actions);
    assert WorkKept(s, 0, 0, Entry(0, true));
  }

  lemma ReaderOutlasted(s: State, run: Run)
    requires Leads(INITIAL, s) && Holds(s, run) && run in s.work.took && s.work.took[run].Work?
    ensures IsGone(s, s.work.took[run].holder)
  {
    var actions: seq<Action> :| After(INITIAL, actions) == s;
    ReachableIsKept(actions);
    assert WorkKept(s, run, run, Entry(0, true));
  }
}

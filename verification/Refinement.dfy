/**
 What the bytes of a lane's record have to do with the record of the protocol: a record written by its
 holder, with any run of finished or cut lines after it, stands for one protocol record; each write keeps
 that, and the next run reads from the bytes just what the protocol says it reads.
 */
module Refinement {
  import Lanes
  import opened Record
  import opened Takeover
  import opened Wrappers

  /** How the protocol tells groups apart, by the leader's id and when it started, and boots, by their ids. */
  datatype Naming = Naming(group: (nat, Bytes) -> nat, boot: Bytes -> nat)

  function EntryOf(naming: Naming, group: Group): Lanes.Entry {
    Lanes.Entry(naming.group(group.pid, group.born), group.session.Some?)
  }

  /** Whether the text a writer read is a process id as a holder writes it. */
  predicate NamesRun(under: Bytes) {
    NumberOf(under).Some? && Decimal(NumberOf(under).value) == under
  }

  /** The finished group lines, each with the run it was written under. */
  function LinesOf(naming: Naming, notes: seq<Note>): set<(Lanes.Entry, Lanes.Run)> {
    set note | note in notes && note.Works? && NamesRun(note.under) ::
        (EntryOf(naming, note.group), NumberOf(note.under).value)
  }

  /** The protocol's record of what `holder` wrote, with these notes finished after it. */
  function RecOf(naming: Naming, holder: Holder, notes: seq<Note>): Lanes.Rec {
    Lanes.Rec(holder.pid, holder.born != "", if holder.boot == "" then None else Some(naming.boot(holder.boot)),
              LinesOf(naming, notes), Released in notes)
  }

  /** The protocol's state holds the record that `holder` and the notes wrote. */
  ghost predicate StandsFor(naming: Naming, s: Lanes.State, holder: Holder, noted: seq<Noted>) {
    s.work.record == Some(RecOf(naming, holder, FinishedNotes(noted)))
  }

  /** What was read from the bytes, in the protocol's terms. */
  function LeftOf(naming: Naming, left: Left): Lanes.Left {
    match left
    case Nothing => Lanes.Nothing
    case Work(pid, born, groups) => Lanes.Work(pid, set group | group in groups :: EntryOf(naming, group))
  }

  // ---------------------------------------------------------------- each write

  lemma {:induction false} FinishedOnceMore(noted: seq<Noted>, last: Noted)
    ensures FinishedNotes(noted + [last]) == FinishedNotes(noted) + if last.lost == 0 then [last.note] else []
  {
    if noted == [] {
      assert noted + [last] == [last];
      FinishedFirst([last]);
    } else {
      assert (noted + [last])[1..] == noted[1..] + [last];
      FinishedOnceMore(noted[1..], last);
      FinishedFirst(noted);
      FinishedFirst(noted + [last]);
      hide FinishedNotes;
      if noted[0].lost == 0 {
        assert [noted[0].note] + (FinishedNotes(noted[1..]) + if last.lost == 0 then [last.note] else [])
               == [noted[0].note] + FinishedNotes(noted[1..]) + if last.lost == 0 then [last.note] else [];
      }
    }
  }

  lemma FinishedFirst(noted: seq<Noted>)
    requires noted != []
    ensures FinishedNotes(noted)
            == if noted[0].lost == 0 then [noted[0].note] + FinishedNotes(noted[1..]) else FinishedNotes(noted[1..])
  {
  }

  /** A line that names a run adds to the protocol's lines, and any other adds none. */
  lemma LinesOnceMore(naming: Naming, notes: seq<Note>, note: Note)
    ensures LinesOf(naming, notes + [note])
            == LinesOf(naming, notes)
               + if note.Works? && NamesRun(note.under) then {(EntryOf(naming, note.group), NumberOf(note.under).value)}
                 else {}
  {
    var now := notes + [note];
    assert now[|notes|] == note;
    forall one ensures one in now <==> one in notes || one == note {}
  }

  /** The bytes a run writes when it takes the lane stand for the record the protocol replaces the old one by. */
  lemma ReplacingStands(naming: Naming, s: Lanes.State, holder: Holder)
    requires holder.pid in s.phases
    requires Lanes.OverEnabled(s, holder.pid, Lanes.Replace(holder.born != "", holder.boot != ""))
    requires holder.boot != "" ==> naming.boot(holder.boot) == s.work.boot
    ensures StandsFor(naming, Lanes.NextOver(s, holder.pid, Lanes.Replace(holder.born != "", holder.boot != "")),
            holder, [])
  {
    assert FinishedNotes([]) == [];
    assert LinesOf(naming, []) == {};
  }

  /**
   A write cut short is no step of the protocol; a finished group line is an append, and a finished release
   is a release.
   */
  lemma WritingIsStepping(naming: Naming, s: Lanes.State, holder: Holder, noted: seq<Noted>, last: Noted,
      run: Lanes.Run, under: Lanes.Run)
    requires StandsFor(naming, s, holder, noted) && under <= MAX_ID
    ensures last.lost != 0 ==> StandsFor(naming, s, holder, noted + [last])
    ensures last.lost == 0 && last.note.Works? && last.note.under == Decimal(under)
            && Lanes.RunEnabled(s, run, Lanes.Append(EntryOf(naming, last.note.group), under)) ==>
              StandsFor(naming, Lanes.NextOfRun(s, run, Lanes.Append(EntryOf(naming, last.note.group), under)),
                  holder, noted + [last])
    ensures last.lost == 0 && last.note.Released? && Lanes.RunEnabled(s, run, Lanes.Release) ==>
              StandsFor(naming, Lanes.NextOfRun(s, run, Lanes.Release), holder, noted + [last])
  {
    hide LinesOf, NumberOf, Decimal;
    FinishedOnceMore(noted, last);
    LinesOnceMore(naming, FinishedNotes(noted), last.note);
    NumberOfDecimal(under);
    var notes := FinishedNotes(noted);
    assert last.lost != 0 ==> notes + [] == notes;
    assert LinesOf(naming, notes) + {} == LinesOf(naming, notes);
    assert (notes + [last.note])[|notes|] == last.note;
    forall note ensures note in notes + [last.note] <==> note in notes || note == last.note {}
  }

  // ---------------------------------------------------------------- what is read

  lemma {:induction false} GroupsAreNoted(notes: seq<Note>, under: Bytes)
    ensures forall group :: group in GroupsNoted(notes, under) <==> Works(group, under) in notes
  {
    if notes != [] {
      GroupsAreNoted(notes[1..], under);
      assert notes == [notes[0]] + notes[1..];
      forall group
        ensures Works(group, under) in notes <==> Works(group, under) == notes[0] || Works(group, under) in notes[1..]
      {}
    }
  }

  /** The groups noted under the holder's id are the entries the protocol finds under its run. */
  lemma EntriesAreGroups(naming: Naming, holder: Holder, notes: seq<Note>)
    requires holder.pid <= MAX_ID
    ensures Lanes.EntriesUnder(RecOf(naming, holder, notes))
            == set group | group in GroupsNoted(notes, Decimal(holder.pid)) :: EntryOf(naming, group)
  {
    hide NumberOf, Decimal, GroupsNoted;
    var under, rec := Decimal(holder.pid), RecOf(naming, holder, notes);
    var entries := set group | group in GroupsNoted(notes, under) :: EntryOf(naming, group);
    NumberOfDecimal(holder.pid);
    GroupsAreNoted(notes, under);
    forall entry ensures entry in Lanes.EntriesUnder(rec) <==> entry in entries {
      if entry in Lanes.EntriesUnder(rec) {
        assert (entry, holder.pid) in LinesOf(naming, notes);
        var note :| note in notes && note.Works? && NamesRun(note.under) && EntryOf(naming, note.group) == entry
            && NumberOf(note.under).value == holder.pid;
        assert note == Works(note.group, under);
      }
      if entry in entries {
        var group :| group in GroupsNoted(notes, under) && EntryOf(naming, group) == entry;
        assert Works(group, under) in notes && NamesRun(under);
        assert (entry, holder.pid) in rec.lines;
      }
    }
  }

  /**
   Over the bytes of a record the protocol's state stands for, the next run reads exactly what the protocol
   says its record leaves.
   */
  lemma BytesLeaveWhatTheRecordLeaves(naming: Naming, s: Lanes.State, holder: Holder, noted: seq<Noted>,
      thisBoot: Option<Bytes>)
    requires OneLineFields(holder) && AllRecordable(noted) && StandsFor(naming, s, holder, noted)
    requires thisBoot.Some? ==>
               naming.boot(thisBoot.value) == s.work.boot
               && (naming.boot(holder.boot) == s.work.boot ==> holder.boot == thisBoot.value)
    ensures LeftOf(naming, LeftBy(ReadOf(After(Ended(HeaderLines(holder)), Writes(noted))), thisBoot))
            == Lanes.LeftBy(s, thisBoot.Some?)
  {
    hide ReadOf, HeaderLines, Ended, GroupsNoted, FinishedNotes, Lanes.EntriesUnder;
    NextRunReadsFinishedWork(holder, noted, thisBoot);
    var notes := FinishedNotes(noted);
    EntriesAreGroups(naming, holder, notes);
    var groups := GroupsNoted(notes, Decimal(holder.pid));
    if groups != [] { assert EntryOf(naming, groups[0]) in Lanes.EntriesUnder(RecOf(naming, holder, notes)); }
  }
}

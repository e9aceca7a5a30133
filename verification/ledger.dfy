/** The checkpoint file over whole runs. */
module Ledger {
  import opened Prelude
  import opened Claims
  import opened Devices
  import opened Computed
  import opened Disk
  import opened Lifecycle

  /** The orders of an attempt are possible iteration orders of its claim. */
  ghost predicate IsLegit(driver: Driver, a: Attempt) {
    a.call.Prepare? ==>
        IsClaimOrder(driver, a.call.claim, a.call.first) && IsClaimOrder(driver, a.call.claim, a.call.second)
  }

  ghost predicate AllLegit(driver: Driver, log: seq<Attempt>) {
    forall i :: 0 <= i < |log| ==> IsLegit(driver, log[i])
  }

  ghost function FileAfter(driver: Driver, log: seq<Attempt>, file: File): File {
    if log == [] then file
    else NextFile(driver, log[|log| - 1], FileAfter(driver, log[..|log| - 1], file))
  }

  lemma {:induction false} SerialFile(driver: Driver, log: seq<Attempt>, s: Store)
    ensures Serial(driver, log, s).file == FileAfter(driver, log, s.file)
  {
    if log != [] {
      var front := log[..|log| - 1];
      SerialFile(driver, front, s);
      PerformFile(driver, log[|log| - 1], Serial(driver, front, s));
    }
  }

  // ---- atomic register ----

  datatype Write = Write(entries: seq<Entry>, fates: seq<bool>)

  /** A sequence of checkpoint writes, each cut or failing anywhere. */
  ghost function WriteAll(writes: seq<Write>, s: Store): Store {
    if writes == [] then s
    else
      var last := writes[|writes| - 1];
      After(WriteOps(last.entries), last.fates, WriteAll(writes[..|writes| - 1], s))
  }

  /** The value of the last write whose rename succeeded. */
  ghost function LastRenamed(writes: seq<Write>, initial: Option<seq<Entry>>): Option<seq<Entry>> {
    if writes == [] then initial
    else
      var last := writes[|writes| - 1];
      if WriteReplaces(last.fates) then Some(last.entries) else LastRenamed(writes[..|writes| - 1], initial)
  }

  /** The checkpoint is an atomic register: whatever temporary files lie around and wherever
      writes are cut, a reader sees the value of the last write that was renamed, whole. A
      write that reports success was renamed; one that reports an error may have been. */
  lemma {:induction false} CheckpointIsRegister(writes: seq<Write>, s: Store)
    ensures ReadEntries(WriteAll(writes, s).file) == LastRenamed(writes, ReadEntries(s.file))
    ensures writes != [] && StatusOf(WriteOps(writes[|writes| - 1].entries), writes[|writes| - 1].fates) == Completed
        ==> ReadEntries(WriteAll(writes, s).file) == Some(writes[|writes| - 1].entries)
  {
    if writes != [] {
      var front, last := writes[..|writes| - 1], writes[|writes| - 1];
      CheckpointIsRegister(front, s);
      WriteIsAtomic(last.entries, last.fates, WriteAll(front, s));
    }
  }

  /** An error does not mean that the old value is still there: the close can fail after the
      rename. */
  lemma ErrorAfterRename(entries: seq<Entry>, s: Store)
    ensures StatusOf(WriteOps(entries), [true, true, true, true, false]) == Failed
    ensures ReadEntries(After(WriteOps(entries), [true, true, true, true, false], s).file) == Some(entries)
  {
    var fates := [true, true, true, true, false];
    WriteIsAtomic(entries, fates, s);
    var ops := WriteOps(entries);
    RunFirst(ops, fates, s);
    RunFirst(ops[1..], fates[1..], s);
    RunFirst(ops[1..][1..], fates[1..][1..], s);
    RunFirst(ops[1..][1..][1..], fates[1..][1..][1..], s);
    assert ops[1..][1..][1..][1..] == [CloseTemp] && fates[1..][1..][1..][1..] == [false];
  }

  // ---- batches ----

  /** The attempts that replaced the checkpoint. */
  ghost function Kept(driver: Driver, log: seq<Attempt>, file: File): seq<Attempt> {
    if log == [] then []
    else
      var front, last := log[..|log| - 1], log[|log| - 1];
      Kept(driver, front, file) + (if Replaces(driver, last, FileAfter(driver, front, file)) then [last] else [])
  }

  /** Isolation: claims that fail before their rename leave no trace in the checkpoint; the
      file is the one the other claims alone produce. */
  lemma {:induction false} FailedClaimsLeaveNoTrace(driver: Driver, log: seq<Attempt>, s: Store)
    ensures Serial(driver, Kept(driver, log, s.file), s).file == Serial(driver, log, s).file
  {
    SerialFile(driver, log, s);
    SerialFile(driver, Kept(driver, log, s.file), s);
    if log != [] {
      var front, last := log[..|log| - 1], log[|log| - 1];
      FailedClaimsLeaveNoTrace(driver, front, s);
      SerialFile(driver, front, s);
      var kept := Kept(driver, front, s.file);
      SerialFile(driver, kept, s);
      if Replaces(driver, last, FileAfter(driver, front, s.file)) {
        assert (kept + [last])[..|kept|] == kept;
      } else {
        assert kept + [] == kept;
      }
    }
  }

  // ---- the checkpoint as a set of claims ----

  ghost predicate DistinctClaims(entries: seq<Entry>) {
    forall i, j :: 0 <= i < j < |entries| ==> entries[i].uid != entries[j].uid
  }

  lemma {:induction false} WithoutMembers(entries: seq<Entry>, uid: UID)
    ensures forall x :: x in Without(entries, uid) <==> x in entries && x.uid != uid
  {
    if entries != [] {
      var front, last := entries[..|entries| - 1], entries[|entries| - 1];
      WithoutMembers(front, uid);
      assert entries == front + [last];
    }
  }

  lemma {:induction false} WithoutDistinct(entries: seq<Entry>, uid: UID)
    requires DistinctClaims(entries)
    ensures DistinctClaims(Without(entries, uid))
  {
    if entries != [] {
      var front, last := entries[..|entries| - 1], entries[|entries| - 1];
      WithoutDistinct(front, uid);
      var kept := Without(front, uid);
      WithoutMembers(front, uid);
      assert forall k :: 0 <= k < |kept| ==> kept[k] in front;
      assert forall x :: x in front ==> x.uid != last.uid;
    }
  }

  lemma HoldsMember(entries: seq<Entry>, uid: UID)
    ensures Holds(entries, uid) <==> exists x :: x in entries && x.uid == uid
  {
    if x :| x in entries && x.uid == uid {
      var i :| 0 <= i < |entries| && entries[i] == x;
    }
  }

  lemma HoldsAppend(entries: seq<Entry>, x: Entry, uid: UID)
    ensures Holds(entries + [x], uid) <==> Holds(entries, uid) || x.uid == uid
  {
    HoldsMember(entries, uid);
    HoldsMember(entries + [x], uid);
    assert forall y :: y in entries + [x] <==> y in entries || y == x;
  }

  lemma HoldsWithout(entries: seq<Entry>, gone: UID, uid: UID)
    ensures Holds(Without(entries, gone), uid) <==> Holds(entries, uid) && uid != gone
  {
    HoldsMember(entries, uid);
    HoldsMember(Without(entries, gone), uid);
    WithoutMembers(entries, gone);
  }

  /** Every claim that is prepared has a device of this driver. */
  ghost predicate AllOwn(driver: Driver, log: seq<Attempt>) {
    forall i :: 0 <= i < |log| && log[i].call.Prepare? ==> Own(driver, log[i].call.claim) != []
  }

  /** The latest attempt that replaced the checkpoint and decided about `uid` prepared it. An
      Unprepare that could not read the checkpoint decides about every claim. */
  ghost predicate LatestPrepared(driver: Driver, log: seq<Attempt>, file: File, uid: UID) {
    if log == [] then Holds(ReadOr(file), uid)
    else
      var front, last := log[..|log| - 1], log[|log| - 1];
      var now := FileAfter(driver, front, file);
      if !Replaces(driver, last, now) then LatestPrepared(driver, front, file, uid)
      else if last.call.Prepare? then last.call.claim.uid == uid || LatestPrepared(driver, front, file, uid)
      else Readable(now, last.readOk).Some? && last.call.uid != uid && LatestPrepared(driver, front, file, uid)
  }

  ghost function ReadOr(file: File): seq<Entry> {
    if ReadEntries(file).Some? then ReadEntries(file).value else []
  }

  /** A claim with a device of this driver that is in the checkpoint is not prepared again. */
  lemma HeldIsRestored(driver: Driver, a: Attempt, file: File)
    requires IsLegit(driver, a) && a.call.Prepare? && Own(driver, a.call.claim) != []
    requires Readable(file, a.readOk).Some? && Holds(Readable(file, a.readOk).value, a.call.claim.uid)
    ensures var plan := AttemptPlan(driver, a, file);
            plan.steps == [] && plan.write.None? && !plan.ending.Panics?
  {
    if Compute(driver, a.call.claim, a.call.first, a.call.second).Ok? {
      NothingPreparedIff(driver, a.call.claim, a.call.first, a.call.second);
    }
  }

  lemma AppendDistinct(entries: seq<Entry>, x: Entry)
    requires DistinctClaims(entries) && !Holds(entries, x.uid)
    ensures DistinctClaims(entries + [x])
  {
  }

  /** A Prepare that replaces the checkpoint adds a claim that was not there. */
  lemma ReplacingAddsNew(driver: Driver, a: Attempt, file: File)
    requires IsLegit(driver, a) && a.call.Prepare? && Own(driver, a.call.claim) != [] && Replaces(driver, a, file)
    ensures !Holds(ReadOr(file), a.call.claim.uid)
    ensures NextFile(driver, a, file) == Present(Whole(ReadOr(file) + [EntryOf(a.call.claim)]))
  {
    if Readable(file, a.readOk).Some? && Holds(ReadOr(file), a.call.claim.uid) {
      HeldIsRestored(driver, a, file);
    }
  }

  lemma NextKeepsSet(driver: Driver, a: Attempt, file: File)
    requires IsLegit(driver, a) && (a.call.Prepare? ==> Own(driver, a.call.claim) != [])
    requires DistinctClaims(ReadOr(file))
    ensures DistinctClaims(ReadOr(NextFile(driver, a, file)))
    ensures ReadEntries(file).Some? ==> ReadEntries(NextFile(driver, a, file)).Some?
  {
    if Replaces(driver, a, file) {
      match a.call
      case Unprepare(uid) => WithoutDistinct(ReadOr(file), uid);
      case Prepare(claim, _, _) =>
        ReplacingAddsNew(driver, a, file);
        AppendDistinct(ReadOr(file), EntryOf(claim));
    }
  }

  /** In every reachable state the checkpoint lists each claim once, and lists exactly the
      claims whose latest deciding attempt was a Prepare. */
  lemma {:induction false} CheckpointIsSet(driver: Driver, log: seq<Attempt>, s: Store, uid: UID)
    requires AllLegit(driver, log) && AllOwn(driver, log)
    requires ReadEntries(s.file).Some? && DistinctClaims(ReadEntries(s.file).value)
    ensures ReadEntries(Serial(driver, log, s).file).Some?
    ensures DistinctClaims(ReadEntries(Serial(driver, log, s).file).value)
    ensures Holds(ReadEntries(Serial(driver, log, s).file).value, uid) <==> LatestPrepared(driver, log, s.file, uid)
  {
    SerialFile(driver, log, s);
    if log != [] {
      var front, last := log[..|log| - 1], log[|log| - 1];
      CheckpointIsSet(driver, front, s, uid);
      SerialFile(driver, front, s);
      var now := FileAfter(driver, front, s.file);
      NextKeepsSet(driver, last, now);
      NextHolds(driver, last, now, uid);
    }
  }

  lemma NextHolds(driver: Driver, a: Attempt, file: File, uid: UID)
    requires ReadEntries(file).Some?
    ensures Holds(ReadOr(NextFile(driver, a, file)), uid) <==>
              if !Replaces(driver, a, file) then Holds(ReadOr(file), uid)
              else if a.call.Prepare? then a.call.claim.uid == uid || Holds(ReadOr(file), uid)
              else Readable(file, a.readOk).Some? && a.call.uid != uid && Holds(ReadOr(file), uid)
  {
    var entries := ReadOr(file);
    if Replaces(driver, a, file) && Readable(file, a.readOk).Some? {
      match a.call
      case Unprepare(gone) => HoldsWithout(entries, gone, uid);
      case Prepare(claim, _, _) => HoldsAppend(entries, EntryOf(claim), uid);
    }
  }

  /** An Unprepare that cannot read the checkpoint reports no success, touches neither
      specifications nor directories, and, once its rename succeeds, has forgotten every claim. */
  lemma UnreadableUnprepareForgetsAll(driver: Driver, a: Attempt, s: Store)
    requires a.call.Unprepare? && Readable(s.file, a.readOk).None?
    ensures !OutcomeOf(driver, a, s.file).Returned?
    ensures Perform(driver, a, s).specs == s.specs && Perform(driver, a, s).dirs == s.dirs
    ensures Perform(driver, a, s).file == if WriteReplaces(a.fates) then Present(Whole([])) else s.file
  {
    PerformFile(driver, a, s);
    PerformSteps(driver, a, s);
  }

  // ---- claims without a device of this driver ----

  ghost function Occurrences(entries: seq<Entry>, uid: UID): nat {
    if entries == [] then 0
    else Occurrences(entries[..|entries| - 1], uid) + (if entries[|entries| - 1].uid == uid then 1 else 0)
  }

  lemma {:induction false} OccurrencesZero(entries: seq<Entry>, uid: UID)
    requires !Holds(entries, uid)
    ensures Occurrences(entries, uid) == 0
  {
    if entries != [] {
      var front := entries[..|entries| - 1];
      assert forall i :: 0 <= i < |front| ==> front[i] == entries[i];
      OccurrencesZero(front, uid);
    }
  }

  lemma OccurrencesAppend(entries: seq<Entry>, x: Entry, uid: UID)
    ensures Occurrences(entries + [x], uid) == Occurrences(entries, uid) + (if x.uid == uid then 1 else 0)
  {
    assert (entries + [x])[..|entries|] == entries;
  }

  lemma FirstReturnReplaces(driver: Driver, a: Attempt, file: File)
    requires a.call.Prepare? && OutcomeOf(driver, a, file).Returned?
    requires !Holds(ReadOr(file), a.call.claim.uid)
    ensures Replaces(driver, a, file)
  {
    ReturnedReplaces(driver, a, file);
  }

  /** A first Prepare that returns appends the claim. */
  lemma FirstPrepareAppends(driver: Driver, a: Attempt, file: File)
    requires a.call.Prepare? && OutcomeOf(driver, a, file).Returned?
    requires !Holds(ReadOr(file), a.call.claim.uid) || (IsLegit(driver, a) && Own(driver, a.call.claim) == [])
    ensures NextFile(driver, a, file) == Present(Whole(ReadOr(file) + [EntryOf(a.call.claim)]))
  {
    ReturnedReplaces(driver, a, file);
    if Compute(driver, a.call.claim, a.call.first, a.call.second).Ok? && IsLegit(driver, a) {
      NothingPreparedIff(driver, a.call.claim, a.call.first, a.call.second);
    }
  }

  /** Exactly when the set property breaks: preparing a claim twice lists it twice if and only
      if none of its devices belong to this driver. */
  lemma ListedTwiceIff(driver: Driver, a: Attempt, b: Attempt, file: File)
    requires IsLegit(driver, a) && IsLegit(driver, b)
    requires a.call.Prepare? && b.call.Prepare? && a.call.claim == b.call.claim
    requires ReadEntries(file).Some? && !Holds(ReadEntries(file).value, a.call.claim.uid)
    requires OutcomeOf(driver, a, file).Returned? && OutcomeOf(driver, b, NextFile(driver, a, file)).Returned?
    ensures Occurrences(ReadOr(NextFile(driver, b, NextFile(driver, a, file))), a.call.claim.uid)
         == if Own(driver, a.call.claim) == [] then 2 else 1
  {
    var claim := a.call.claim;
    var entries, once := ReadOr(file), NextFile(driver, a, file);
    FirstPrepareAppends(driver, a, file);
    OccurrencesZero(entries, claim.uid);
    OccurrencesAppend(entries, EntryOf(claim), claim.uid);
    if Own(driver, claim) == [] {
      FirstPrepareAppends(driver, b, once);
      OccurrencesAppend(entries + [EntryOf(claim)], EntryOf(claim), claim.uid);
    } else {
      HoldsAppend(entries, EntryOf(claim), claim.uid);
      ReturnedReplaces(driver, b, once);
      HeldIsRestored(driver, b, once);
    }
  }
}

/** What the checkpoint promises about the claim directories, at every cut of every run. */
module Sweeping {
  import opened Prelude
  import opened Claims
  import opened Paths
  import opened Disk
  import opened Lifecycle
  import opened Ledger
  import opened Directories
  import opened Effects
  import opened Safety

  // ---- removal steps and one directory ----

  ghost predicate Hits(op: Op, q: Path) {
    (op.StripTree? || op.RemoveTree?) && op.path <= q
  }

  /** Some removal step at or above `q` succeeded. */
  ghost predicate WasSwept(ops: seq<Op>, fates: seq<bool>, q: Path) {
    exists k :: 0 <= k < |ops| && k < |fates| && fates[k] && Hits(ops[k], q)
  }

  /** The directory or its `device.json` is gone. */
  ghost predicate Blank(dirs: map<Path, Option<string>>, q: Path) {
    q in dirs ==> dirs[q].None?
  }

  lemma WasSweptStep(ops: seq<Op>, fates: seq<bool>, q: Path)
    requires ops != [] && fates != []
    ensures WasSwept(ops, fates, q) <==> (fates[0] && Hits(ops[0], q)) || WasSwept(ops[1..], fates[1..], q)
  {
    if k :| 0 <= k < |ops| - 1 && k < |fates| - 1 && fates[1..][k] && Hits(ops[1..][k], q) {
      assert fates[k + 1] && Hits(ops[k + 1], q);
    }
    if k :| 0 < k < |ops| && k < |fates| && fates[k] && Hits(ops[k], q) {
      assert fates[1..][k - 1] && Hits(ops[1..][k - 1], q);
    }
  }

  lemma {:induction false} StaysBlank(ops: seq<Op>, fates: seq<bool>, s: Store, q: Path)
    requires (forall op :: op in ops ==> Tolerated(op)) && Blank(s.dirs, q)
    ensures Blank(After(ops, fates, s).dirs, q)
  {
    if ops != [] && fates != [] {
      assert ops[0] in ops && forall op :: op in ops[1..] ==> op in ops;
      StaysBlank(ops[1..], fates[1..], if fates[0] then Apply(ops[0], s) else s, q);
    }
  }

  /** Removal steps blank exactly what they sweep. */
  lemma {:induction false} RemovalSweeps(ops: seq<Op>, fates: seq<bool>, s: Store, q: Path)
    requires forall op :: op in ops ==> Tolerated(op)
    ensures WasSwept(ops, fates, q) ==> Blank(After(ops, fates, s).dirs, q)
    ensures !WasSwept(ops, fates, q) ==> SameAt(After(ops, fates, s).dirs, s.dirs, q)
  {
    if ops != [] && fates != [] {
      assert ops[0] in ops && forall op :: op in ops[1..] ==> op in ops;
      WasSweptStep(ops, fates, q);
      var s1 := if fates[0] then Apply(ops[0], s) else s;
      if fates[0] && Hits(ops[0], q) {
        StaysBlank(ops[1..], fates[1..], s1, q);
      } else {
        RemovalSweeps(ops[1..], fates[1..], s1, q);
      }
    }
  }

  // ---- one attempt and one directory ----

  /** The attempt is an Unprepare that carried out a removal step at or above `q`. */
  ghost predicate Sweeps(driver: Driver, a: Attempt, file: File, q: Path) {
    && a.call.Unprepare? && Readable(file, a.readOk).Some?
    && WasSwept(EntryRemoval(FirstEntry(Readable(file, a.readOk).value, a.call.uid)), a.fates, q)
  }

  /** The attempt is a Prepare of another claim that starts to set up the directory `q`. */
  ghost predicate Refills(driver: Driver, a: Attempt, file: File, uid: UID, q: Path) {
    && a.call.Prepare? && a.call.claim.uid != uid && q in Metadata(a.call.claim.name, Own(driver, a.call.claim))
    && AttemptPlan(driver, a, file).steps != [] && a.fates != []
  }

  lemma OutsideSame(dirs: map<Path, Option<string>>, dirs': map<Path, Option<string>>, keys: set<Path>, q: Path)
    requires dirs - keys == dirs' - keys && q !in keys
    ensures SameAt(dirs, dirs', q)
  {
    assert q in dirs - keys <==> q in dirs' - keys;
    assert q in dirs ==> (dirs - keys)[q] == (dirs' - keys)[q];
  }

  /** A Prepare leaves a recorded claim's directory as it is, unless it refills it. */
  lemma PrepareKeepsDir(driver: Driver, a: Attempt, s: Store, h: map<UID, Claim>, uid: UID, q: Path)
    requires IsNext(driver, a, s.file, h) && a.call.Prepare? && Holds(ReadOr(s.file), uid)
    requires !Records(driver, a, s.file, uid) && !Refills(driver, a, s.file, uid, q)
    ensures SameAt(Perform(driver, a, s).dirs, s.dirs, q)
  {
    var claim := a.call.claim;
    PerformSteps(driver, a, s);
    if AttemptPlan(driver, a, s.file).steps != [] && a.fates != [] {
      SetupOutside(driver, a, s);
      if claim.uid == uid && Own(driver, claim) != [] {
        HeldIsRestored(driver, a, s.file);
      } else {
        OutsideSame(s.dirs, Perform(driver, a, s).dirs, Metadata(claim.name, Own(driver, claim)).Keys, q);
      }
    }
  }

  /** An Unprepare blanks what it sweeps and nothing else. */
  lemma UnprepareSweeps(driver: Driver, a: Attempt, s: Store, q: Path)
    requires a.call.Unprepare?
    ensures Sweeps(driver, a, s.file, q) ==> Blank(Perform(driver, a, s).dirs, q)
    ensures !Sweeps(driver, a, s.file, q) ==> SameAt(Perform(driver, a, s).dirs, s.dirs, q)
  {
    if Readable(s.file, a.readOk).Some? {
      UnprepareEffect(driver, a, s);
      var entry := FirstEntry(ReadOr(s.file), a.call.uid);
      if entry.Some? {
        RemovalTolerated(entry.value);
      }
      RemovalSweeps(EntryRemoval(entry), a.fates, s, q);
    } else {
      UnreadableUnprepareForgetsAll(driver, a, s);
    }
  }

  // ---- runs ----

  /** Since the claim was last recorded, an Unprepare of any claim swept `q`. */
  ghost predicate Swept(driver: Driver, log: seq<Attempt>, file: File, uid: UID, q: Path) {
    log != [] &&
      var front, last := log[..|log| - 1], log[|log| - 1];
      var now := FileAfter(driver, front, file);
      !Records(driver, last, now, uid) && (Swept(driver, front, file, uid, q) || Sweeps(driver, last, now, q))
  }

  /** Since the claim was last recorded, a Prepare of another claim started to set up `q`. */
  ghost predicate Refilled(driver: Driver, log: seq<Attempt>, file: File, uid: UID, q: Path) {
    log != [] &&
      var front, last := log[..|log| - 1], log[|log| - 1];
      var now := FileAfter(driver, front, file);
      !Records(driver, last, now, uid) && (Refilled(driver, front, file, uid, q) || Refills(driver, last, now, uid, q))
  }

  /** The claim's directory `q` is on disk and its `device.json` is as setup leaves it. */
  ghost predicate OnDisk(driver: Driver, claim: Claim, dirs: map<Path, Option<string>>, q: Path) {
    q in Metadata(claim.name, Own(driver, claim)) && q in dirs && dirs[q] == Metadata(claim.name, Own(driver, claim))[q]
  }

  lemma {:induction false} MetadataSome(claimName: string, own: seq<AllocResult>, q: Path)
    requires q in Metadata(claimName, own)
    ensures Metadata(claimName, own)[q].Some?
  {
    var n := |own| - 1;
    if q != DirPath(claimName, own[n].request) {
      MetadataSome(claimName, own[..n], q);
    }
  }

  /** A claim in the checkpoint was there before, unless the attempt records it. */
  lemma HeldBefore(driver: Driver, a: Attempt, s: Store, uid: UID)
    requires IsLegit(driver, a) && Holds(ReadOr(Perform(driver, a, s).file), uid) && !Records(driver, a, s.file, uid)
    ensures Holds(ReadOr(s.file), uid)
  {
    HoldsMember(ReadOr(Perform(driver, a, s).file), uid);
    var x :| x in ReadOr(Perform(driver, a, s).file) && x.uid == uid;
    if a.call.Prepare? {
      PrepareEntries(driver, a, s, x);
    } else {
      UnprepareKeepsEntries(driver, a, s, x);
    }
    HoldsMember(ReadOr(s.file), uid);
  }

  lemma RecordingPutsOnDisk(driver: Driver, a: Attempt, s: Store, q: Path)
    requires IsLegit(driver, a) && a.call.Prepare? && Replaces(driver, a, s.file)
    requires q in Metadata(a.call.claim.name, Own(driver, a.call.claim))
    ensures OnDisk(driver, a.call.claim, Perform(driver, a, s).dirs, q)
  {
    PrepareMakesIntact(driver, a, s);
  }

  /** One attempt: what it does not sweep stays, and what it sweeps is not on disk. */
  lemma NextOnDisk(driver: Driver, a: Attempt, s: Store, h: map<UID, Claim>, claim: Claim, q: Path)
    requires IsNext(driver, a, s.file, h) && Holds(ReadOr(s.file), claim.uid)
    requires !Records(driver, a, s.file, claim.uid) && !Refills(driver, a, s.file, claim.uid, q)
    requires q in Metadata(claim.name, Own(driver, claim))
    ensures OnDisk(driver, claim, Perform(driver, a, s).dirs, q)
        <==> OnDisk(driver, claim, s.dirs, q) && !Sweeps(driver, a, s.file, q)
  {
    MetadataSome(claim.name, Own(driver, claim), q);
    if a.call.Prepare? {
      PrepareKeepsDir(driver, a, s, h, claim.uid, q);
    } else {
      UnprepareSweeps(driver, a, s, q);
    }
  }

  /** The directory half of safety, at every cut of every run: a recorded claim's directory, which
      no other claim's Prepare has set up since, is on disk with its `device.json` if and only if
      no Unprepare, of this claim or another, has carried out a removal step at or above it. */
  lemma {:induction false} DirectoryOnDiskIff(driver: Driver, log: seq<Attempt>, s: Store, claim: Claim, q: Path)
    requires IsRun(driver, log, s.file) && ReadOr(s.file) == []
    requires Holds(ReadOr(Serial(driver, log, s).file), claim.uid)
    requires claim.uid in History(driver, log, s.file) && History(driver, log, s.file)[claim.uid] == claim
    requires q in Metadata(claim.name, Own(driver, claim)) && !Refilled(driver, log, s.file, claim.uid, q)
    ensures OnDisk(driver, claim, Serial(driver, log, s).dirs, q) <==> !Swept(driver, log, s.file, claim.uid, q)
  {
    if log != [] {
      var front, last := log[..|log| - 1], log[|log| - 1];
      SerialFile(driver, front, s);
      var now := Serial(driver, front, s);
      if Records(driver, last, now.file, claim.uid) {
        RecordingPutsOnDisk(driver, last, now, q);
      } else {
        HeldBefore(driver, last, now, claim.uid);
        DirectoryOnDiskIff(driver, front, s, claim, q);
        NextOnDisk(driver, last, now, History(driver, front, s.file), claim, q);
      }
    }
  }

  // ---- claims that have their directories for themselves ----

  /** Neither setup nor cleanup of `other` reaches the directory `q`. */
  ghost predicate LeavesAlone(driver: Driver, other: Claim, q: Path) {
    q !in Metadata(other.name, Own(driver, other)) && !IsBelow(EntryOf(other), q)
  }

  /** No other claim that the run prepares reaches `q`. */
  ghost predicate Apart(driver: Driver, log: seq<Attempt>, uid: UID, q: Path) {
    forall i :: 0 <= i < |log| && log[i].call.Prepare? && log[i].call.claim.uid != uid ==>
        LeavesAlone(driver, log[i].call.claim, q)
  }

  /** Since the claim was last recorded, an Unprepare of this claim swept `q`. */
  ghost predicate SweptByOwn(driver: Driver, log: seq<Attempt>, file: File, uid: UID, q: Path) {
    log != [] &&
      var front, last := log[..|log| - 1], log[|log| - 1];
      var now := FileAfter(driver, front, file);
      !Records(driver, last, now, uid)
          && (SweptByOwn(driver, front, file, uid, q) || (Sweeps(driver, last, now, q) && last.call.uid == uid))
  }

  lemma ApartFront(driver: Driver, log: seq<Attempt>, uid: UID, q: Path)
    requires log != [] && Apart(driver, log, uid, q)
    ensures Apart(driver, log[..|log| - 1], uid, q)
    ensures log[|log| - 1].call.Prepare? && log[|log| - 1].call.claim.uid != uid ==>
        LeavesAlone(driver, log[|log| - 1].call.claim, q)
  {
    var front := log[..|log| - 1];
    assert forall i :: 0 <= i < |front| ==> front[i] == log[i];
  }

  /** Every claim of the history was prepared in the run. */
  lemma {:induction false} HistoryIsApart(driver: Driver, log: seq<Attempt>, file: File, uid: UID, q: Path, other: UID)
    requires Apart(driver, log, uid, q) && other in History(driver, log, file) && other != uid
    ensures History(driver, log, file)[other].uid == other && LeavesAlone(driver, History(driver, log, file)[other], q)
  {
    var front, last := log[..|log| - 1], log[|log| - 1];
    ApartFront(driver, log, uid, q);
    if !(last.call.Prepare? && Replaces(driver, last, FileAfter(driver, front, file)) && last.call.claim.uid == other) {
      HistoryIsApart(driver, front, file, uid, q, other);
    }
  }

  lemma UnsweptBelow(entry: Entry, fates: seq<bool>, q: Path)
    requires !IsBelow(entry, q)
    ensures !WasSwept(EntryRemoval(Some(entry)), fates, q)
  {
    RemovalShape(RecordedPaths(entry));
    var ops := EntryRemoval(Some(entry));
    forall k | 0 <= k < |ops| ensures !Hits(ops[k], q) {
      assert ops[k] in ops;
    }
  }

  /** Another claim's Unprepare does not sweep a directory that is apart. */
  lemma OthersDoNotSweep(driver: Driver, log: seq<Attempt>, s: Store, a: Attempt, uid: UID, q: Path)
    requires IsRun(driver, log, s.file) && ReadOr(s.file) == [] && Apart(driver, log, uid, q)
    requires a.call.Unprepare? && a.call.uid != uid
    ensures !Sweeps(driver, a, FileAfter(driver, log, s.file), q)
  {
    SerialFile(driver, log, s);
    var file := FileAfter(driver, log, s.file);
    if Readable(file, a.readOk).Some? && Holds(ReadOr(file), a.call.uid) {
      RecordedSafely(driver, log, s, a.call.uid);
      HistoryIsApart(driver, log, s.file, uid, q, a.call.uid);
      UnsweptBelow(EntryOf(History(driver, log, s.file)[a.call.uid]), a.fates, q);
    }
  }

  lemma {:induction false} ApartIsOwn(driver: Driver, log: seq<Attempt>, s: Store, uid: UID, q: Path)
    requires IsRun(driver, log, s.file) && ReadOr(s.file) == [] && Apart(driver, log, uid, q)
    ensures !Refilled(driver, log, s.file, uid, q)
    ensures Swept(driver, log, s.file, uid, q) <==> SweptByOwn(driver, log, s.file, uid, q)
  {
    if log != [] {
      var front, last := log[..|log| - 1], log[|log| - 1];
      ApartFront(driver, log, uid, q);
      ApartIsOwn(driver, front, s, uid, q);
      if last.call.Unprepare? && last.call.uid != uid {
        OthersDoNotSweep(driver, front, s, last, uid, q);
      }
    }
  }

  /** A directory that no other claim of the run reaches is on disk with its `device.json` if and
      only if no Unprepare of its own claim has carried out a removal step at or above it. */
  lemma ApartDirectoryOnDiskIff(driver: Driver, log: seq<Attempt>, s: Store, claim: Claim, q: Path)
    requires IsRun(driver, log, s.file) && ReadOr(s.file) == []
    requires Holds(ReadOr(Serial(driver, log, s).file), claim.uid)
    requires claim.uid in History(driver, log, s.file) && History(driver, log, s.file)[claim.uid] == claim
    requires q in Metadata(claim.name, Own(driver, claim)) && Apart(driver, log, claim.uid, q)
    ensures OnDisk(driver, claim, Serial(driver, log, s).dirs, q) <==> !SweptByOwn(driver, log, s.file, claim.uid, q)
  {
    ApartIsOwn(driver, log, s, claim.uid, q);
    DirectoryOnDiskIff(driver, log, s, claim, q);
  }
}

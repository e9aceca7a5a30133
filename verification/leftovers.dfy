/** Which specifications and directories are on disk after a run, recorded in the checkpoint or not. */
module Leftovers {
  import opened Claims
  import opened Paths
  import opened Disk
  import opened Lifecycle
  import opened Ledger
  import opened Directories
  import opened Effects
  import opened Convergence

  // ---- specifications ----

  /** The claims whose latest completed call is a Prepare. A call completes when it gets up to the
      point where it writes the new checkpoint. */
  ghost function Written(driver: Driver, log: seq<Attempt>, file: File, initially: set<UID>): set<UID> {
    if log == [] then initially
    else
      var front, last := log[..|log| - 1], log[|log| - 1];
      NextWritten(driver, last, FileAfter(driver, front, file), Written(driver, front, file, initially))
  }

  ghost function NextWritten(driver: Driver, a: Attempt, file: File, written: set<UID>): set<UID> {
    if !Completes(driver, a, file) then written
    else
      match a.call
      case Prepare(claim, _, _) => written + {claim.uid}
      case Unprepare(uid) => written - {uid}
  }

  lemma NextSpecs(driver: Driver, a: Attempt, s: Store)
    ensures Perform(driver, a, s).specs.Keys == NextWritten(driver, a, s.file, s.specs.Keys)
  {
    match a.call
    case Prepare(_, _, _) =>
      if Completes(driver, a, s.file) {
        var spec := PrepareWritesSpec(driver, a, s);
      } else {
        PrepareKeepsSpecs(driver, a, s);
      }
    case Unprepare(_) =>
      if Readable(s.file, a.readOk).Some? {
        UnprepareEffect(driver, a, s);
      } else {
        UnreadableUnprepareForgetsAll(driver, a, s);
      }
  }

  /** After every run the specifications on disk are those of exactly the claims whose latest
      completed call is a Prepare. */
  lemma {:induction false} SpecificationsOnDisk(driver: Driver, log: seq<Attempt>, s: Store)
    ensures Serial(driver, log, s).specs.Keys == Written(driver, log, s.file, s.specs.Keys)
  {
    if log != [] {
      var front := log[..|log| - 1];
      SpecificationsOnDisk(driver, front, s);
      SerialFile(driver, front, s);
      NextSpecs(driver, log[|log| - 1], Serial(driver, front, s));
    }
  }

  // ---- directories ----

  /** A step that makes `q`, or writes into it, was reached and succeeded. */
  ghost predicate WasMade(ops: seq<Op>, fates: seq<bool>, q: Path) {
    exists k :: 0 <= k < |ops| && AllSucceed(fates, k + 1) && TouchesDir(ops[k], q)
  }

  lemma WasMadeStep(ops: seq<Op>, fates: seq<bool>, q: Path)
    requires ops != [] && fates != []
    ensures WasMade(ops, fates, q) <==> fates[0] && (TouchesDir(ops[0], q) || WasMade(ops[1..], fates[1..], q))
  {
    if k :| 0 <= k < |ops| - 1 && AllSucceed(fates[1..], k + 1) && TouchesDir(ops[1..][k], q) {
      if fates[0] {
        assert forall j :: 0 < j < k + 2 ==> fates[j] == fates[1..][j - 1];
        assert AllSucceed(fates, k + 2) && TouchesDir(ops[k + 1], q);
      }
    }
    if k :| 0 < k < |ops| && AllSucceed(fates, k + 1) && TouchesDir(ops[k], q) {
      assert AllSucceed(fates[1..], k) && TouchesDir(ops[1..][k - 1], q);
    }
    if fates[0] && TouchesDir(ops[0], q) {
      assert AllSucceed(fates, 1);
    }
  }

  /** Steps that remove nothing leave the directories that were there and those that they made. */
  lemma {:induction false} MadeIsThere(ops: seq<Op>, fates: seq<bool>, s: Store, q: Path)
    requires RemovesNothing(ops)
    ensures q in After(ops, fates, s).dirs <==> q in s.dirs || WasMade(ops, fates, q)
  {
    if ops != [] && fates != [] {
      assert ops[0] in ops && forall op :: op in ops[1..] ==> op in ops;
      WasMadeStep(ops, fates, q);
      if fates[0] {
        MadeIsThere(ops[1..], fates[1..], Apply(ops[0], s), q);
      }
    }
  }

  /** The attempt is a Prepare that got as far as making `q`. */
  ghost predicate Makes(driver: Driver, a: Attempt, file: File, q: Path) {
    a.call.Prepare? && WasMade(AttemptPlan(driver, a, file).steps, a.fates, q)
  }

  /** The attempt is an Unprepare that removed a directory at or above `q`. */
  ghost predicate Removes(driver: Driver, a: Attempt, file: File, q: Path) {
    && a.call.Unprepare? && Readable(file, a.readOk).Some?
    && WasRemoved(EntryRemoval(FirstEntry(Readable(file, a.readOk).value, a.call.uid)), a.fates, q)
  }

  lemma NextDir(driver: Driver, a: Attempt, s: Store, q: Path)
    ensures q in Perform(driver, a, s).dirs
        <==> Makes(driver, a, s.file, q) || (q in s.dirs && !Removes(driver, a, s.file, q))
  {
    if a.call.Prepare? {
      PerformSteps(driver, a, s);
      PrepareRemovesNothing(driver, a, s.file);
      MadeIsThere(AttemptPlan(driver, a, s.file).steps, a.fates, s, q);
    } else if Readable(s.file, a.readOk).Some? {
      NextDirUnprepared(driver, a, s, q);
    } else {
      UnreadableUnprepareForgetsAll(driver, a, s);
    }
  }

  lemma NextDirUnprepared(driver: Driver, a: Attempt, s: Store, q: Path)
    requires a.call.Unprepare? && Readable(s.file, a.readOk).Some?
    ensures q in Perform(driver, a, s).dirs <==> q in s.dirs && !Removes(driver, a, s.file, q)
  {
    var entry := FirstEntry(ReadOr(s.file), a.call.uid);
    UnprepareEffect(driver, a, s);
    if entry.Some? {
      RemovalTolerated(entry.value);
    }
    RemovalLeaves(EntryRemoval(entry), a.fates, s, q);
  }

  /** The latest attempt of the run that made or removed `q` made it. */
  ghost predicate Stands(driver: Driver, log: seq<Attempt>, file: File, q: Path, initially: bool) {
    if log == [] then initially
    else
      var front, last := log[..|log| - 1], log[|log| - 1];
      var now := FileAfter(driver, front, file);
      Makes(driver, last, now, q) || (Stands(driver, front, file, q, initially) && !Removes(driver, last, now, q))
  }

  /** After every run, whichever claims it prepares and wherever its attempts are cut, a directory is
      on disk if and only if the latest attempt that made or removed it made it. */
  lemma {:induction false} DirectoryStandsIff(driver: Driver, log: seq<Attempt>, s: Store, q: Path)
    ensures q in Serial(driver, log, s).dirs <==> Stands(driver, log, s.file, q, q in s.dirs)
  {
    if log != [] {
      var front := log[..|log| - 1];
      DirectoryStandsIff(driver, front, s, q);
      SerialFile(driver, front, s);
      NextDir(driver, log[|log| - 1], Serial(driver, front, s), q);
    }
  }
}

/** Calls step by step: how far a list of fates gets, and what is on disk there. */
module Steps {
  import opened Prelude
  import opened Claims
  import opened Paths
  import opened Cdi
  import opened Devices
  import opened Computed
  import opened Disk
  import opened Lifecycle
  import opened Ledger
  import opened Directories

  // ---- steps that all have to succeed ----

  ghost predicate MustAll(ops: seq<Op>) {
    forall op :: op in ops ==> !Tolerated(op)
  }

  /** Step `k` is the first to fail. */
  ghost predicate FailsAt(fates: seq<bool>, k: nat) {
    k < |fates| && !fates[k] && AllSucceed(fates, k)
  }

  /** Such steps complete when all succeed, fail at the first that does not, and are cut when the
      process dies before that. */
  lemma {:induction false} MustAllStatus(ops: seq<Op>, fates: seq<bool>)
    requires MustAll(ops)
    ensures StatusOf(ops, fates) == Completed <==> AllSucceed(fates, |ops|)
    ensures StatusOf(ops, fates) == Failed <==> exists k: nat :: k < |ops| && FailsAt(fates, k)
    ensures StatusOf(ops, fates) == Crashed <==> |fates| < |ops| && AllSucceed(fates, |fates|)
  {
    if ops != [] && fates != [] {
      assert ops[0] in ops && forall op :: op in ops[1..] ==> op in ops;
      MustAllStatus(ops[1..], fates[1..]);
      ShiftSucceed(fates, |ops|);
      ShiftSucceed(fates, |fates|);
      ShiftFails(fates, |ops|);
    }
  }

  lemma ShiftSucceed(fates: seq<bool>, n: nat)
    requires fates != [] && n > 0
    ensures AllSucceed(fates, n) <==> fates[0] && AllSucceed(fates[1..], n - 1)
  {
    assert forall k :: 0 < k < |fates| ==> fates[k] == fates[1..][k - 1];
    if fates[0] && AllSucceed(fates[1..], n - 1) {
      forall k | 0 <= k < n ensures fates[k] {
        assert k > 0 ==> fates[1..][k - 1];
      }
    }
  }

  lemma ShiftFails(fates: seq<bool>, n: nat)
    requires fates != [] && n > 0
    ensures (exists k: nat :: k < n && FailsAt(fates, k))
       <==> !fates[0] || exists k: nat :: k < n - 1 && FailsAt(fates[1..], k)
  {
    if k: nat :| k < n && FailsAt(fates, k) {
      if k > 0 {
        ShiftSucceed(fates, k);
        assert FailsAt(fates[1..], k - 1);
      }
    }
    if !fates[0] {
      assert FailsAt(fates, 0);
    } else if k: nat :| k < n - 1 && FailsAt(fates[1..], k) {
      ShiftSucceed(fates, k + 1);
      assert FailsAt(fates, k + 1);
    }
  }

  // ---- what such steps leave ----

  function Applied(ops: seq<Op>, s: Store): Store {
    if ops == [] then s else Applied(ops[1..], Apply(ops[0], s))
  }

  /** The first `n` fates are successes, and the next one, if any, is a failure. */
  ghost predicate GetsTo(fates: seq<bool>, n: nat, length: nat) {
    n <= length && AllSucceed(fates, n) && (n == length || n == |fates| || !fates[n])
  }

  lemma {:induction false} AfterApplied(ops: seq<Op>, fates: seq<bool>, n: nat, s: Store)
    requires MustAll(ops) && GetsTo(fates, n, |ops|)
    ensures After(ops, fates, s) == Applied(ops[..n], s)
  {
    if ops != [] && fates != [] {
      assert ops[0] in ops && forall op :: op in ops[1..] ==> op in ops;
      if n > 0 {
        assert ops[..n][1..] == ops[1..][..n - 1];
        ShiftSucceed(fates, n);
        AfterApplied(ops[1..], fates[1..], n - 1, Apply(ops[0], s));
      }
    }
  }

  /** One claim directory, step by step: made, empty, when it was not there, with its `device.json`
      as it was until that is truncated, and complete once it has been filled. */
  lemma DirectoryStepByStep(path: Path, device: string, fates: seq<bool>, n: nat, s: Store)
    requires GetsTo(fates, n, 5)
    ensures After(DirOps(path, device), fates, s).dirs ==
              if n == 0 then s.dirs
              else if n <= 2 then (if path in s.dirs then s.dirs else s.dirs[path := None])
              else if n == 3 then s.dirs[path := None]
              else s.dirs[path := Some(device)]
    ensures StatusOf(DirOps(path, device), fates) == Completed <==> n == 5
  {
    var ops := DirOps(path, device);
    AfterApplied(ops, fates, n, s);
    MustAllStatus(ops, fates);
    DirectoryApplied(path, device, n, s);
  }

  function DirsAfter(path: Path, device: string, n: nat, dirs: map<Path, Option<string>>): map<Path, Option<string>> {
    if n == 0 then dirs
    else if n <= 2 then (if path in dirs then dirs else dirs[path := None])
    else if n == 3 then dirs[path := None]
    else dirs[path := Some(device)]
  }

  lemma DirOpAt(path: Path, device: string, n: nat)
    requires n < 5
    ensures DirOps(path, device)[n]
         == if n == 0 then MakeDir(path)
            else if n == 2 then TruncateMeta(path)
            else if n == 3 then FillMeta(path, device)
            else Label(path)
  {
  }

  lemma DirStep(path: Path, device: string, n: nat, dirs: map<Path, Option<string>>, s: Store)
    requires n < 5 && s.dirs == DirsAfter(path, device, n, dirs)
    ensures Apply(DirOps(path, device)[n], s).dirs == DirsAfter(path, device, n + 1, dirs)
  {
    DirOpAt(path, device, n);
  }

  lemma {:induction false} DirectoryApplied(path: Path, device: string, n: nat, s: Store)
    requires n <= 5
    ensures Applied(DirOps(path, device)[..n], s).dirs == DirsAfter(path, device, n, s.dirs)
  {
    if n > 0 {
      var ops := DirOps(path, device)[..n];
      DirectoryApplied(path, device, n - 1, s);
      assert ops[..n - 1] == DirOps(path, device)[..n - 1] && ops[n - 1] == DirOps(path, device)[n - 1];
      AppliedLast(ops, s);
      DirStep(path, device, n - 1, s.dirs, Applied(ops[..n - 1], s));
    }
  }

  lemma {:induction false} AppliedLast(ops: seq<Op>, s: Store)
    requires ops != []
    ensures Applied(ops, s) == Apply(ops[|ops| - 1], Applied(ops[..|ops| - 1], s))
  {
    if |ops| > 1 {
      AppliedLast(ops[1..], Apply(ops[0], s));
      assert ops[1..][..|ops| - 2] == ops[..|ops| - 1][1..];
    }
  }

  // ---- temporary files ----

  /** The temporary file that a write of the checkpoint leaves: none before it is created and none
      once it has been renamed. */
  function TempLeft(entries: seq<Entry>, n: nat): seq<Content> {
    if n == 0 || n >= 4 then [] else if n == 1 then [Torn] else [Whole(entries)]
  }

  lemma WriteOpAt(entries: seq<Entry>, n: nat)
    requires n < 5
    ensures WriteOps(entries)[n]
         == if n == 0 then CreateTemp
            else if n == 1 then EncodeTemp(entries)
            else if n == 2 then SyncTemp
            else if n == 3 then RenameTemp
            else CloseTemp
  {
  }

  lemma WriteStep(entries: seq<Entry>, n: nat, base: seq<Content>, s: Store)
    requires n < 5 && s.temps == base + TempLeft(entries, n)
    ensures Apply(WriteOps(entries)[n], s).temps == base + TempLeft(entries, n + 1)
  {
    WriteOpAt(entries, n);
    if 0 < n < 4 {
      assert s.temps[..|s.temps| - 1] == base;
    }
  }

  lemma {:induction false} WriteApplied(entries: seq<Entry>, n: nat, s: Store)
    requires n <= 5
    ensures Applied(WriteOps(entries)[..n], s).temps == s.temps + TempLeft(entries, n)
  {
    if n > 0 {
      var ops := WriteOps(entries)[..n];
      WriteApplied(entries, n - 1, s);
      assert ops[..n - 1] == WriteOps(entries)[..n - 1] && ops[n - 1] == WriteOps(entries)[n - 1];
      AppliedLast(ops, s);
      WriteStep(entries, n - 1, s.temps, Applied(ops[..n - 1], s));
    }
  }

  /** A write that gets through `n` of its steps leaves at most its own temporary file, and none if
      it was renamed. */
  lemma WriteTemps(entries: seq<Entry>, fates: seq<bool>, n: nat, s: Store)
    requires GetsTo(fates, n, 5)
    ensures After(WriteOps(entries), fates, s).temps == s.temps + TempLeft(entries, n)
    ensures WriteReplaces(fates) <==> n >= 4
  {
    AfterApplied(WriteOps(entries), fates, n, s);
    WriteApplied(entries, n, s);
  }

  /** How many of `length` steps succeed before the first that does not. */
  function Reached(fates: seq<bool>, length: nat): (n: nat)
    ensures GetsTo(fates, n, length)
  {
    if length == 0 || fates == [] || !fates[0] then 0
    else
      var rest := Reached(fates[1..], length - 1);
      assert forall k :: 0 < k < |fates| ==> fates[k] == fates[1..][k - 1];
      rest + 1
  }

  /** The temporary file that an attempt leaves. */
  ghost function AttemptTemp(driver: Driver, a: Attempt, file: File): seq<Content> {
    var plan := AttemptPlan(driver, a, file);
    if plan.write.None? || StatusOf(plan.steps, a.fates) != Completed then []
    else TempLeft(plan.write.value, Reached(Rest(plan.steps, a.fates), 5))
  }

  lemma PlanTemps(steps: seq<Op>, write: Option<seq<Entry>>, fates: seq<bool>, s: Store)
    requires forall op :: op in steps ==> !TouchesFile(op)
    ensures After(steps + (if write.Some? then WriteOps(write.value) else []), fates, s).temps == s.temps +
              (if write.None? || StatusOf(steps, fates) != Completed then []
               else TempLeft(write.value, Reached(Rest(steps, fates), 5)))
  {
    FileUntouched(steps, fates, s);
    assert s.temps + [] == s.temps;
    if write.Some? {
      RunConcat(steps, WriteOps(write.value), fates, s);
      WriteTemps(write.value, Rest(steps, fates), Reached(Rest(steps, fates), 5), After(steps, fates, s));
    } else {
      assert steps + [] == steps;
    }
  }

  lemma AttemptTemps(driver: Driver, a: Attempt, s: Store)
    ensures Perform(driver, a, s).temps == s.temps + AttemptTemp(driver, a, s.file)
    ensures Replaces(driver, a, s.file) ==> AttemptTemp(driver, a, s.file) == []
  {
    var plan := AttemptPlan(driver, a, s.file);
    StepsLeaveFile(driver, a, s.file);
    PlanTemps(plan.steps, plan.write, a.fates, s);
    if plan.write.Some? {
      WriteTemps(plan.write.value, Rest(plan.steps, a.fates), Reached(Rest(plan.steps, a.fates), 5), s);
    }
  }

  ghost function TempsOf(driver: Driver, log: seq<Attempt>, file: File): seq<Content> {
    if log == [] then []
    else
      var front := log[..|log| - 1];
      TempsOf(driver, front, file) + AttemptTemp(driver, log[|log| - 1], FileAfter(driver, front, file))
  }

  /** After every run the temporary files are those that were there and one for each attempt that
      ended between creating its own and renaming it. */
  lemma {:induction false} TempsAfterRun(driver: Driver, log: seq<Attempt>, s: Store)
    ensures Serial(driver, log, s).temps == s.temps + TempsOf(driver, log, s.file)
  {
    if log == [] {
      assert s.temps + [] == s.temps;
    } else {
      var front := log[..|log| - 1];
      TempsAfterRun(driver, front, s);
      SerialFile(driver, front, s);
      AttemptTemps(driver, log[|log| - 1], Serial(driver, front, s));
    }
  }

  // ---- what a call reports, step by step ----

  lemma {:induction false} SetupLength(claimName: string, own: seq<AllocResult>)
    ensures |SetupOps(claimName, own)| == 5 * |own|
  {
    if own != [] {
      SetupLength(claimName, own[..|own| - 1]);
    }
  }

  lemma {:induction false} RemovalLengthIs(paths: seq<Path>)
    ensures |RemovalOps(paths)| == 2 * |paths|
  {
    if paths != [] {
      RemovalLengthIs(paths[..|paths| - 1]);
    }
  }

  /** The steps of a first Prepare, and how it ends when they succeed. */
  lemma FirstPlan(driver: Driver, a: Attempt, file: File)
    requires a.call.Prepare? && a.readOk && ReadEntries(file).Some?
    requires !Holds(ReadEntries(file).value, a.call.claim.uid)
    requires Compute(driver, a.call.claim, a.call.first, a.call.second).Ok?
    ensures var plan, claim := AttemptPlan(driver, a, file), a.call.claim;
            var prepared := Compute(driver, claim, a.call.first, a.call.second).value;
            && plan.ending == Returns(GetDevices(prepared)) && plan.write.Some?
            && plan.steps
                 == SetupOps(claim.name, Own(driver, claim))
                 + [PutSpec(claim.uid, ClaimSpec(driver, claim.uid, prepared))]
  {
  }

  lemma SetupMustAll(claimName: string, own: seq<AllocResult>, uid: UID, spec: Spec, entries: seq<Entry>)
    ensures MustAll(SetupOps(claimName, own) + [PutSpec(uid, spec)] + WriteOps(entries))
    ensures |SetupOps(claimName, own) + [PutSpec(uid, spec)] + WriteOps(entries)| == 5 * |own| + 6
  {
    SetupShape(claimName, own);
    SetupLength(claimName, own);
    WriteMustAll(entries);
  }

  lemma FirstOps(driver: Driver, a: Attempt, file: File)
    requires a.call.Prepare? && a.readOk && ReadEntries(file).Some?
    requires !Holds(ReadEntries(file).value, a.call.claim.uid)
    requires Compute(driver, a.call.claim, a.call.first, a.call.second).Ok?
    ensures MustAll(Ops(AttemptPlan(driver, a, file)))
    ensures |Ops(AttemptPlan(driver, a, file))| == 5 * |Own(driver, a.call.claim)| + 6
    ensures AttemptPlan(driver, a, file).ending.Returns?
  {
    var claim := a.call.claim;
    FirstPlan(driver, a, file);
    SetupMustAll(claim.name, Own(driver, claim), claim.uid,
        ClaimSpec(driver, claim.uid, Compute(driver, claim, a.call.first, a.call.second).value),
            AttemptPlan(driver, a, file).write.value);
  }

  /** What a first Prepare of a computable claim reports: it has five steps for each own result and
      six more, returns when all succeed, errs at the first that fails, and dies when the process
      does before that. */
  lemma FirstPrepareReports(driver: Driver, a: Attempt, file: File)
    requires a.call.Prepare? && a.readOk && ReadEntries(file).Some?
    requires !Holds(ReadEntries(file).value, a.call.claim.uid) && Computable(driver, a.call.claim)
    ensures var n, outcome := 5 * |Own(driver, a.call.claim)| + 6, OutcomeOf(driver, a, file);
            && (outcome.Returned? <==> AllSucceed(a.fates, n))
            && (outcome.Errored? <==> exists k: nat :: k < n && FailsAt(a.fates, k))
            && (outcome.Died? <==> |a.fates| < n && AllSucceed(a.fates, |a.fates|))
  {
    ComputeSucceedsIff(driver, a.call.claim, a.call.first, a.call.second);
    FirstOps(driver, a, file);
    MustAllStatus(Ops(AttemptPlan(driver, a, file)), a.fates);
  }

  lemma SetupAloneMustAll(claimName: string, own: seq<AllocResult>)
    ensures MustAll(SetupOps(claimName, own)) && |SetupOps(claimName, own)| == 5 * |own|
  {
    SetupShape(claimName, own);
    SetupLength(claimName, own);
  }

  lemma UncomputableOps(driver: Driver, a: Attempt, file: File)
    requires a.call.Prepare? && a.readOk && ReadEntries(file).Some? && a.call.claim.allocation.Some?
    requires !Holds(ReadEntries(file).value, a.call.claim.uid)
    requires Compute(driver, a.call.claim, a.call.first, a.call.second).Err?
    ensures Ops(AttemptPlan(driver, a, file)) == SetupOps(a.call.claim.name, Own(driver, a.call.claim))
    ensures AttemptPlan(driver, a, file).ending == Fails
  {
  }

  /** What a first Prepare of an allocated claim that cannot be computed reports: never a success,
      and an error unless the process dies while it makes the directories. */
  lemma UncomputablePrepareReports(driver: Driver, a: Attempt, file: File)
    requires a.call.Prepare? && a.readOk && ReadEntries(file).Some? && a.call.claim.allocation.Some?
    requires !Holds(ReadEntries(file).value, a.call.claim.uid) && !Computable(driver, a.call.claim)
    ensures var n, outcome := 5 * |Own(driver, a.call.claim)|, OutcomeOf(driver, a, file);
            && (outcome.Errored? <==> AllSucceed(a.fates, n) || exists k: nat :: k < n && FailsAt(a.fates, k))
            && (outcome.Died? <==> |a.fates| < n && AllSucceed(a.fates, |a.fates|))
  {
    ComputeSucceedsIff(driver, a.call.claim, a.call.first, a.call.second);
    UncomputableOps(driver, a, file);
    SetupAloneMustAll(a.call.claim.name, Own(driver, a.call.claim));
    MustAllStatus(SetupOps(a.call.claim.name, Own(driver, a.call.claim)), a.fates);
  }

  /** A Prepare of a claim in the checkpoint that has own results changes nothing, and reports a
      success exactly when the claim can be computed again, and an error otherwise. */
  lemma HeldPrepareReports(driver: Driver, a: Attempt, s: Store)
    requires a.call.Prepare? && a.readOk && ReadEntries(s.file).Some? && IsLegit(driver, a)
    requires Holds(ReadEntries(s.file).value, a.call.claim.uid) && Own(driver, a.call.claim) != []
    ensures Perform(driver, a, s) == s
    ensures OutcomeOf(driver, a, s.file).Returned? <==> Computable(driver, a.call.claim)
    ensures OutcomeOf(driver, a, s.file).Errored? <==> !Computable(driver, a.call.claim)
  {
    ComputeSucceedsIff(driver, a.call.claim, a.call.first, a.call.second);
    if Computable(driver, a.call.claim) {
      NothingPreparedIff(driver, a.call.claim, a.call.first, a.call.second);
    }
    assert Ops(AttemptPlan(driver, a, s.file)) == [];
  }

  /** A Prepare that cannot read the checkpoint, or finds it torn, reports an error and changes
      nothing. */
  lemma BlindPrepareReports(driver: Driver, a: Attempt, s: Store)
    requires a.call.Prepare? && (!a.readOk || s.file == Present(Torn))
    ensures Perform(driver, a, s) == s && OutcomeOf(driver, a, s.file) == Errored
  {
    assert Ops(AttemptPlan(driver, a, s.file)) == [];
  }

  lemma ForgetMustAll(uid: UID, entries: seq<Entry>)
    ensures MustAll([DropSpec(uid)] + WriteOps(entries)) && |[DropSpec(uid)] + WriteOps(entries)| == 6
  {
  }

  lemma {:induction false} PassRemoval(removal: seq<Op>, rest: seq<Op>, fates: seq<bool>)
    requires forall op :: op in removal ==> Tolerated(op)
    ensures StatusOf(removal + rest, fates)
         == if |fates| < |removal| then Crashed else StatusOf(rest, fates[|removal|..])
  {
    RemovalStatus(removal, fates);
    RunConcat(removal, rest, fates, Store(Missing, [], map[], map[]));
  }

  /** The first steps may fail; of the others, each has to succeed. */
  ghost predicate ReportsAs(status: Status, fates: seq<bool>, skipped: nat, n: nat) {
    if |fates| < skipped then status == Crashed
    else
      var rest := fates[skipped..];
      && (status == Completed <==> AllSucceed(rest, n))
      && (status == Failed <==> exists k: nat :: k < n && FailsAt(rest, k))
      && (status == Crashed <==> |rest| < n && AllSucceed(rest, |rest|))
  }

  lemma PassThenMust(removal: seq<Op>, rest: seq<Op>, fates: seq<bool>)
    requires (forall op :: op in removal ==> Tolerated(op)) && MustAll(rest)
    ensures ReportsAs(StatusOf(removal + rest, fates), fates, |removal|, |rest|)
  {
    PassRemoval(removal, rest, fates);
    if |fates| >= |removal| {
      MustAllStatus(rest, fates[|removal|..]);
    }
  }

  /** The number of steps with which Unprepare removes directories. */
  function RemovalSteps(entry: Option<Entry>): nat {
    if entry.Some? then 2 * |entry.value.devices| else 0
  }

  lemma EntryRemovalShape(entry: Option<Entry>)
    ensures |EntryRemoval(entry)| == RemovalSteps(entry)
    ensures forall op :: op in EntryRemoval(entry) ==> Tolerated(op)
  {
    if entry.Some? {
      RemovalTolerated(entry.value);
      RemovalLengthIs(RecordedPaths(entry.value));
    }
  }

  lemma UnpreparePlanOps(entries: seq<Entry>, uid: UID)
    ensures Ops(UnpreparePlan(Some(entries), uid))
         == EntryRemoval(FirstEntry(entries, uid)) + ([DropSpec(uid)] + WriteOps(Without(entries, uid)))
    ensures UnpreparePlan(Some(entries), uid).ending == Returns([])
  {
  }

  lemma UnprepareOps(driver: Driver, a: Attempt, file: File)
    requires a.call.Unprepare? && a.readOk && ReadEntries(file).Some?
    ensures var entries := ReadEntries(file).value;
            && AttemptPlan(driver, a, file).ending == Returns([])
            && Ops(AttemptPlan(driver, a, file))
                 == EntryRemoval(FirstEntry(entries, a.call.uid))
                 + ([DropSpec(a.call.uid)] + WriteOps(Without(entries, a.call.uid)))
  {
    assert AttemptPlan(driver, a, file) == UnpreparePlan(ReadEntries(file), a.call.uid);
    UnpreparePlanOps(ReadEntries(file).value, a.call.uid);
  }

  lemma UnprepareStatus(driver: Driver, a: Attempt, file: File)
    requires a.call.Unprepare? && a.readOk && ReadEntries(file).Some?
    ensures ReportsAs(StatusOf(Ops(AttemptPlan(driver, a, file)), a.fates), a.fates,
              RemovalSteps(FirstEntry(ReadEntries(file).value, a.call.uid)), 6)
  {
    var entries, uid := ReadEntries(file).value, a.call.uid;
    UnprepareOps(driver, a, file);
    EntryRemovalShape(FirstEntry(entries, uid));
    ForgetMustAll(uid, Without(entries, uid));
    PassThenMust(EntryRemoval(FirstEntry(entries, uid)), [DropSpec(uid)] + WriteOps(Without(entries, uid)), a.fates);
  }

  /** What an Unprepare that can read the checkpoint reports: it has two steps for each recorded
      device, whose failure does not count, and six more. */
  lemma UnprepareReports(driver: Driver, a: Attempt, file: File)
    requires a.call.Unprepare? && a.readOk && ReadEntries(file).Some?
    ensures var entry, outcome := FirstEntry(ReadEntries(file).value, a.call.uid), OutcomeOf(driver, a, file);
            var skipped := if entry.Some? then 2 * |entry.value.devices| else 0;
            if |a.fates| < skipped then outcome == Died
            else
              var rest := a.fates[skipped..];
              && (outcome == Returned([]) <==> AllSucceed(rest, 6))
              && (outcome.Errored? <==> exists k: nat :: k < 6 && FailsAt(rest, k))
              && (outcome.Died? <==> |rest| < 6 && AllSucceed(rest, |rest|))
  {
    UnprepareOps(driver, a, file);
    UnprepareStatus(driver, a, file);
  }

  lemma BlindPlan(driver: Driver, a: Attempt, file: File)
    requires a.call.Unprepare? && Readable(file, a.readOk).None?
    ensures Ops(AttemptPlan(driver, a, file)) == WriteOps([]) && AttemptPlan(driver, a, file).ending == Panics
  {
  }

  lemma WriteMustAll(entries: seq<Entry>)
    ensures MustAll(WriteOps(entries)) && |WriteOps(entries)| == 5
  {
  }

  /** What an Unprepare that cannot read the checkpoint reports: an error when a step of writing the
      empty one fails, and otherwise the process is dead, by itself if all steps succeed. */
  lemma BlindUnprepareReports(driver: Driver, a: Attempt, file: File)
    requires a.call.Unprepare? && (!a.readOk || file == Present(Torn))
    ensures OutcomeOf(driver, a, file).Errored? <==> exists k: nat :: k < 5 && FailsAt(a.fates, k)
    ensures !OutcomeOf(driver, a, file).Errored? ==> OutcomeOf(driver, a, file).Died?
  {
    BlindPlan(driver, a, file);
    WriteMustAll([]);
    MustAllStatus(WriteOps([]), a.fates);
  }
}

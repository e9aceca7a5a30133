/** Prepare and Unprepare as lists of durable steps, and runs of many calls. */
module Lifecycle {
  import opened Prelude
  import opened Claims
  import opened Paths
  import opened Cdi
  import opened Devices
  import opened Disk

  // ---- the checkpoint's content ----

  function DeviceNames(results: seq<AllocResult>): (names: seq<string>)
    ensures |names| == |results|
    ensures forall i :: 0 <= i < |results| ==> names[i] == results[i].device
  {
    seq(|results|, i requires 0 <= i < |results| => results[i].device)
  }

  /** By device name only: a later result replaces an earlier one with the same name, also
      when they belong to different drivers. */
  function DeviceRequests(results: seq<AllocResult>): map<string, string> {
    if results == [] then map[]
    else
      var last := results[|results| - 1];
      DeviceRequests(results[..|results| - 1])[last.device := last.request]
  }

  /** What the checkpoint records of a claim: every result, whichever driver it belongs to. */
  function EntryOf(claim: Claim): Entry {
    Entry(claim.uid, claim.name, DeviceNames(ClaimResults(claim)), DeviceRequests(ClaimResults(claim)))
  }

  predicate Holds(entries: seq<Entry>, uid: UID) {
    exists i :: 0 <= i < |entries| && entries[i].uid == uid
  }

  function FirstEntry(entries: seq<Entry>, uid: UID): (found: Option<Entry>)
    ensures found.Some? <==> Holds(entries, uid)
    ensures found.Some? ==> found.value in entries && found.value.uid == uid
  {
    if entries == [] then None
    else if entries[0].uid == uid then Some(entries[0])
    else
      var rest := FirstEntry(entries[1..], uid);
      assert rest.None? ==> forall i :: 0 < i < |entries| ==> entries[i] == entries[1..][i - 1];
      rest
  }

  /** It is the first one. */
  lemma {:induction false} FirstEntryIsFirst(entries: seq<Entry>, uid: UID)
    requires Holds(entries, uid)
    ensures exists i :: 0 <= i < |entries| && FirstEntry(entries, uid) == Some(entries[i])
              && forall j :: 0 <= j < i ==> entries[j].uid != uid
  {
    if entries[0].uid != uid {
      assert FirstEntry(entries, uid) == FirstEntry(entries[1..], uid);
      FirstEntryIsFirst(entries[1..], uid);
      var i :| 0 <= i < |entries| - 1 && FirstEntry(entries[1..], uid) == Some(entries[1..][i])
        && forall j :: 0 <= j < i ==> entries[1..][j].uid != uid;
      assert entries[1..][i] == entries[i + 1];
      assert forall j :: 0 < j < i + 1 ==> entries[j] == entries[1..][j - 1];
    }
  }

  /** `slices.DeleteFunc`: all entries of a claim go, the others keep their order. */
  function Without(entries: seq<Entry>, uid: UID): seq<Entry> {
    if entries == [] then []
    else
      var n := |entries| - 1;
      Without(entries[..n], uid) + (if entries[n].uid == uid then [] else [entries[n]])
  }

  // ---- the steps ----

  function DirOps(path: Path, device: string): seq<Op> {
    [MakeDir(path), Label(path), TruncateMeta(path), FillMeta(path, device), Label(path)]
  }

  function SetupOps(claimName: string, own: seq<AllocResult>): seq<Op> {
    if own == [] then []
    else
      var last := own[|own| - 1];
      SetupOps(claimName, own[..|own| - 1]) + DirOps(DirPath(claimName, last.request), last.device)
  }

  function RequestOf(requests: map<string, string>, device: string): string {
    if device in requests then requests[device] else ""
  }

  /** The directories that Unprepare of a recorded claim removes. */
  function RecordedPaths(entry: Entry): (paths: seq<Path>)
    ensures |paths| == |entry.devices|
  {
    seq(|entry.devices|,
        i requires 0 <= i < |entry.devices| => DirPath(entry.name, RequestOf(entry.deviceRequests, entry.devices[i])))
  }

  function RemovalOps(paths: seq<Path>): seq<Op> {
    if paths == [] then []
    else
      var n := |paths| - 1;
      RemovalOps(paths[..n]) + [StripTree(paths[n]), RemoveTree(paths[n])]
  }

  function EntryRemoval(entry: Option<Entry>): seq<Op> {
    if entry.Some? then RemovalOps(RecordedPaths(entry.value)) else []
  }

  /** What a call does once its steps are done. */
  datatype Ending = Returns(devices: seq<Device>) | Fails | Panics

  /** Steps, then possibly a replacement of the checkpoint, then the ending. */
  datatype Plan = Plan(steps: seq<Op>, write: Option<seq<Entry>>, ending: Ending)

  function Ops(plan: Plan): seq<Op> {
    plan.steps + (if plan.write.Some? then WriteOps(plan.write.value) else [])
  }

  /** First-time setup. A missing allocation is dereferenced before it is checked. */
  ghost function SetupPlan(driver: Driver, entries: seq<Entry>, claim: Claim, first: seq<nat>, second: seq<nat>): Plan {
    if claim.allocation.None? then Plan([], None, Panics)
    else
      var setup := SetupOps(claim.name, Own(driver, claim));
      match Compute(driver, claim, first, second)
      case Err(_) => Plan(setup, None, Fails)
      case Ok(prepared) =>
        Plan(setup + [PutSpec(claim.uid, ClaimSpec(driver, claim.uid, prepared))], Some(entries + [EntryOf(claim)]),
            Returns(GetDevices(prepared)))
  }

  /** A claim found in the checkpoint is restored, unless nothing of it is this driver's. */
  ghost function PreparePlan(driver: Driver, readable: Option<seq<Entry>>, claim: Claim, first: seq<nat>,
      second: seq<nat>): Plan {
    if readable.None? then Plan([], None, Fails)
    else if Holds(readable.value, claim.uid) then
      match Compute(driver, claim, first, second)
      case Err(_) => Plan([], None, Fails)
      case Ok(prepared) =>
        if prepared != [] then Plan([], None, Returns(GetDevices(prepared)))
        else SetupPlan(driver, readable.value, claim, first, second)
    else SetupPlan(driver, readable.value, claim, first, second)
  }

  /** An unreadable checkpoint is replaced by an empty one, and then dereferenced as nil. */
  function UnpreparePlan(readable: Option<seq<Entry>>, uid: UID): Plan {
    if readable.None? then Plan([], Some([]), Panics)
    else Plan(EntryRemoval(FirstEntry(readable.value, uid)) + [DropSpec(uid)], Some(Without(readable.value, uid)),
        Returns([]))
  }

  // ---- calls ----

  datatype Call =
    | Prepare(claim: Claim, first: seq<nat>, second: seq<nat>)
    | Unprepare(uid: UID)

  /** A call with its environment: whether the checkpoint file can be read, and the fates of
      the durable steps. */
  datatype Attempt = Attempt(call: Call, readOk: bool, fates: seq<bool>)

  datatype Outcome = Returned(devices: seq<Device>) | Errored | Died

  function Readable(file: File, readOk: bool): Option<seq<Entry>> {
    if readOk then ReadEntries(file) else None
  }

  ghost function PlanOf(driver: Driver, call: Call, file: File, readOk: bool): Plan {
    match call
    case Prepare(claim, first, second) => PreparePlan(driver, Readable(file, readOk), claim, first, second)
    case Unprepare(uid) => UnpreparePlan(Readable(file, readOk), uid)
  }

  ghost function AttemptPlan(driver: Driver, a: Attempt, file: File): Plan {
    PlanOf(driver, a.call, file, a.readOk)
  }

  ghost function Perform(driver: Driver, a: Attempt, s: Store): Store {
    After(Ops(AttemptPlan(driver, a, s.file)), a.fates, s)
  }

  function Conclude(status: Status, ending: Ending): Outcome {
    match status
    case Crashed => Died
    case Failed => Errored
    case Completed =>
      match ending
      case Returns(devices) => Returned(devices)
      case Fails => Errored
      case Panics => Died
  }

  ghost function OutcomeOf(driver: Driver, a: Attempt, file: File): Outcome {
    var plan := AttemptPlan(driver, a, file);
    Conclude(StatusOf(Ops(plan), a.fates), plan.ending)
  }

  /** The attempt gets as far as replacing the checkpoint file. */
  ghost predicate Replaces(driver: Driver, a: Attempt, file: File) {
    var plan := AttemptPlan(driver, a, file);
    && plan.write.Some?
    && StatusOf(plan.steps, a.fates) == Completed
    && WriteReplaces(Rest(plan.steps, a.fates))
  }

  ghost function NextFile(driver: Driver, a: Attempt, file: File): File {
    if Replaces(driver, a, file) then Present(Whole(AttemptPlan(driver, a, file).write.value)) else file
  }

  /** Every attempt, cut anywhere, in order. */
  ghost function Serial(driver: Driver, log: seq<Attempt>, s: Store): Store {
    if log == [] then s
    else Perform(driver, log[|log| - 1], Serial(driver, log[..|log| - 1], s))
  }

  lemma SerialStep(driver: Driver, log: seq<Attempt>, a: Attempt, s: Store)
    ensures Serial(driver, log + [a], s) == Perform(driver, a, Serial(driver, log, s))
  {
    assert (log + [a])[..|log|] == log;
  }

  lemma {:induction false} SerialConcat(driver: Driver, log: seq<Attempt>, rest: seq<Attempt>, s: Store)
    ensures Serial(driver, log + rest, s) == Serial(driver, rest, Serial(driver, log, s))
  {
    if rest == [] {
      assert log + rest == log;
    } else {
      var front, last := rest[..|rest| - 1], rest[|rest| - 1];
      assert rest == front + [last] && log + rest == log + front + [last];
      SerialConcat(driver, log, front, s);
      SerialStep(driver, log + front, last, s);
      SerialStep(driver, front, last, Serial(driver, log, s));
    }
  }

  /** A run cut open at attempt `i`. */
  lemma SerialAt(driver: Driver, log: seq<Attempt>, i: nat, s: Store)
    requires i < |log|
    ensures Serial(driver, log, s) == Serial(driver, log[i + 1..], Perform(driver, log[i], Serial(driver, log[..i], s)))
  {
    assert log == log[..i] + [log[i]] + log[i + 1..];
    SerialConcat(driver, log[..i] + [log[i]], log[i + 1..], s);
    SerialStep(driver, log[..i], log[i], s);
  }

  // ---- which parts of the store a plan can change ----

  ghost predicate IsSetupOp(op: Op) {
    op.MakeDir? || op.Label? || op.TruncateMeta? || op.FillMeta?
  }

  /** A claim directory of one of the results. */
  ghost predicate IsDirOf(claimName: string, results: seq<AllocResult>, path: Path) {
    exists i :: 0 <= i < |results| && path == DirPath(claimName, results[i].request)
  }

  lemma LongerDirOf(claimName: string, results: seq<AllocResult>, n: nat, path: Path)
    requires n <= |results| && IsDirOf(claimName, results[..n], path)
    ensures IsDirOf(claimName, results, path)
  {
    var i :| 0 <= i < n && path == DirPath(claimName, results[..n][i].request);
    assert results[..n][i] == results[i];
  }

  lemma DirOpsShape(path: Path, device: string, op: Op)
    requires op in DirOps(path, device)
    ensures IsSetupOp(op) && op.path == path
  {
  }

  lemma {:induction false} SetupStep(claimName: string, own: seq<AllocResult>, op: Op)
    requires op in SetupOps(claimName, own)
    ensures IsSetupOp(op) && IsDirOf(claimName, own, op.path)
  {
    var n := |own| - 1;
    if op in SetupOps(claimName, own[..n]) {
      SetupStep(claimName, own[..n], op);
      LongerDirOf(claimName, own, n, op.path);
    } else {
      DirOpsShape(DirPath(claimName, own[n].request), own[n].device, op);
    }
  }

  lemma SetupShape(claimName: string, own: seq<AllocResult>)
    ensures forall op :: op in SetupOps(claimName, own) ==> IsSetupOp(op) && IsDirOf(claimName, own, op.path)
  {
    forall op | op in SetupOps(claimName, own) ensures IsSetupOp(op) && IsDirOf(claimName, own, op.path) {
      SetupStep(claimName, own, op);
    }
  }

  lemma {:induction false} RemovalShape(paths: seq<Path>)
    ensures forall op :: op in RemovalOps(paths) ==> (op.StripTree? || op.RemoveTree?) && op.path in paths
  {
    if paths != [] {
      var front, last := paths[..|paths| - 1], paths[|paths| - 1];
      RemovalShape(front);
      assert paths == front + [last];
    }
  }

  lemma StepsLeaveFile(driver: Driver, a: Attempt, file: File)
    ensures forall op :: op in AttemptPlan(driver, a, file).steps ==> !TouchesFile(op)
  {
    match a.call
    case Prepare(claim, _, _) => SetupShape(claim.name, Own(driver, claim));
    case Unprepare(uid) =>
      var readable := Readable(file, a.readOk);
      if readable.Some? {
        var entry := FirstEntry(readable.value, uid);
        if entry.Some? {
          RemovalShape(RecordedPaths(entry.value));
        }
      }
  }

  /** A plan run from another state than the one it was made for. */
  lemma PlanFile(driver: Driver, a: Attempt, file: File, s: Store)
    ensures After(Ops(AttemptPlan(driver, a, file)), a.fates, s).file ==
              if Replaces(driver, a, file) then Present(Whole(AttemptPlan(driver, a, file).write.value)) else s.file
  {
    var plan := AttemptPlan(driver, a, file);
    StepsLeaveFile(driver, a, file);
    FileUntouched(plan.steps, a.fates, s);
    if plan.write.Some? {
      RunConcat(plan.steps, WriteOps(plan.write.value), a.fates, s);
      WriteIsAtomic(plan.write.value, Rest(plan.steps, a.fates), After(plan.steps, a.fates, s));
    } else {
      assert plan.steps + [] == plan.steps;
    }
  }

  /** The checkpoint file evolves on its own: an attempt leaves it or replaces it whole. */
  lemma PerformFile(driver: Driver, a: Attempt, s: Store)
    ensures Perform(driver, a, s).file == NextFile(driver, a, s.file)
  {
    PlanFile(driver, a, s.file, s);
  }

  /** Directories and specifications are what the plan's own steps make of them. */
  lemma PerformSteps(driver: Driver, a: Attempt, s: Store)
    ensures var done := After(AttemptPlan(driver, a, s.file).steps, a.fates, s);
            Perform(driver, a, s).dirs == done.dirs && Perform(driver, a, s).specs == done.specs
  {
    var plan := AttemptPlan(driver, a, s.file);
    if plan.write.Some? {
      RunConcat(plan.steps, WriteOps(plan.write.value), a.fates, s);
      WriteIsAtomic(plan.write.value, Rest(plan.steps, a.fates), After(plan.steps, a.fates, s));
    } else {
      assert plan.steps + [] == plan.steps;
    }
  }

  /** An attempt that returns has carried out its steps and, if it has a new checkpoint, put
      it in place. */
  lemma ReturnedReplaces(driver: Driver, a: Attempt, file: File)
    requires OutcomeOf(driver, a, file).Returned?
    ensures var plan := AttemptPlan(driver, a, file);
            && plan.ending == Returns(OutcomeOf(driver, a, file).devices)
            && StatusOf(plan.steps, a.fates) == Completed
            && (plan.write.Some? ==> Replaces(driver, a, file))
  {
    var plan := AttemptPlan(driver, a, file);
    var s := Store(file, [], map[], map[]);
    if plan.write.Some? {
      RunConcat(plan.steps, WriteOps(plan.write.value), a.fates, s);
      WriteIsAtomic(plan.write.value, Rest(plan.steps, a.fates), s);
    } else {
      assert plan.steps + [] == plan.steps;
    }
  }
}

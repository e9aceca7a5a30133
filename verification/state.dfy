/** The driver's state and its methods, carried out step by step under the mutex. */
module State {
  import opened Prelude
  import opened ClaimNames
  import opened Claims
  import opened Paths
  import opened Cdi
  import opened Merging
  import opened Devices
  import opened Computed
  import opened Disk
  import opened Lifecycle
  import opened Directories

  /** The checkpoint in memory. */
  class Checkpoint {
    var preparedClaims: seq<Entry>

    constructor (entries: seq<Entry>)
      ensures preparedClaims == entries
    {
      preparedClaims := entries;
    }
  }

  /** What became of one durable step. `Dead`: the process died before it. */
  datatype StepResult = Done | Refused | Dead

  /** `ops` ran from `before` to `after` with this status and these fates left. */
  ghost predicate Ran(ops: seq<Op>, fates: seq<bool>, before: Store, after: Store, status: Status, rest: seq<bool>) {
    after == After(ops, fates, before) && status == StatusOf(ops, fates) && rest == Rest(ops, fates)
  }

  lemma RanThen(a: seq<Op>, b: seq<Op>, fates: seq<bool>, s0: Store, s1: Store, rest1: seq<bool>, s2: Store,
      status: Status, rest2: seq<bool>)
    requires Ran(a, fates, s0, s1, Completed, rest1) && Ran(b, rest1, s1, s2, status, rest2)
    ensures Ran(a + b, fates, s0, s2, status, rest2)
  {
    RunConcat(a, b, fates, s0);
  }

  /** A run that stops in a prefix stops there in the whole list. */
  lemma RanStops(a: seq<Op>, ops: seq<Op>, fates: seq<bool>, s0: Store, s1: Store, status: Status, rest: seq<bool>)
    requires a <= ops && Ran(a, fates, s0, s1, status, rest) && status != Completed
    ensures Ran(ops, fates, s0, s1, status, rest)
  {
    assert ops == a + ops[|a|..];
    RunConcat(a, ops[|a|..], fates, s0);
  }

  lemma {:induction false} SetupPrefix(claimName: string, own: seq<AllocResult>, n: nat)
    requires n <= |own|
    ensures SetupOps(claimName, own[..n]) <= SetupOps(claimName, own)
  {
    if n == |own| {
      assert own[..n] == own;
    } else {
      assert own[..|own| - 1][..n] == own[..n];
      SetupPrefix(claimName, own[..|own| - 1], n);
    }
  }

  lemma OwnStep(driver: string, results: seq<AllocResult>, i: nat)
    requires i < |results|
    ensures var seen := OwnResults(driver, results[..i]);
            OwnResults(driver, results[..i + 1]) == if results[i].driver == driver then seen + [results[i]] else seen
  {
    assert results[..i + 1][..i] == results[..i];
  }

  lemma {:induction false} OwnPrefix(driver: string, results: seq<AllocResult>, n: nat)
    requires n <= |results|
    ensures OwnResults(driver, results[..n]) <= OwnResults(driver, results)
  {
    if n == |results| {
      assert results[..n] == results;
    } else {
      var front := results[..|results| - 1];
      assert front[..n] == results[..n];
      OwnPrefix(driver, front, n);
    }
  }

  lemma SetupAppend(claimName: string, own: seq<AllocResult>, r: AllocResult)
    ensures SetupOps(claimName, own + [r]) == SetupOps(claimName, own) + DirOps(DirPath(claimName, r.request), r.device)
  {
    assert (own + [r])[..|own|] == own;
  }

  lemma SetupPrefixes(claimName: string, a: seq<AllocResult>, b: seq<AllocResult>)
    requires a <= b
    ensures SetupOps(claimName, a) <= SetupOps(claimName, b)
  {
    assert b[..|a|] == a;
    SetupPrefix(claimName, b, |a|);
  }

  lemma OwnSetupStep(claimName: string, driver: string, results: seq<AllocResult>, i: nat)
    requires i < |results| && results[i].driver == driver
    ensures SetupOps(claimName, OwnResults(driver, results[..i + 1]))
         == SetupOps(claimName, OwnResults(driver, results[..i]))
             + DirOps(DirPath(claimName, results[i].request), results[i].device)
    ensures SetupOps(claimName, OwnResults(driver, results[..i + 1]))
         <= SetupOps(claimName, OwnResults(driver, results))
  {
    OwnStep(driver, results, i);
    SetupAppend(claimName, OwnResults(driver, results[..i]), results[i]);
    OwnPrefix(driver, results, i + 1);
    SetupPrefixes(claimName, OwnResults(driver, results[..i + 1]), OwnResults(driver, results));
  }

  lemma RunAdvances(before: seq<Op>, more: seq<Op>, whole: seq<Op>, fates: seq<bool>, s0: Store,
                      s1: Store, fates1: seq<bool>, s2: Store, status: Status, rest: seq<bool>)
    requires Ran(before, fates, s0, s1, Completed, fates1) && Ran(more, fates1, s1, s2, status, rest)
    requires before + more <= whole
    ensures Ran(before + more, fates, s0, s2, status, rest)
    ensures status != Completed ==> Ran(whole, fates, s0, s2, status, rest)
  {
    RanThen(before, more, fates, s0, s1, fates1, s2, status, rest);
    if status != Completed {
      RanStops(before + more, whole, fates, s0, s2, status, rest);
    }
  }

  class DeviceState {
    const driver: Driver
    var file: File
    var temps: seq<Content>
    var specs: map<UID, Spec>
    var dirs: map<Path, Option<string>>

    constructor (driver: Driver, disk: Store)
      ensures this.driver == driver && Snapshot() == disk
    {
      this.driver := driver;
      file, temps, specs, dirs := disk.file, disk.temps, disk.specs, disk.dirs;
    }

    ghost function Snapshot(): Store
      reads this
    {
      Store(file, temps, specs, dirs)
    }

    // ---- one durable step ----

    method Step(op: Op, fates: seq<bool>) returns (result: StepResult, rest: seq<bool>)
      modifies this
      ensures result == if fates == [] then Dead else if fates[0] then Done else Refused
      ensures rest == if fates == [] then [] else fates[1..]
      ensures Snapshot() == if result == Done then Apply(op, old(Snapshot())) else old(Snapshot())
    {
      if fates == [] {
        return Dead, [];
      }
      if !fates[0] {
        return Refused, fates[1..];
      }
      match op {
        case MakeDir(p) => if p !in dirs { dirs := dirs[p := None]; }
        case Label(_) =>
        case TruncateMeta(p) => dirs := dirs[p := None];
        case FillMeta(p, device) => dirs := dirs[p := Some(device)];
        case StripTree(p) => dirs := map q | q in dirs :: if p <= q then None else dirs[q];
        case RemoveTree(p) => dirs := map q | q in dirs && !(p <= q) :: dirs[q];
        case PutSpec(uid, spec) => specs := specs[uid := spec];
        case DropSpec(uid) => specs := specs - {uid};
        case CreateTemp => temps := temps + [Torn];
        case EncodeTemp(entries) => if temps != [] { temps := temps[|temps| - 1 := Whole(entries)]; }
        case SyncTemp =>
        case RenameTemp => if temps != [] { file, temps := Present(temps[|temps| - 1]), temps[..|temps| - 1]; }
        case CloseTemp =>
      }
      return Done, fates[1..];
    }

    /** Step `k` of `ops`, a step whose failure ends the call. */
    method Must(op: Op, fates: seq<bool>, ghost ops: seq<Op>, ghost k: nat, ghost all: seq<bool>, ghost s0: Store)
      returns (status: Status, rest: seq<bool>)
      requires k < |ops| && ops[k] == op && !Tolerated(op)
      requires Ran(ops[..k], all, s0, Snapshot(), Completed, fates)
      modifies this
      ensures Ran(ops[..k + 1], all, s0, Snapshot(), status, rest)
      ensures status != Completed ==> Ran(ops, all, s0, Snapshot(), status, rest)
    {
      ghost var s1 := Snapshot();
      var result;
      result, rest := Step(op, fates);
      match result {
        case Dead => status := Crashed;
        case Refused => status := Failed;
        case Done => status := Completed;
      }
      OneStepRun(op, fates, s1);
      RanThen(ops[..k], [op], all, s0, s1, fates, Snapshot(), status, rest);
      assert ops[..k] + [op] == ops[..k + 1];
      if status != Completed {
        RanStops(ops[..k + 1], ops, all, s0, Snapshot(), status, rest);
      }
    }

    // ---- the checkpoint file ----

    method ReadCheckpoint(readOk: bool) returns (checkpoint: Checkpoint?)
      ensures checkpoint == null <==> Readable(file, readOk).None?
      ensures checkpoint != null ==> fresh(checkpoint) && checkpoint.preparedClaims == Readable(file, readOk).value
    {
      if !readOk {
        return null;
      }
      match file
      case Missing =>
        checkpoint := new Checkpoint([]);
      case Present(Torn) =>
        checkpoint := null;
      case Present(Whole(entries)) =>
        checkpoint := new Checkpoint(entries);
    }

    /** Temporary file, encode, sync, rename. The deferred close turns success into an error
        when it fails; after another error its result is ignored. */
    method WriteCheckpoint(checkpoint: Checkpoint, fates: seq<bool>) returns (status: Status, rest: seq<bool>)
      modifies this
      ensures Ran(WriteOps(checkpoint.preparedClaims), fates, old(Snapshot()), Snapshot(), status, rest)
    {
      ghost var s0, ops := Snapshot(), WriteOps(checkpoint.preparedClaims);
      status, rest := Must(CreateTemp, fates, ops, 0, fates, s0);
      if status != Completed { return; }
      status, rest := Must(EncodeTemp(checkpoint.preparedClaims), rest, ops, 1, fates, s0);
      if status != Completed { return; }
      status, rest := SyncAndRename(rest, ops, fates, s0);
    }

    method SyncAndRename(fates: seq<bool>, ghost ops: seq<Op>, ghost all: seq<bool>, ghost s0: Store)
      returns (status: Status, rest: seq<bool>)
      requires |ops| == 5 && ops[2] == SyncTemp && ops[3] == RenameTemp && ops[4] == CloseTemp
      requires Ran(ops[..2], all, s0, Snapshot(), Completed, fates)
      modifies this
      ensures Ran(ops, all, s0, Snapshot(), status, rest)
    {
      status, rest := Must(SyncTemp, fates, ops, 2, all, s0);
      if status != Completed { return; }
      status, rest := Must(RenameTemp, rest, ops, 3, all, s0);
      if status != Completed { return; }
      status, rest := Must(CloseTemp, rest, ops, 4, all, s0);
      assert ops[..5] == ops;
    }

    // ---- claim directories ----

    method CreateClaimDirectory(claimName: string, request: string, device: string, fates: seq<bool>)
        returns (status: Status, rest: seq<bool>)
      modifies this
      ensures Ran(DirOps(DirPath(claimName, request), device), fates, old(Snapshot()), Snapshot(), status, rest)
    {
      var stableClaimName := ExtractStableClaimName(claimName);
      var claimDir := Under(stableClaimName, request);
      ghost var s0, ops := Snapshot(), DirOps(claimDir, device);
      status, rest := Must(MakeDir(claimDir), fates, ops, 0, fates, s0);
      if status != Completed { return; }
      status, rest := Must(Label(claimDir), rest, ops, 1, fates, s0);
      if status != Completed { return; }
      status, rest := WriteMetadata(claimDir, device, rest, ops, fates, s0);
    }

    /** Writes `device.json`: the file is truncated, filled and labelled. */
    method WriteMetadata(claimDir: Path, device: string, fates: seq<bool>, ghost ops: seq<Op>, ghost all: seq<bool>,
        ghost s0: Store)
      returns (status: Status, rest: seq<bool>)
      requires |ops| == 5 && ops[2] == TruncateMeta(claimDir) && ops[3] == FillMeta(claimDir, device)
          && ops[4] == Label(claimDir)
      requires Ran(ops[..2], all, s0, Snapshot(), Completed, fates)
      modifies this
      ensures Ran(ops, all, s0, Snapshot(), status, rest)
    {
      status, rest := Must(TruncateMeta(claimDir), fates, ops, 2, all, s0);
      if status != Completed { return; }
      status, rest := Must(FillMeta(claimDir, device), rest, ops, 3, all, s0);
      if status != Completed { return; }
      status, rest := Must(Label(claimDir), rest, ops, 4, all, s0);
      assert ops[..5] == ops;
    }

    /** `os.RemoveAll`: first what the directory holds, then the directory. Errors are logged
        and ignored. */
    method DeleteClaimDirectory(claimName: string, request: string, fates: seq<bool>)
        returns (status: Status, rest: seq<bool>)
      modifies this
      ensures var path := DirPath(claimName, request);
              Ran([StripTree(path), RemoveTree(path)], fates, old(Snapshot()), Snapshot(), status, rest)
      ensures status != Failed
    {
      var stableClaimName := ExtractStableClaimName(claimName);
      var path := Under(stableClaimName, request);
      ghost var s0 := Snapshot();
      var result;
      result, rest := Step(StripTree(path), fates);
      OneStepRun(StripTree(path), fates, s0);
      if result == Dead {
        RanStops([StripTree(path)], [StripTree(path), RemoveTree(path)], fates, s0, Snapshot(), Crashed, rest);
        return Crashed, rest;
      }
      ghost var s1, fates1 := Snapshot(), rest;
      result, rest := Step(RemoveTree(path), rest);
      OneStepRun(RemoveTree(path), fates1, s1);
      status := if result == Dead then Crashed else Completed;
      RanThen([StripTree(path)], [RemoveTree(path)], fates, s0, s1, fates1, Snapshot(), status, rest);
      assert [StripTree(path)] + [RemoveTree(path)] == [StripTree(path), RemoveTree(path)];
    }

    /** The directories of the driver's own results, in allocation order. */
    method CreateDirectories(claimName: string, results: seq<AllocResult>, fates: seq<bool>)
        returns (status: Status, rest: seq<bool>)
      modifies this
      ensures Ran(SetupOps(claimName, OwnResults(driver.name, results)), fates, old(Snapshot()), Snapshot(), status,
          rest)
    {
      ghost var s0 := Snapshot();
      status, rest := Completed, fates;
      for i := 0 to |results|
        invariant status == Completed
        invariant Ran(SetupOps(claimName, OwnResults(driver.name, results[..i])), fates, s0, Snapshot(), Completed,
            rest)
      {
        var result := results[i];
        OwnStep(driver.name, results, i);
        if result.driver != driver.name {
          continue;
        }
        ghost var s1, fates1 := Snapshot(), rest;
        status, rest := CreateClaimDirectory(claimName, result.request, result.device, rest);
        OwnSetupStep(claimName, driver.name, results, i);
        RunAdvances(SetupOps(claimName, OwnResults(driver.name, results[..i])),
            DirOps(DirPath(claimName, result.request), result.device),
            SetupOps(claimName, OwnResults(driver.name, results)), fates, s0, s1, fates1, Snapshot(), status, rest);
        if status != Completed { return; }
      }
      assert results[..|results|] == results;
    }

    /** The directories recorded for one claim. */
    method DeleteDirectories(entry: Entry, fates: seq<bool>) returns (status: Status, rest: seq<bool>)
      modifies this
      ensures status != Failed
      ensures Ran(RemovalOps(RecordedPaths(entry)), fates, old(Snapshot()), Snapshot(), status, rest)
    {
      ghost var s0 := Snapshot();
      status, rest := Completed, fates;
      for i := 0 to |entry.devices|
        invariant status == Completed
        invariant Ran(RemovalOps(RecordedPaths(entry)[..i]), fates, s0, Snapshot(), Completed, rest)
      {
        var requestName := RequestOf(entry.deviceRequests, entry.devices[i]);
        ghost var s1, fates1 := Snapshot(), rest;
        status, rest := DeleteClaimDirectory(entry.name, requestName, rest);
        ghost var path := DirPath(entry.name, requestName);
        RemovalStep(RecordedPaths(entry), i);
        RunAdvances(RemovalOps(RecordedPaths(entry)[..i]), [StripTree(path), RemoveTree(path)],
                    RemovalOps(RecordedPaths(entry)), fates, s0, s1, fates1, Snapshot(), status, rest);
        if status != Completed { return; }
      }
      assert RecordedPaths(entry)[..|entry.devices|] == RecordedPaths(entry);
    }

    method UnprepareDevices(uid: UID, checkpoint: Checkpoint, fates: seq<bool>)
        returns (status: Status, rest: seq<bool>)
      modifies this
      ensures status != Failed
      ensures Ran(EntryRemoval(FirstEntry(checkpoint.preparedClaims, uid)), fates, old(Snapshot()), Snapshot(),
          status, rest)
    {
      var claims := checkpoint.preparedClaims;
      for i := 0 to |claims|
        invariant Snapshot() == old(Snapshot())
        invariant FirstEntry(claims, uid) == FirstEntry(claims[i..], uid)
      {
        if claims[i].uid == uid {
          status, rest := DeleteDirectories(claims[i], fates);
          return;
        }
      }
      assert claims[|claims|..] == [];
      return Completed, fates;
    }

    // ---- the checkpoint in memory ----

    method AddClaimToCheckpoint(checkpoint: Checkpoint, claim: Claim)
      modifies checkpoint
      ensures checkpoint.preparedClaims == old(checkpoint.preparedClaims) + [EntryOf(claim)]
    {
      var devices: seq<string> := [];
      var deviceRequests: map<string, string> := map[];
      if claim.allocation.Some? {
        var results := claim.allocation.value.results;
        for i := 0 to |results|
          invariant devices == DeviceNames(results[..i])
          invariant deviceRequests == DeviceRequests(results[..i])
        {
          assert results[..i + 1][..i] == results[..i];
          devices := devices + [results[i].device];
          deviceRequests := deviceRequests[results[i].device := results[i].request];
        }
        assert results[..|results|] == results;
      }
      checkpoint.preparedClaims := checkpoint.preparedClaims + [Entry(claim.uid, claim.name, devices, deviceRequests)];
    }

    method RemoveClaimFromCheckpoint(checkpoint: Checkpoint, uid: UID)
      modifies checkpoint
      ensures checkpoint.preparedClaims == Without(old(checkpoint.preparedClaims), uid)
    {
      var claims := checkpoint.preparedClaims;
      var kept: seq<Entry> := [];
      for i := 0 to |claims|
        invariant kept == Without(claims[..i], uid)
      {
        assert claims[..i + 1][..i] == claims[..i];
        if claims[i].uid != uid {
          kept := kept + [claims[i]];
        }
      }
      assert claims[..|claims|] == claims;
      checkpoint.preparedClaims := kept;
    }

    /** The devices of a claim that is in the checkpoint; none if it is not. */
    method RestoreClaimFromCheckpoint(checkpoint: Checkpoint, claim: Claim)
      returns (restored: Result<seq<PreparedDevice>, Error>, ghost first: seq<nat>, ghost second: seq<nat>)
      ensures IsClaimOrder(driver, claim, first) && IsClaimOrder(driver, claim, second)
      ensures restored == if Holds(checkpoint.preparedClaims, claim.uid) then Compute(driver, claim, first, second)
          else Ok([])
    {
      first := OrderExists(ClaimKeys(driver, claim));
      second := first;
      var claims := checkpoint.preparedClaims;
      for i := 0 to |claims|
        invariant forall k :: 0 <= k < i ==> claims[k].uid != claim.uid
      {
        if claims[i].uid == claim.uid {
          restored, first, second := ComputeDeviceConfig(driver, claim);
          return;
        }
      }
      return Ok([]), first, second;
    }

    // ---- the two operations ----

    method Prepare(claim: Claim, readOk: bool, fates: seq<bool>)
        returns (outcome: Outcome, ghost first: seq<nat>, ghost second: seq<nat>)
      modifies this
      ensures IsClaimOrder(driver, claim, first) && IsClaimOrder(driver, claim, second)
      ensures Snapshot() == Perform(driver, Attempt(Call.Prepare(claim, first, second), readOk, fates), old(Snapshot()))
      ensures outcome == OutcomeOf(driver, Attempt(Call.Prepare(claim, first, second), readOk, fates), old(file))
    {
      first := OrderExists(ClaimKeys(driver, claim));
      second := first;
      var checkpoint := ReadCheckpoint(readOk);
      if checkpoint == null {
        return Errored, first, second;
      }
      var restored;
      restored, first, second := RestoreClaimFromCheckpoint(checkpoint, claim);
      if restored.Err? {
        return Errored, first, second;
      }
      if restored.value != [] {
        return Returned(GetDevices(restored.value)), first, second;
      }
      ghost var first0, second0 := first, second;
      outcome, first, second := PrepareAnew(checkpoint, claim, fates);
      RestoredNothing(driver, Readable(old(file), readOk), claim, first0, second0, first, second);
    }

    /** First-time setup: directories, specification, checkpoint. */
    method PrepareAnew(checkpoint: Checkpoint, claim: Claim, fates: seq<bool>)
        returns (outcome: Outcome, ghost first: seq<nat>, ghost second: seq<nat>)
      modifies this, checkpoint
      ensures IsClaimOrder(driver, claim, first) && IsClaimOrder(driver, claim, second)
      ensures var plan := SetupPlan(driver, old(checkpoint.preparedClaims), claim, first, second);
              Snapshot() == After(Ops(plan), fates, old(Snapshot()))
                  && outcome == Conclude(StatusOf(Ops(plan), fates), plan.ending)
    {
      first := OrderExists(ClaimKeys(driver, claim));
      second := first;
      if claim.allocation.None? {
        return Died, first, second;
      }
      ghost var s0, setup := Snapshot(), SetupOps(claim.name, Own(driver, claim));
      var status, rest := CreateDirectories(claim.name, claim.allocation.value.results, fates);
      ghost var entries := checkpoint.preparedClaims;
      if status != Completed {
        AnewOps(driver, entries, claim, first, second);
        RanStops(setup, Ops(SetupPlan(driver, entries, claim, first, second)), fates, s0, Snapshot(), status, rest);
        return Conclude(status, Fails), first, second;
      }
      var prepared;
      prepared, first, second := ComputeDeviceConfig(driver, claim);
      AnewOps(driver, entries, claim, first, second);
      if prepared.Err? {
        return Errored, first, second;
      }
      ghost var s1, rest1 := Snapshot(), rest;
      status, rest := Publish(checkpoint, claim, prepared.value, rest);
      RanThen(setup, PublishOps(driver, entries + [EntryOf(claim)], claim.uid, prepared.value), fates, s0, s1, rest1,
          Snapshot(), status, rest);
      return Conclude(status, Returns(GetDevices(prepared.value))), first, second;
    }

    /** Adds the claim to the checkpoint in memory, then writes its specification and the
        checkpoint. */
    method Publish(checkpoint: Checkpoint, claim: Claim, prepared: seq<PreparedDevice>, fates: seq<bool>)
        returns (status: Status, rest: seq<bool>)
      modifies this, checkpoint
      ensures Ran(PublishOps(driver, old(checkpoint.preparedClaims) + [EntryOf(claim)], claim.uid, prepared), fates,
          old(Snapshot()), Snapshot(), status, rest)
    {
      ghost var s0, entries := Snapshot(), checkpoint.preparedClaims + [EntryOf(claim)];
      ghost var ops := PublishOps(driver, entries, claim.uid, prepared);
      AddClaimToCheckpoint(checkpoint, claim);
      var spec := BuildClaimSpec(driver, claim.uid, prepared);
      status, rest := Must(PutSpec(claim.uid, spec), fates, ops, 0, fates, s0);
      if status != Completed { return; }
      ghost var s1, rest1 := Snapshot(), rest;
      status, rest := WriteCheckpoint(checkpoint, rest);
      assert ops[..1] + WriteOps(entries) == ops;
      RanThen(ops[..1], WriteOps(entries), fates, s0, s1, rest1, Snapshot(), status, rest);
    }

    method Unprepare(uid: UID, readOk: bool, fates: seq<bool>) returns (outcome: Outcome)
      modifies this
      ensures Snapshot() == Perform(driver, Attempt(Call.Unprepare(uid), readOk, fates), old(Snapshot()))
      ensures outcome == OutcomeOf(driver, Attempt(Call.Unprepare(uid), readOk, fates), old(file))
    {
      var status, rest;
      var checkpoint := ReadCheckpoint(readOk);
      if checkpoint == null {
        var empty := new Checkpoint([]);
        status, rest := WriteCheckpoint(empty, fates);
        assert Ops(Plan([], Some([]), Panics)) == WriteOps([]);
        // The checkpoint is still nil here and is dereferenced next.
        return Conclude(status, Panics);
      }
      ghost var s0, entries := Snapshot(), checkpoint.preparedClaims;
      ghost var removal, forget := EntryRemoval(FirstEntry(entries, uid)), ForgetOps(Without(entries, uid), uid);
      UnprepareOps(entries, uid);
      status, rest := UnprepareDevices(uid, checkpoint, fates);
      if status != Completed {
        RanStops(removal, removal + forget, fates, s0, Snapshot(), status, rest);
        return Conclude(status, Fails);
      }
      ghost var s1, rest1 := Snapshot(), rest;
      status, rest := Forget(uid, checkpoint, rest);
      RanThen(removal, forget, fates, s0, s1, rest1, Snapshot(), status, rest);
      return Conclude(status, Returns([]));
    }

    /** Removes the claim from the checkpoint in memory, then deletes its specification and
        writes the checkpoint. */
    method Forget(uid: UID, checkpoint: Checkpoint, fates: seq<bool>) returns (status: Status, rest: seq<bool>)
      modifies this, checkpoint
      ensures Ran(ForgetOps(Without(old(checkpoint.preparedClaims), uid), uid), fates, old(Snapshot()), Snapshot(),
          status, rest)
    {
      ghost var s0, entries := Snapshot(), Without(checkpoint.preparedClaims, uid);
      ghost var ops := ForgetOps(entries, uid);
      RemoveClaimFromCheckpoint(checkpoint, uid);
      status, rest := Must(DropSpec(uid), fates, ops, 0, fates, s0);
      if status != Completed { return; }
      ghost var s1, rest1 := Snapshot(), rest;
      status, rest := WriteCheckpoint(checkpoint, rest);
      assert ops[..1] + WriteOps(entries) == ops;
      RanThen(ops[..1], WriteOps(entries), fates, s0, s1, rest1, Snapshot(), status, rest);
    }
  }

  function PublishOps(driver: Driver, entries: seq<Entry>, uid: UID, prepared: seq<PreparedDevice>): seq<Op> {
    [PutSpec(uid, ClaimSpec(driver, uid, prepared))] + WriteOps(entries)
  }

  function ForgetOps(entries: seq<Entry>, uid: UID): seq<Op> {
    [DropSpec(uid)] + WriteOps(entries)
  }

  lemma UnprepareOps(entries: seq<Entry>, uid: UID)
    ensures Ops(UnpreparePlan(Some(entries), uid))
        == EntryRemoval(FirstEntry(entries, uid)) + ForgetOps(Without(entries, uid), uid)
  {
  }

  lemma PublishTail(driver: Driver, setup: seq<Op>, entries: seq<Entry>, uid: UID, prepared: seq<PreparedDevice>)
    ensures setup + [PutSpec(uid, ClaimSpec(driver, uid, prepared))] + WriteOps(entries)
         == setup + PublishOps(driver, entries, uid, prepared)
  {
  }

  lemma AnewOps(driver: Driver, entries: seq<Entry>, claim: Claim, first: seq<nat>, second: seq<nat>)
    requires claim.allocation.Some?
    ensures var plan := SetupPlan(driver, entries, claim, first, second);
            var setup := SetupOps(claim.name, Own(driver, claim));
            match Compute(driver, claim, first, second)
            case Err(_) => Ops(plan) == setup && plan.ending == Fails
            case Ok(prepared) =>
              && Ops(plan) == setup + PublishOps(driver, entries + [EntryOf(claim)], claim.uid, prepared)
              && plan.ending == Returns(GetDevices(prepared))
  {
    var setup := SetupOps(claim.name, Own(driver, claim));
    match Compute(driver, claim, first, second)
    case Err(_) => assert setup + [] == setup;
    case Ok(prepared) => PublishTail(driver, setup, entries + [EntryOf(claim)], claim.uid, prepared);
  }

  lemma RemovalStep(paths: seq<Path>, i: nat)
    requires i < |paths|
    ensures RemovalOps(paths[..i + 1]) == RemovalOps(paths[..i]) + [StripTree(paths[i]), RemoveTree(paths[i])]
    ensures RemovalOps(paths[..i + 1]) <= RemovalOps(paths)
  {
    assert paths[..i + 1][..i] == paths[..i];
    RemovalPrefix(paths, i + 1);
  }

  lemma {:induction false} RemovalPrefix(paths: seq<Path>, n: nat)
    requires n <= |paths|
    ensures RemovalOps(paths[..n]) <= RemovalOps(paths)
  {
    if n == |paths| {
      assert paths[..n] == paths;
    } else {
      assert paths[..|paths| - 1][..n] == paths[..n];
      RemovalPrefix(paths[..|paths| - 1], n);
    }
  }

  /** Restoring nothing falls through to first-time setup, whatever the orders. */
  lemma RestoredNothing(driver: Driver, readable: Option<seq<Entry>>, claim: Claim, first: seq<nat>,
      second: seq<nat>, first': seq<nat>, second': seq<nat>)
    requires readable.Some?
    requires IsClaimOrder(driver, claim, second) && IsClaimOrder(driver, claim, second')
    requires Holds(readable.value, claim.uid) ==> Compute(driver, claim, first, second) == Ok([])
    ensures PreparePlan(driver, readable, claim, first', second')
        == SetupPlan(driver, readable.value, claim, first', second')
  {
    if Holds(readable.value, claim.uid) {
      ComputeSucceedsIff(driver, claim, first, second);
      ComputeSucceedsIff(driver, claim, first', second');
      NothingPreparedIff(driver, claim, first, second);
      NothingPreparedIff(driver, claim, first', second');
    }
  }
}

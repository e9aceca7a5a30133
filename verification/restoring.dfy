/** What a Prepare of a recorded claim returns, and the window in which it is wrong. */
module Restoring {
  import opened Prelude
  import opened Claims
  import opened Cdi
  import opened Devices
  import opened Computed
  import opened Disk
  import opened Lifecycle
  import opened Ledger
  import opened Directories
  import opened Effects
  import opened Safety

  /** Every successful Prepare of a claim, first or later and whatever the iteration orders,
      returns the same devices: those of the driver's own results. */
  lemma SuccessfulPreparesAgree(driver: Driver, a: Attempt, file: File)
    requires IsLegit(driver, a) && a.call.Prepare? && OutcomeOf(driver, a, file).Returned?
    ensures multiset(OutcomeOf(driver, a, file).devices)
        == multiset(DevicesFor(driver, a.call.claim.uid, Own(driver, a.call.claim)))
  {
    ReturnedReplaces(driver, a, file);
    assert Compute(driver, a.call.claim, a.call.first, a.call.second).Ok?;
    DevicesConserved(driver, a.call.claim, a.call.first, a.call.second);
  }

  /** Each own result, prepared with these edits, has its device in the specification. */
  lemma SpecListsOwn(driver: Driver, claim: Claim, second: seq<nat>, r: AllocResult,
      edits: map<string, ContainerEdits>, admin: bool)
    requires IsClaimOrder(driver, claim, second) && r in Own(driver, claim)
    ensures var d := SpecDevice(driver, claim.uid, PreparedOf(driver, claim.uid, r, edits, admin));
            && d in ClaimSpec(driver, claim.uid,
                 PrepareAll(driver, claim.uid, Listed(driver, claim, second), edits, admin)).devices
            && d.name == DeviceName(claim.uid, r.device)
  {
    ListedAt(driver, claim, second, r, edits, admin);
    NamedInSpec(driver, claim.uid, PrepareAll(driver, claim.uid, Listed(driver, claim, second), edits, admin),
                PreparedOf(driver, claim.uid, r, edits, admin));
  }

  lemma SpecIs(driver: Driver, claim: Claim, spec: Spec)
      returns (second: seq<nat>, edits: map<string, ContainerEdits>, admin: bool)
    requires IsSpecOf(driver, claim, spec)
    ensures IsClaimOrder(driver, claim, second)
    ensures spec
        == ClaimSpec(driver, claim.uid, PrepareAll(driver, claim.uid, Listed(driver, claim, second), edits, admin))
  {
    var first, second' :| IsClaimOrder(driver, claim, first) && IsClaimOrder(driver, claim, second')
      && Compute(driver, claim, first, second').Ok?
      && spec == ClaimSpec(driver, claim.uid, Compute(driver, claim, first, second').value);
    ComputedIs(driver, claim, first, second');
    second, edits, admin := second', ClaimEdits(driver, claim, first), HasAdminAccess(ClaimResults(claim));
  }

  /** The specification of a claim has a device for each own result. */
  lemma SpecNamesOwn(driver: Driver, claim: Claim, spec: Spec, r: AllocResult)
    requires IsSpecOf(driver, claim, spec) && r in Own(driver, claim)
    ensures exists d :: d in spec.devices && d.name == DeviceName(claim.uid, r.device)
  {
    var second, edits, admin := SpecIs(driver, claim, spec);
    SpecListsOwn(driver, claim, second, r, edits, admin);
  }

  lemma NamedInSpec(driver: Driver, uid: UID, prepared: seq<PreparedDevice>, p: PreparedDevice)
    requires p in prepared
    ensures SpecDevice(driver, uid, p) in ClaimSpec(driver, uid, prepared).devices
    ensures SpecDevice(driver, uid, p).name == DeviceName(uid, p.device.name)
  {
    var i :| 0 <= i < |prepared| && prepared[i] == p;
    assert ClaimSpec(driver, uid, prepared).devices[i] == SpecDevice(driver, uid, p);
  }

  lemma KindOfSpec(driver: Driver, claim: Claim, spec: Spec)
    requires IsSpecOf(driver, claim, spec)
    ensures spec.kind == Kind(driver)
  {
  }

  lemma DeviceIdsResolve(driver: Driver, claim: Claim, spec: Spec, d: Device)
    requires IsSpecOf(driver, claim, spec) && d in multiset(DevicesFor(driver, claim.uid, Own(driver, claim)))
    ensures Resolves(d.cdiIds, spec)
  {
    var own := Own(driver, claim);
    var i :| 0 <= i < |own| && d == DeviceOf(driver, claim.uid, own[i]);
    SpecNamesOwn(driver, claim, spec, own[i]);
    KindOfSpec(driver, claim, spec);
    assert d.cdiIds[1] == spec.kind + "=" + DeviceName(claim.uid, own[i].device);
  }

  /** A Prepare of a recorded claim that has a device of this driver writes nothing, and returns
      exactly when the claim can be computed. */
  lemma RestoresIff(driver: Driver, a: Attempt, s: Store)
    requires IsLegit(driver, a) && a.call.Prepare? && Own(driver, a.call.claim) != []
    requires Readable(s.file, a.readOk).Some? && Holds(ReadOr(s.file), a.call.claim.uid)
    ensures Perform(driver, a, s) == s
    ensures OutcomeOf(driver, a, s.file).Returned? <==> Computable(driver, a.call.claim)
  {
    HeldIsRestored(driver, a, s.file);
    ComputeSucceedsIff(driver, a.call.claim, a.call.first, a.call.second);
    assert Ops(AttemptPlan(driver, a, s.file)) == [];
  }

  /** The devices' CDI identifiers all resolve on disk. */
  ghost predicate AllResolve(driver: Driver, devices: seq<Device>, uid: UID, specs: map<UID, Spec>) {
    uid in specs && forall d :: d in devices ==> Resolves(d.cdiIds, specs[uid])
  }

  /** In every reachable state, a Prepare of a recorded and unchanged claim writes nothing and
      returns the claim's devices. Every CDI identifier it returns, besides the common one, names
      a device of the claim's specification on disk if and only if no Unprepare of the claim has
      completed since, up to the point where it writes the new checkpoint. */
  lemma RestoreAgreesWithDisk(driver: Driver, log: seq<Attempt>, s: Store, a: Attempt)
    requires IsRun(driver, log, s.file) && ReadOr(s.file) == []
    requires IsLegit(driver, a) && a.call.Prepare? && Own(driver, a.call.claim) != []
    requires Readable(Serial(driver, log, s).file, a.readOk).Some?
    requires Holds(ReadOr(Serial(driver, log, s).file), a.call.claim.uid)
    requires a.call.claim.uid in History(driver, log, s.file) ==>
        History(driver, log, s.file)[a.call.claim.uid] == a.call.claim
    ensures var now, claim := Serial(driver, log, s), a.call.claim;
            && Perform(driver, a, now) == now
            && OutcomeOf(driver, a, now.file).Returned?
            && multiset(OutcomeOf(driver, a, now.file).devices)
                 == multiset(DevicesFor(driver, claim.uid, Own(driver, claim)))
            && (AllResolve(driver, OutcomeOf(driver, a, now.file).devices, claim.uid, now.specs) <==>
                  claim.uid !in Dropped(driver, log, s.file))
  {
    var now, claim := Serial(driver, log, s), a.call.claim;
    RecordedSafely(driver, log, s, claim.uid);
    RestoresIff(driver, a, now);
    SuccessfulPreparesAgree(driver, a, now.file);
    if claim.uid in now.specs {
      IdsResolve(driver, claim, now.specs[claim.uid], OutcomeOf(driver, a, now.file).devices);
    }
  }

  lemma IdsResolve(driver: Driver, claim: Claim, spec: Spec, devices: seq<Device>)
    requires IsSpecOf(driver, claim, spec)
        && multiset(devices) == multiset(DevicesFor(driver, claim.uid, Own(driver, claim)))
    ensures forall d :: d in devices ==> Resolves(d.cdiIds, spec)
  {
    forall d | d in devices ensures Resolves(d.cdiIds, spec) {
      assert d in multiset(devices);
      DeviceIdsResolve(driver, claim, spec, d);
    }
  }

  // ---- the window ----

  function Trues(n: nat): (fates: seq<bool>)
    ensures |fates| == n && forall i :: 0 <= i < n ==> fates[i]
  {
    seq(n, i => true)
  }

  lemma {:induction false} RunTrues(ops: seq<Op>, n: nat)
    requires n >= |ops|
    ensures StatusOf(ops, Trues(n)) == Completed && Rest(ops, Trues(n)) == Trues(n - |ops|)
  {
    if ops != [] {
      assert Trues(n)[1..] == Trues(n - 1);
      RunTrues(ops[1..], n - 1);
    }
  }

  /** An undisturbed Prepare of a computable claim returns. */
  lemma PrepareReturns(driver: Driver, claim: Claim, first: seq<nat>, second: seq<nat>, s: Store) returns (a: Attempt)
    requires IsClaimOrder(driver, claim, first) && IsClaimOrder(driver, claim, second) && Computable(driver, claim)
    requires ReadEntries(s.file).Some?
    ensures a.call == Prepare(claim, first, second) && a.readOk && OutcomeOf(driver, a, s.file).Returned?
  {
    ComputeSucceedsIff(driver, claim, first, second);
    var plan := PlanOf(driver, Prepare(claim, first, second), s.file, true);
    a := Attempt(Prepare(claim, first, second), true, Trues(|Ops(plan)|));
    RunTrues(Ops(plan), |Ops(plan)|);
  }

  /** The claim of this entry is in the checkpoint, but its specification and the directories
      recorded for it are gone. */
  ghost predicate InWindow(s: Store, entry: Entry) {
    && entry in ReadOr(s.file) && entry.uid !in s.specs
    && forall q :: IsBelow(entry, q) ==> q !in s.dirs
  }

  /** An Unprepare cut right before it creates the temporary file: the claim is still in the
      checkpoint, its specification and directories are gone. */
  lemma CutBeforeWrite(driver: Driver, uid: UID, s: Store) returns (a: Attempt)
    requires ReadEntries(s.file).Some? && Holds(ReadEntries(s.file).value, uid)
    ensures a.call == Unprepare(uid) && a.readOk && OutcomeOf(driver, a, s.file) == Died
    ensures InWindow(Perform(driver, a, s), FirstEntry(ReadEntries(s.file).value, uid).value)
  {
    var entries := ReadEntries(s.file).value;
    var entry := FirstEntry(entries, uid).value;
    var steps := Removal(entry) + [DropSpec(uid)];
    a := Attempt(Unprepare(uid), true, Trues(|steps|));
    assert AttemptPlan(driver, a, s.file).steps == steps;
    RunTrues(steps, |steps|);
    RunConcat(steps, WriteOps(Without(entries, uid)), a.fates, s);
    assert Rest(steps, a.fates) == [];
    PerformFile(driver, a, s);
    UnprepareEffect(driver, a, s);
    RemovalEffect(entry, a.fates, s);
  }

  /** The exception in the safety invariant is needed: for every claim with a device of this
      driver a run reaches a state where the claim is in the checkpoint without specification
      or recorded directories. */
  lemma WindowIsReachable(driver: Driver, claim: Claim, first: seq<nat>, second: seq<nat>) returns (log: seq<Attempt>)
    requires IsClaimOrder(driver, claim, first) && IsClaimOrder(driver, claim, second) && Computable(driver, claim)
    requires Own(driver, claim) != []
    ensures AllLegit(driver, log)
    ensures InWindow(Serial(driver, log, Store(Missing, [], map[], map[])), EntryOf(claim))
  {
    var a, b := PreparedThenCut(driver, claim, first, second, Store(Missing, [], map[], map[]));
    log := [a, b];
    SerialTwo(driver, a, b, Store(Missing, [], map[], map[]));
  }

  lemma PreparedThenCut(driver: Driver, claim: Claim, first: seq<nat>, second: seq<nat>, s: Store)
      returns (a: Attempt, b: Attempt)
    requires IsClaimOrder(driver, claim, first) && IsClaimOrder(driver, claim, second) && Computable(driver, claim)
    requires s.file == Missing
    ensures IsLegit(driver, a) && IsLegit(driver, b)
    ensures InWindow(Perform(driver, b, Perform(driver, a, s)), EntryOf(claim))
  {
    a := PreparedOnce(driver, claim, first, second, s);
    OnlyEntry(claim);
    b := CutBeforeWrite(driver, claim.uid, Perform(driver, a, s));
  }

  lemma PreparedOnce(driver: Driver, claim: Claim, first: seq<nat>, second: seq<nat>, s: Store) returns (a: Attempt)
    requires IsClaimOrder(driver, claim, first) && IsClaimOrder(driver, claim, second) && Computable(driver, claim)
    requires s.file == Missing
    ensures IsLegit(driver, a) && Perform(driver, a, s).file == Present(Whole([EntryOf(claim)]))
  {
    a := PrepareReturns(driver, claim, first, second, s);
    FirstPrepareAppends(driver, a, s.file);
    PerformFile(driver, a, s);
    OnlyEntry(claim);
  }

  lemma OnlyEntry(claim: Claim)
    ensures [] + [EntryOf(claim)] == [EntryOf(claim)]
    ensures FirstEntry([EntryOf(claim)], claim.uid) == Some(EntryOf(claim))
    ensures Holds([EntryOf(claim)], claim.uid)
  {
    assert [EntryOf(claim)][0].uid == claim.uid;
  }

  lemma SerialTwo(driver: Driver, a: Attempt, b: Attempt, s: Store)
    ensures Serial(driver, [a, b], s) == Perform(driver, b, Perform(driver, a, s))
  {
    assert [a, b][..1] == [a] && [a][..0] == [];
    assert Serial(driver, [a], s) == Perform(driver, a, s);
  }

  /** In that window Prepare reports success and repairs nothing. */
  lemma WindowIsNotRepaired(driver: Driver, claim: Claim, first: seq<nat>, second: seq<nat>, s: Store)
    requires IsClaimOrder(driver, claim, first) && IsClaimOrder(driver, claim, second) && Computable(driver, claim)
    requires Own(driver, claim) != [] && InWindow(s, EntryOf(claim))
    ensures var again := Attempt(Prepare(claim, first, second), true, []);
            OutcomeOf(driver, again, s.file).Returned? && Perform(driver, again, s) == s
  {
    var again := Attempt(Prepare(claim, first, second), true, []);
    HoldsMember(ReadOr(s.file), claim.uid);
    HeldIsRestored(driver, again, s.file);
    ComputeSucceedsIff(driver, claim, first, second);
    assert Ops(AttemptPlan(driver, again, s.file)) == [];
  }
}

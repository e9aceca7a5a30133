/** Runs in which the driver does not keep what it is meant to keep, each with the condition that
    decides. */
module Incidents {
  import opened Prelude
  import opened Text
  import opened ClaimNames
  import opened Claims
  import opened Configs
  import opened Paths
  import opened Merging
  import opened Devices
  import opened Computed
  import opened Network
  import opened Disk
  import opened Lifecycle
  import opened Ledger
  import opened Directories
  import opened Effects
  import opened Restoring
  import opened Convergence
  import opened RoundTrip
  import opened Delivery

  const EMPTY := Store(Missing, [], map[], map[])

  // ---- undisturbed calls ----

  lemma UndisturbedPrepare(driver: Driver, claim: Claim, s: Store) returns (a: Attempt)
    requires Computable(driver, claim) && ReadEntries(s.file).Some?
    ensures IsPrepareOf(driver, claim, a) && a.readOk && OutcomeOf(driver, a, s.file).Returned?
  {
    var order := OrderExists(ClaimKeys(driver, claim));
    a := PrepareReturns(driver, claim, order, order, s);
  }

  lemma UndisturbedUnprepare(driver: Driver, uid: UID, s: Store) returns (a: Attempt)
    requires ReadEntries(s.file).Some?
    ensures IsUnprepareOf(uid, a) && OutcomeOf(driver, a, s.file).Returned?
    ensures AllSucceed(a.fates, RemovalLength(FirstEntry(ReadEntries(s.file).value, uid)))
  {
    var plan := PlanOf(driver, Unprepare(uid), s.file, true);
    a := Attempt(Unprepare(uid), true, Trues(|Ops(plan)|));
    RunTrues(Ops(plan), |Ops(plan)|);
  }

  /** A network driver accepts every claim without configurations whose devices it offers. */
  lemma NetworkAccepts(driver: Driver, claim: Claim)
    requires IsNetwork(driver) && claim.allocation.Some? && claim.allocation.value.configs == []
    requires forall r :: r in Own(driver, claim) ==> r.device in driver.allocatable
    ensures Computable(driver, claim)
  {
  }

  // ---- a claim that is not allocated ----

  /** Exactly when Prepare brings the process down by itself: when it can read the checkpoint, does
      not find the claim there, and the claim has no allocation. */
  lemma PreparePanicsIff(driver: Driver, a: Attempt, s: Store)
    requires a.call.Prepare?
    ensures AttemptPlan(driver, a, s.file).ending.Panics? <==>
              && Readable(s.file, a.readOk).Some? && a.call.claim.allocation.None?
              && !Holds(ReadOr(s.file), a.call.claim.uid)
    ensures AttemptPlan(driver, a, s.file).ending.Panics?
        ==> OutcomeOf(driver, a, s.file) == Died && Perform(driver, a, s) == s
  {
    if Readable(s.file, a.readOk).Some? && a.call.claim.allocation.None? {
      assert Compute(driver, a.call.claim, a.call.first, a.call.second).Err?;
    }
  }

  // ---- a claim without a device of this driver ----

  lemma NothingOwnComputable(driver: Driver, claim: Claim)
    requires claim.allocation == Some(Allocation([], []))
    ensures Own(driver, claim) == [] && Computable(driver, claim)
  {
  }

  /** Two Prepares of such a claim both report success and list it twice. */
  lemma ListedTwiceRun(driver: Driver, uid: UID) returns (claim: Claim, a: Attempt, b: Attempt)
    ensures IsPrepareOf(driver, claim, a) && IsPrepareOf(driver, claim, b)
    ensures OutcomeOf(driver, a, EMPTY.file).Returned? && OutcomeOf(driver, b, Perform(driver, a, EMPTY).file).Returned?
    ensures Occurrences(ReadOr(Perform(driver, b, Perform(driver, a, EMPTY)).file), claim.uid) == 2
  {
    claim := Claim(uid, "claim", Some(Allocation([], [])));
    NothingOwnComputable(driver, claim);
    a := UndisturbedPrepare(driver, claim, EMPTY);
    PerformFile(driver, a, EMPTY);
    FirstPrepareAppends(driver, a, EMPTY.file);
    b := UndisturbedPrepare(driver, claim, Perform(driver, a, EMPTY));
    PerformFile(driver, b, Perform(driver, a, EMPTY));
    ListedTwiceIff(driver, a, b, EMPTY.file);
  }

  // ---- cleanup that misses a directory ----

  lemma PlainDirPath(claimName: string, request: string)
    requires !(PREFIX <= claimName) && claimName != "" && request != "" && '/' !in claimName && '/' !in request
    ensures DirPath(claimName, request) == [claimName, request]
  {
    SplitOfFree(claimName, '/');
    SplitOfFree(request, '/');
    NothingEmpty([claimName]);
    NothingEmpty([request]);
  }

  /** A later result of another driver with the same device name takes over the recorded
      request. */
  lemma CleanupCanMiss(driver: Driver, other: string, device: string) returns (claim: Claim)
    requires IsNetwork(driver) && other != driver.name && device in driver.allocatable
    ensures Computable(driver, claim) && !CleanupCovers(driver, claim)
  {
    var r, r' := AllocResult(driver.name, "a", "pool", device, false), AllocResult(other, "b", "pool", device, false);
    claim := Claim("uid", "claim", Some(Allocation([r, r'], [])));
    OwnOfTwo(driver.name, r, r');
    NetworkAccepts(driver, claim);
    PlainDirPath("claim", "a");
    PlainDirPath("claim", "b");
    assert ["claim", "b"][1] != ["claim", "a"][1];
    ShadowedIsMissed(driver, claim, r, r');
  }

  lemma OwnOfTwo(driver: string, r: AllocResult, r': AllocResult)
    requires r.driver == driver && r'.driver != driver
    ensures OwnResults(driver, [r, r']) == [r]
  {
    assert [r, r'][..1] == [r] && [r][..0] == [];
    assert OwnResults(driver, [r]) == [r];
  }

  lemma ShadowedIsMissed(driver: Driver, claim: Claim, r: AllocResult, r': AllocResult)
    requires ClaimResults(claim) == [r, r'] && Own(driver, claim) == [r] && r.device == r'.device
    requires !(DirPath(claim.name, r'.request) <= DirPath(claim.name, r.request))
    ensures !CleanupCovers(driver, claim)
  {
    assert ClaimResults(claim)[1].device == ClaimResults(claim)[0].device && !IsLastNamed(ClaimResults(claim), 0);
    assert r in Own(driver, claim);
    CleanupCoversIff(driver, claim);
  }

  /** On an empty node, preparing and unpreparing that claim both report success and leave a
      directory behind. */
  lemma MissedDirectoryRun(driver: Driver, other: string, device: string) returns (claim: Claim, a: Attempt, b: Attempt)
    requires IsNetwork(driver) && other != driver.name && device in driver.allocatable
    ensures IsPrepareOf(driver, claim, a) && OutcomeOf(driver, a, EMPTY.file).Returned?
    ensures IsUnprepareOf(claim.uid, b) && OutcomeOf(driver, b, Perform(driver, a, EMPTY).file).Returned?
    ensures AllSucceed(b.fates, RemovalLength(Some(EntryOf(claim))))
    ensures Perform(driver, b, Perform(driver, a, EMPTY)).dirs != map[]
  {
    claim := CleanupCanMiss(driver, other, device);
    a, b := PrepareAndUnprepare(driver, claim);
    RoundTripIff(driver, claim, a, b, EMPTY);
  }

  lemma PrepareAndUnprepare(driver: Driver, claim: Claim) returns (a: Attempt, b: Attempt)
    requires Computable(driver, claim)
    ensures IsPrepareOf(driver, claim, a) && OutcomeOf(driver, a, EMPTY.file).Returned?
    ensures IsUnprepareOf(claim.uid, b) && OutcomeOf(driver, b, Perform(driver, a, EMPTY).file).Returned?
    ensures AllSucceed(b.fates, RemovalLength(Some(EntryOf(claim))))
  {
    a := PrepareAppends(driver, claim, [], EMPTY);
    AppendedIsFirst([], EntryOf(claim));
    b := UndisturbedUnprepare(driver, claim.uid, Perform(driver, a, EMPTY));
  }

  // ---- claims that share a directory ----

  /** Exactly when another claim's Unprepare, none of whose removals fails, spares the directories
      of a claim: none of them lies at or below one that it removes. */
  lemma UnprepareSparesIff(driver: Driver, a: Attempt, s: Store, entry: Entry, claim: Claim)
    requires ReadEntries(s.file).Some? && IsUnprepareOf(entry.uid, a) && OutcomeOf(driver, a, s.file).Returned?
    requires FirstEntry(ReadEntries(s.file).value, entry.uid) == Some(entry)
    requires AllSucceed(a.fates, RemovalLength(Some(entry)))
    requires InPlace(Metadata(claim.name, Own(driver, claim)), s.dirs)
    ensures InPlace(Metadata(claim.name, Own(driver, claim)), Perform(driver, a, s).dirs)
       <==> forall q :: q in Metadata(claim.name, Own(driver, claim)) ==> !IsBelow(entry, q)
  {
    ReturningForgets(driver, entry.uid, a, s);
    assert Perform(driver, a, s).dirs == Cleared(s.dirs, entry);
  }

  lemma OwnOfOne(driver: string, r: AllocResult)
    requires r.driver == driver
    ensures OwnResults(driver, [r]) == [r]
  {
    assert [r][..0] == [];
  }

  /** A claim of one network device. */
  function SlotClaim(driver: Driver, uid: UID, name: string, device: string): Claim {
    Claim(uid, name, Some(Allocation([AllocResult(driver.name, "net", "pool", device, false)], [])))
  }

  lemma SlotClaimOwn(driver: Driver, uid: UID, name: string, device: string)
    requires IsNetwork(driver) && device in driver.allocatable
    ensures var claim := SlotClaim(driver, uid, name, device);
            && Own(driver, claim) == [AllocResult(driver.name, "net", "pool", device, false)] == ClaimResults(claim)
            && Computable(driver, claim)
  {
    OwnOfOne(driver.name, AllocResult(driver.name, "net", "pool", device, false));
    NetworkAccepts(driver, SlotClaim(driver, uid, name, device));
  }

  lemma OnlyDirIsRemoved(driver: Driver, claim: Claim, r: AllocResult)
    requires Own(driver, claim) == [r] == ClaimResults(claim)
    ensures DirPath(claim.name, r.request) in Metadata(claim.name, Own(driver, claim))
    ensures IsBelow(EntryOf(claim), DirPath(claim.name, r.request))
  {
    OwnDirIsMade(driver, claim, r);
    DistinctNamesCover(driver, claim);
  }

  const THEIRS := KubeVirtName("a-b", "drz4j", "c", "x")
  const MINE := KubeVirtName("a", "drz4j", "b-c", "x")

  lemma SameStableName()
    ensures StableName(THEIRS) == StableName(MINE)
  {
    SharedNameExists();
    assert IsHash("drz4j") && '-' !in "x";
  }

  lemma SameDirectory(request: string)
    ensures DirPath(THEIRS, request) == DirPath(MINE, request)
  {
    SameStableName();
  }

  /** The run: two machines whose claims share a stable name. Preparing both and unpreparing the
      first one removes the directory that the second one still uses, and every call reports
      success. */
  lemma SharedDirectoryRun(driver: Driver, device: string, device': string) returns (a: Attempt, b: Attempt, c: Attempt)
    requires IsNetwork(driver) && device in driver.allocatable && device' in driver.allocatable
    ensures var theirs, mine := SlotClaim(driver, "uid-a", THEIRS, device), SlotClaim(driver, "uid-b", MINE, device');
            IsPrepareOf(driver, theirs, a) && IsPrepareOf(driver, mine, b) && IsUnprepareOf("uid-a", c)
    ensures OutcomeOf(driver, a, EMPTY.file).Returned?
    ensures OutcomeOf(driver, b, Perform(driver, a, EMPTY).file).Returned?
    ensures OutcomeOf(driver, c, Perform(driver, b, Perform(driver, a, EMPTY)).file).Returned?
    ensures var end := Perform(driver, c, Perform(driver, b, Perform(driver, a, EMPTY)));
            Holds(ReadOr(end.file), "uid-b") && DirPath(MINE, "net") !in end.dirs
  {
    var theirs, mine := SlotClaim(driver, "uid-a", THEIRS, device), SlotClaim(driver, "uid-b", MINE, device');
    SlotClaimOwn(driver, "uid-a", THEIRS, device);
    SlotClaimOwn(driver, "uid-b", MINE, device');
    SameDirectory("net");
    OnlyDirIsRemoved(driver, theirs, ClaimResults(theirs)[0]);
    a, b, c := PrepareBothUnprepareOne(driver, theirs, mine, DirPath(MINE, "net"));
  }

  lemma PrepareBothUnprepareOne(driver: Driver, theirs: Claim, mine: Claim, q: Path)
      returns (a: Attempt, b: Attempt, c: Attempt)
    requires Computable(driver, theirs) && Computable(driver, mine) && theirs.uid != mine.uid
    requires IsBelow(EntryOf(theirs), q)
    ensures IsPrepareOf(driver, theirs, a) && IsPrepareOf(driver, mine, b) && IsUnprepareOf(theirs.uid, c)
    ensures OutcomeOf(driver, a, EMPTY.file).Returned?
    ensures OutcomeOf(driver, b, Perform(driver, a, EMPTY).file).Returned?
    ensures OutcomeOf(driver, c, Perform(driver, b, Perform(driver, a, EMPTY)).file).Returned?
    ensures var end := Perform(driver, c, Perform(driver, b, Perform(driver, a, EMPTY)));
            Holds(ReadOr(end.file), mine.uid) && q !in end.dirs
  {
    a, b := PrepareBoth(driver, theirs, mine);
    c := UnprepareFirst(driver, EntryOf(theirs), EntryOf(mine), q, Perform(driver, b, Perform(driver, a, EMPTY)));
  }

  lemma UnprepareFirst(driver: Driver, x: Entry, y: Entry, q: Path, s: Store) returns (c: Attempt)
    requires s.file == Present(Whole([x, y])) && x.uid != y.uid && IsBelow(x, q)
    ensures IsUnprepareOf(x.uid, c) && OutcomeOf(driver, c, s.file).Returned?
    ensures Holds(ReadOr(Perform(driver, c, s).file), y.uid) && q !in Perform(driver, c, s).dirs
  {
    TwoEntries(x, y);
    c := UndisturbedUnprepare(driver, x.uid, s);
    ForgetsEntry(driver, x, c, s);
    HoldsWithout([x, y], x.uid, y.uid);
  }

  lemma TwoEntries(x: Entry, y: Entry)
    requires x.uid != y.uid
    ensures FirstEntry([x, y], x.uid) == Some(x) && Holds([x, y], y.uid)
  {
    assert [x, y][1] == y;
  }

  lemma PrepareBoth(driver: Driver, theirs: Claim, mine: Claim) returns (a: Attempt, b: Attempt)
    requires Computable(driver, theirs) && Computable(driver, mine) && theirs.uid != mine.uid
    ensures IsPrepareOf(driver, theirs, a) && IsPrepareOf(driver, mine, b)
    ensures OutcomeOf(driver, a, EMPTY.file).Returned?
    ensures OutcomeOf(driver, b, Perform(driver, a, EMPTY).file).Returned?
    ensures Perform(driver, b, Perform(driver, a, EMPTY)).file == Present(Whole([EntryOf(theirs), EntryOf(mine)]))
  {
    a := PrepareAppends(driver, theirs, [], EMPTY);
    assert [] + [EntryOf(theirs)] == [EntryOf(theirs)];
    b := PrepareAppends(driver, mine, [EntryOf(theirs)], Perform(driver, a, EMPTY));
    assert [EntryOf(theirs)] + [EntryOf(mine)] == [EntryOf(theirs), EntryOf(mine)];
  }

  lemma PrepareAppends(driver: Driver, claim: Claim, entries: seq<Entry>, s: Store) returns (a: Attempt)
    requires Computable(driver, claim) && ReadEntries(s.file) == Some(entries) && !Holds(entries, claim.uid)
    ensures IsPrepareOf(driver, claim, a) && OutcomeOf(driver, a, s.file).Returned?
    ensures Perform(driver, a, s).file == Present(Whole(entries + [EntryOf(claim)]))
  {
    a := UndisturbedPrepare(driver, claim, s);
    FirstPrepareAppends(driver, a, s.file);
    PerformFile(driver, a, s);
  }

  // ---- a Prepare that is given up ----

  lemma {:induction false} SetupStarts(claimName: string, own: seq<AllocResult>)
    requires own != []
    ensures SetupOps(claimName, own) != [] && SetupOps(claimName, own)[0] == MakeDir(DirPath(claimName, own[0].request))
  {
    var front := own[..|own| - 1];
    if front != [] {
      SetupStarts(claimName, front);
      assert front[0] == own[0];
    }
  }

  lemma {:induction false} DirStays(ops: seq<Op>, fates: seq<bool>, s: Store, q: Path)
    requires RemovesNothing(ops) && q in s.dirs
    ensures q in After(ops, fates, s).dirs
  {
    if ops != [] && fates != [] {
      assert ops[0] in ops && forall op :: op in ops[1..] ==> op in ops;
      DirStays(ops[1..], fates[1..], if fates[0] then Apply(ops[0], s) else s, q);
    }
  }

  /** Setup that gets through its first step leaves a directory. */
  lemma StartedSetupLeaves(ops: seq<Op>, fates: seq<bool>, s: Store, q: Path)
    requires RemovesNothing(ops) && ops != [] && ops[0] == MakeDir(q)
    requires q !in s.dirs
    ensures After(ops, fates, s).dirs == s.dirs <==> fates == [] || !fates[0]
  {
    if fates != [] {
      assert ops[0] in ops && forall op :: op in ops[1..] ==> op in ops;
      RunFirst(ops, fates, s);
      if fates[0] {
        DirStays(ops[1..], fates[1..], Apply(ops[0], s), q);
      }
    }
  }

  /** The steps of a first Prepare begin with the claim's setup. */
  lemma FirstSteps(driver: Driver, a: Attempt, file: File)
    requires a.call.Prepare? && a.call.claim.allocation.Some? && Readable(file, a.readOk).Some?
    requires !Holds(Readable(file, a.readOk).value, a.call.claim.uid)
    ensures SetupOps(a.call.claim.name, Own(driver, a.call.claim)) <= AttemptPlan(driver, a, file).steps
  {
  }

  lemma NoKeysSame(dirs: map<Path, Option<string>>, dirs': map<Path, Option<string>>)
    requires dirs - {} == dirs' - {}
    ensures dirs == dirs'
  {
    assert dirs - {} == dirs && dirs' - {} == dirs';
  }

  /** What a Prepare that does not replace the checkpoint leaves of the directories. */
  lemma CutPrepareLeavesIff(driver: Driver, claim: Claim, prepare: Attempt, s: Store)
    requires ReadEntries(s.file).Some? && !Holds(ReadEntries(s.file).value, claim.uid)
    requires IsPrepareOf(driver, claim, prepare) && prepare.readOk && claim.allocation.Some?
    requires s.dirs.Keys !! Metadata(claim.name, Own(driver, claim)).Keys
    ensures Perform(driver, prepare, s).dirs == s.dirs
        <==> Own(driver, claim) == [] || prepare.fates == [] || !prepare.fates[0]
  {
    var own := Own(driver, claim);
    if own == [] {
      SetupOutside(driver, prepare, s);
      assert Metadata(claim.name, own).Keys == {};
      NoKeysSame(s.dirs, Perform(driver, prepare, s).dirs);
    } else {
      PerformSteps(driver, prepare, s);
      FirstSteps(driver, prepare, s.file);
      PrepareRemovesNothing(driver, prepare, s.file);
      SetupStarts(claim.name, own);
      OwnDirIsMade(driver, claim, own[0]);
      StartedSetupLeaves(AttemptPlan(driver, prepare, s.file).steps, prepare.fates, s,
          DirPath(claim.name, own[0].request));
    }
  }

  /** A Prepare that is cut before it replaces the checkpoint, followed by a successful Unprepare
      instead of a retry, leaves the checkpoint and the specifications clean. It leaves the
      directories as they were if and only if the Prepare had none to make or did not make the
      first one. */
  lemma AbandonedPrepareIff(driver: Driver, claim: Claim, prepare: Attempt, unprepare: Attempt, s: Store)
    requires ReadEntries(s.file).Some? && !Holds(ReadEntries(s.file).value, claim.uid)
    requires IsPrepareOf(driver, claim, prepare) && prepare.readOk && claim.allocation.Some?
    requires !Replaces(driver, prepare, s.file)
    requires IsUnprepareOf(claim.uid, unprepare) && OutcomeOf(driver, unprepare, s.file).Returned?
    requires s.dirs.Keys !! Metadata(claim.name, Own(driver, claim)).Keys
    ensures var end := Perform(driver, unprepare, Perform(driver, prepare, s));
            && ReadEntries(end.file) == ReadEntries(s.file) && end.specs == s.specs - {claim.uid}
            && (end.dirs == s.dirs <==> Own(driver, claim) == [] || prepare.fates == [] || !prepare.fates[0])
  {
    var cut := Perform(driver, prepare, s);
    PerformFile(driver, prepare, s);
    SetupOutside(driver, prepare, s);
    CutPrepareLeavesIff(driver, claim, prepare, s);
    UnprepareUnknown(driver, claim.uid, unprepare, cut);
    ReturnedReplaces(driver, unprepare, cut.file);
    UnprepareEffect(driver, unprepare, cut);
  }

  // ---- a profile that edits other devices ----

  /** A profile that gives every group the same device's edits, from the group's configuration. */
  function OneDevice(name: string, config: Option<string>,
      results: seq<AllocResult>): Option<map<string, ContainerEdits>> {
    Some(map["x" := ContainerEdits([if config.Some? then config.value else ""], [])])
  }

  function Decoded(raw: string): Option<string> {
    Some(raw)
  }

  lemma OneConfig(driver: Driver, c: DeviceConfig)
    requires c.source.FromClaim? && c.payload.Some? && c.payload.value.driver == driver.name
    requires driver.decode(c.payload.value.raw).Some?
    ensures Collect(driver, [c]) == Ok([Resolved(c.requests, driver.decode(c.payload.value.raw))])
  {
    assert [c][..0] == [];
    assert OfSource([c], FromClass) == [] && OfSource([c], FromClaim) == [c];
    assert [] + [c] == [c];
    assert DecodeAll(driver, [c][..0]) == Ok([]);
    assert [] + [Resolved(c.requests, driver.decode(c.payload.value.raw))]
        == [Resolved(c.requests, driver.decode(c.payload.value.raw))];
  }

  lemma TwoOwn(driver: string, r: AllocResult, r': AllocResult)
    requires r.driver == driver == r'.driver
    ensures OwnResults(driver, [r, r']) == [r, r']
  {
    OwnOfOne(driver, r);
    assert [r, r'][..1] == [r];
  }

  /** Two own results that different configurations apply to. */
  lemma TwoGroups(driver: Driver, claim: Claim, r: AllocResult, r': AllocResult, config: Resolved)
    requires Own(driver, claim) == [r, r'] && ClaimConfigs(driver, claim) == [DEFAULT, config]
    requires !Matches(config, r.request) && Matches(config, r'.request)
    ensures ClaimKeys(driver, claim) == {0, 1}
  {
    var key := Chosen(ClaimConfigs(driver, claim));
    assert key(r) == 0 && key(r') == 1;
    assert Own(driver, claim)[0] == r && Own(driver, claim)[1] == r';
  }

  lemma DisagreeingParts(driver: Driver, claim: Claim)
    requires driver.apply == OneDevice && ClaimKeys(driver, claim) == {0, 1}
    requires |ClaimConfigs(driver, claim)| == 2 && ClaimConfigs(driver, claim)[0].config.None?
    requires ClaimConfigs(driver, claim)[1].config.Some? && ClaimConfigs(driver, claim)[1].config.value != ""
    ensures !AgreeOn(ClaimParts(driver, claim), "x")
  {
    var parts: map<nat, map<string, ContainerEdits>> := ClaimParts(driver, claim);
    assert 0 in ClaimKeys(driver, claim) && 1 in ClaimKeys(driver, claim);
    assert 0 in parts && 1 in parts && parts[0]["x"] == ContainerEdits([""], [])
        && parts[1]["x"] != ContainerEdits([""], []);
  }

  /** Own results `r` and `r'`, and a configuration `c` for the request of `r'` only. */
  ghost predicate IsTwoGroupClaim(driver: Driver, claim: Claim, r: AllocResult, r': AllocResult, c: DeviceConfig) {
    && claim.allocation == Some(Allocation([r, r'], [c]))
    && r.driver == driver.name == r'.driver && r.request != r'.request
    && c.source.FromClaim? && c.requests == [r'.request]
    && c.payload.Some? && c.payload.value.driver == driver.name && c.payload.value.raw != ""
  }

  lemma TwoGroupClaimDisagrees(driver: Driver, claim: Claim, r: AllocResult, r': AllocResult, c: DeviceConfig)
    requires driver.decode == Decoded && driver.apply == OneDevice && IsTwoGroupClaim(driver, claim, r, r', c)
    ensures Own(driver, claim) == [r, r'] && !AgreeOn(ClaimParts(driver, claim), "x")
  {
    var config := Resolved(c.requests, driver.decode(c.payload.value.raw));
    TwoOwn(driver.name, r, r');
    OneConfig(driver, c);
    assert ClaimConfigs(driver, claim) == [DEFAULT, config];
    TwoGroups(driver, claim, r, r', config);
    DisagreeingParts(driver, claim);
  }

  lemma TwoGroupClaimComputable(driver: Driver, claim: Claim, r: AllocResult, r': AllocResult, c: DeviceConfig)
    requires driver.decode == Decoded && driver.apply == OneDevice && IsTwoGroupClaim(driver, claim, r, r', c)
    requires r.device in driver.allocatable && r'.device in driver.allocatable
    ensures Computable(driver, claim)
  {
    TwoOwn(driver.name, r, r');
  }

  /** Distinct device names do not make what is prepared independent of the orders when the profile
      may edit devices that it was not given. */
  lemma ForeignEditsCanDisagree() returns (driver: Driver, claim: Claim)
    ensures Computable(driver, claim) && DistinctDevices(Own(driver, claim)) && !OrderIndependent(driver, claim)
  {
    driver := Driver("d", "p", {"x", "y"}, Decoded, OneDevice);
    var r, r' := AllocResult("d", "a", "pool", "x", false), AllocResult("d", "b", "pool", "y", false);
    var c := DeviceConfig(FromClaim, ["b"], Some(Payload("d", "raw")));
    claim := Claim("uid", "claim", Some(Allocation([r, r'], [c])));
    TwoGroupClaimDisagrees(driver, claim, r, r', c);
    TwoGroupClaimComputable(driver, claim, r, r', c);
    DisagreementShows(driver, claim, r);
  }
}

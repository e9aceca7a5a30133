/** What device computation achieves, whatever the two iteration orders. */
module Computed {
  import opened Prelude
  import opened Claims
  import opened Configs
  import opened Cdi
  import opened Merging
  import opened Grouping
  import opened Devices

  ghost predicate IsClaimOrder(driver: Driver, claim: Claim, order: seq<nat>) {
    IsOrder(order, ClaimKeys(driver, claim))
  }

  // ---- when it succeeds ----

  /** The allocation is one this driver can prepare. */
  ghost predicate Computable(driver: Driver, claim: Claim) {
    && claim.allocation.Some?
    && (forall c :: c in claim.allocation.value.configs ==> Known(c) && Good(driver, c))
    && (forall r :: r in Own(driver, claim) ==> r.device in driver.allocatable)
    && Accepts(driver, claim.name, ClaimConfigs(driver, claim), Own(driver, claim))
  }

  lemma {:induction false} UnallocatableIff(driver: Driver, results: seq<AllocResult>)
    ensures Unallocatable(driver, results).None?
       <==> forall r :: r in OwnResults(driver.name, results) ==> r.device in driver.allocatable
  {
    if results != [] {
      var n := |results| - 1;
      var before, own := OwnResults(driver.name, results[..n]), OwnResults(driver.name, results);
      UnallocatableIff(driver, results[..n]);
      if results[n].driver == driver.name {
        assert own == before + [results[n]];
        assert forall r :: r in own <==> r in before || r == results[n];
      }
    }
  }

  /** The device that is reported is the first own one that is not allocatable. */
  lemma {:induction false} UnallocatableIsFirst(driver: Driver, results: seq<AllocResult>)
    requires Unallocatable(driver, results).Some?
    ensures exists i: nat ::
        IsFirstUnallocatable(driver, results, i) && Unallocatable(driver, results) == Some(results[i].device)
  {
    var n := |results| - 1;
    if Unallocatable(driver, results[..n]).Some? {
      UnallocatableIsFirst(driver, results[..n]);
      var i: nat :| IsFirstUnallocatable(driver, results[..n], i)
          && Unallocatable(driver, results[..n]) == Some(results[..n][i].device);
      assert IsFirstUnallocatable(driver, results, i);
    } else {
      NoneUnallocatable(driver, results[..n]);
      assert IsFirstUnallocatable(driver, results, n);
    }
  }

  ghost predicate IsOffered(driver: Driver, r: AllocResult) {
    r.driver == driver.name ==> r.device in driver.allocatable
  }

  ghost predicate IsFirstUnallocatable(driver: Driver, results: seq<AllocResult>, i: nat) {
    i < |results| && !IsOffered(driver, results[i]) && forall j :: 0 <= j < i ==> IsOffered(driver, results[j])
  }

  lemma {:induction false} NoneUnallocatable(driver: Driver, results: seq<AllocResult>)
    requires Unallocatable(driver, results).None?
    ensures forall j :: 0 <= j < |results| ==> IsOffered(driver, results[j])
  {
    if results != [] {
      NoneUnallocatable(driver, results[..|results| - 1]);
    }
  }

  /** Success does not depend on the iteration orders, and neither does the error. */
  lemma ComputeSucceedsIff(driver: Driver, claim: Claim, first: seq<nat>, second: seq<nat>)
    ensures Compute(driver, claim, first, second).Ok? <==> Computable(driver, claim)
    ensures Compute(driver, claim, first, second).Err? ==>
              forall first', second' :: Compute(driver, claim, first', second') == Compute(driver, claim, first, second)
  {
    if claim.allocation.Some? {
      var configs := claim.allocation.value.configs;
      CollectSucceedsIff(driver, configs);
      UnallocatableIff(driver, claim.allocation.value.results);
      assert forall c :: c in configs <==> exists i :: 0 <= i < |configs| && configs[i] == c;
    }
  }

  lemma ComputedIs(driver: Driver, claim: Claim, first: seq<nat>, second: seq<nat>)
    requires Compute(driver, claim, first, second).Ok?
    ensures Compute(driver, claim, first, second).value
         == PrepareAll(driver, claim.uid, Listed(driver, claim, second), ClaimEdits(driver, claim, first),
             HasAdminAccess(ClaimResults(claim)))
  {
  }

  // ---- conservation ----

  lemma OrderCoversOwn(driver: Driver, claim: Claim, order: seq<nat>)
    requires IsClaimOrder(driver, claim, order)
    ensures multiset(Listed(driver, claim, order)) == multiset(Own(driver, claim))
  {
    var key, own := Chosen(ClaimConfigs(driver, claim)), Own(driver, claim);
    forall i | 0 <= i < |own| ensures key(own[i]) in order {
      assert key(own[i]) in Keys(key, own);
    }
    FlattenPermutes(key, own, order);
  }

  lemma PermutedDevices(driver: Driver, uid: UID, a: seq<AllocResult>, b: seq<AllocResult>)
    requires multiset(a) == multiset(b)
    ensures multiset(DevicesFor(driver, uid, a)) == multiset(DevicesFor(driver, uid, b))
  {
    var f := (r: AllocResult) => DeviceOf(driver, uid, r);
    MappedPermutes(f, a, b);
    assert DevicesFor(driver, uid, a) == Mapped(f, a) && DevicesFor(driver, uid, b) == Mapped(f, b);
  }

  lemma DevicesOfPrepared(driver: Driver, uid: UID, results: seq<AllocResult>, edits: map<string, ContainerEdits>,
      admin: bool)
    ensures GetDevices(PrepareAll(driver, uid, results, edits, admin)) == DevicesFor(driver, uid, results)
  {
  }

  lemma DevicesListed(driver: Driver, claim: Claim, first: seq<nat>, second: seq<nat>)
    requires Compute(driver, claim, first, second).Ok?
    ensures GetDevices(Compute(driver, claim, first, second).value)
        == DevicesFor(driver, claim.uid, Listed(driver, claim, second))
  {
    DevicesOfPrepared(driver, claim.uid, Listed(driver, claim, second), ClaimEdits(driver, claim, first),
        HasAdminAccess(ClaimResults(claim)));
  }

  /** The devices returned are a permutation of the driver's own results, for every pair of
      iteration orders. */
  lemma DevicesConserved(driver: Driver, claim: Claim, first: seq<nat>, second: seq<nat>)
    requires IsClaimOrder(driver, claim, second)
    requires Compute(driver, claim, first, second).Ok?
    ensures multiset(GetDevices(Compute(driver, claim, first, second).value))
        == multiset(DevicesFor(driver, claim.uid, Own(driver, claim)))
  {
    var listed := Listed(driver, claim, second);
    OrderCoversOwn(driver, claim, second);
    PermutedDevices(driver, claim.uid, listed, Own(driver, claim));
    DevicesListed(driver, claim, first, second);
  }

  lemma NothingPreparedIff(driver: Driver, claim: Claim, first: seq<nat>, second: seq<nat>)
    requires IsClaimOrder(driver, claim, second)
    requires Compute(driver, claim, first, second).Ok?
    ensures Compute(driver, claim, first, second).value == [] <==> Own(driver, claim) == []
  {
    var listed := Listed(driver, claim, second);
    OrderCoversOwn(driver, claim, second);
    SameLength(listed, Own(driver, claim));
  }

  /** The devices of one configuration come in allocation order. */
  lemma GroupsKeepAllocationOrder(driver: Driver, claim: Claim, first: seq<nat>, second: seq<nat>, k: nat)
    requires IsClaimOrder(driver, claim, second)
    requires Compute(driver, claim, first, second).Ok?
    ensures GetDevices(Compute(driver, claim, first, second).value)
        == DevicesFor(driver, claim.uid, Listed(driver, claim, second))
    ensures var key := Chosen(ClaimConfigs(driver, claim));
            Select(key, Listed(driver, claim, second), k) == Select(key, Own(driver, claim), k)
  {
    var key, own := Chosen(ClaimConfigs(driver, claim)), Own(driver, claim);
    DevicesListed(driver, claim, first, second);
    FlattenKeepsOrder(key, own, second, k);
    if k !in second {
      assert forall i :: 0 <= i < |own| ==> key(own[i]) in Keys(key, own);
      SelectAbsent(key, own, k);
    }
  }

  // ---- container edits ----

  /** Groups that edit the same device agree about it. */
  ghost predicate EditsAgree(driver: Driver, claim: Claim) {
    Compatible(ClaimParts(driver, claim))
  }

  /** The profile edits only devices it was given. */
  ghost predicate EditsAreLocal(driver: Driver) {
    forall name: string, config: Option<string>, results: seq<AllocResult> ::
      driver.apply(name, config, results).Some? ==>
        forall device ::
            device in driver.apply(name, config, results).value ==> exists r :: r in results && r.device == device
  }

  lemma PartDevice(driver: Driver, claim: Claim, k: nat, device: string) returns (r: AllocResult)
    requires EditsAreLocal(driver)
    requires k in ClaimParts(driver, claim) && device in ClaimParts(driver, claim)[k]
    ensures r in Own(driver, claim) && r.device == device && Chosen(ClaimConfigs(driver, claim))(r) == k
  {
    var key, own := Chosen(ClaimConfigs(driver, claim)), Own(driver, claim);
    var group := Select(key, own, k);
    SelectMembers(key, own, k);
    assert device in driver.apply(claim.name, ClaimConfigs(driver, claim)[k].config, group).value;
    r :| r in group && r.device == device;
  }

  lemma OwnByDevice(driver: Driver, claim: Claim, r: AllocResult, r': AllocResult)
    requires DistinctDevices(Own(driver, claim)) && r in Own(driver, claim) && r' in Own(driver, claim)
    requires r.device == r'.device
    ensures r == r'
  {
  }

  /** With distinct device names a device is edited by one group only. */
  lemma OnePart(driver: Driver, claim: Claim, i: nat, j: nat, device: string)
    requires EditsAreLocal(driver) && DistinctDevices(Own(driver, claim))
    requires i in ClaimParts(driver, claim) && device in ClaimParts(driver, claim)[i]
    requires j in ClaimParts(driver, claim) && device in ClaimParts(driver, claim)[j]
    ensures i == j
  {
    var r := PartDevice(driver, claim, i, device);
    var r' := PartDevice(driver, claim, j, device);
    OwnByDevice(driver, claim, r, r');
  }

  lemma DistinctDevicesAgree(driver: Driver, claim: Claim)
    requires EditsAreLocal(driver) && DistinctDevices(Own(driver, claim))
    ensures EditsAgree(driver, claim)
  {
    var parts := ClaimParts(driver, claim);
    forall i, j, device | i in parts && j in parts && device in parts[i] && device in parts[j]
      ensures parts[i][device] == parts[j][device]
    {
      OnePart(driver, claim, i, j, device);
    }
  }

  /** Once the profile accepts every group, each group has a part. */
  lemma PartsKeys(driver: Driver, claim: Claim)
    requires Computable(driver, claim)
    ensures ClaimParts(driver, claim).Keys == ClaimKeys(driver, claim)
  {
  }

  /** Once the profile accepts every group, the edits do not depend on the order in which the
      groups are visited if and only if groups that edit the same device agree. */
  lemma EditsOrderFreeIff(driver: Driver, claim: Claim)
    requires Computable(driver, claim)
    ensures ClaimParts(driver, claim).Keys == ClaimKeys(driver, claim)
    ensures OrderFree(ClaimParts(driver, claim)) <==> EditsAgree(driver, claim)
  {
    PartsKeys(driver, claim);
    OrderIrrelevantIff(ClaimParts(driver, claim));
  }

  lemma PermutedPrepared(driver: Driver, uid: UID, a: seq<AllocResult>, b: seq<AllocResult>,
      edits: map<string, ContainerEdits>, admin: bool)
    requires multiset(a) == multiset(b)
    ensures multiset(PrepareAll(driver, uid, a, edits, admin)) == multiset(PrepareAll(driver, uid, b, edits, admin))
  {
    var f := (r: AllocResult) => PreparedOf(driver, uid, r, edits, admin);
    MappedPermutes(f, a, b);
    assert PrepareAll(driver, uid, a, edits, admin) == Mapped(f, a)
        && PrepareAll(driver, uid, b, edits, admin) == Mapped(f, b);
  }

  /** Groups that edit the device of an own result agree about it. */
  ghost predicate OwnEditsAgree(driver: Driver, claim: Claim) {
    forall r :: r in Own(driver, claim) ==> AgreeOn(ClaimParts(driver, claim), r.device)
  }

  /** All pairs of orders give the same prepared devices, edits included, up to their order in the
      list. */
  ghost predicate OrderIndependent(driver: Driver, claim: Claim) {
    forall first, second, first', second' ::
      && IsClaimOrder(driver, claim, first) && IsClaimOrder(driver, claim, second)
      && IsClaimOrder(driver, claim, first') && IsClaimOrder(driver, claim, second') ==>
      SamePrepared(driver, claim, first, second, first', second')
  }

  ghost predicate SamePrepared(driver: Driver, claim: Claim, first: seq<nat>, second: seq<nat>, first': seq<nat>,
      second': seq<nat>) {
    && Compute(driver, claim, first, second).Ok? && Compute(driver, claim, first', second').Ok?
    && multiset(Compute(driver, claim, first, second).value) == multiset(Compute(driver, claim, first', second').value)
  }

  lemma SameEdits(driver: Driver, uid: UID, results: seq<AllocResult>, edits: map<string, ContainerEdits>,
      edits': map<string, ContainerEdits>, admin: bool)
    requires forall r :: r in results ==> SameOn(edits, edits', r.device)
    ensures PrepareAll(driver, uid, results, edits, admin) == PrepareAll(driver, uid, results, edits', admin)
  {
    forall i | 0 <= i < |results|
      ensures PreparedOf(driver, uid, results[i], edits, admin) == PreparedOf(driver, uid, results[i], edits', admin)
    {
      assert SameOn(edits, edits', results[i].device);
    }
  }

  lemma ListedAreOwn(driver: Driver, claim: Claim, second: seq<nat>, r: AllocResult)
    requires IsClaimOrder(driver, claim, second)
    ensures r in Listed(driver, claim, second) <==> r in Own(driver, claim)
  {
    OrderCoversOwn(driver, claim, second);
    assert r in multiset(Listed(driver, claim, second)) <==> r in multiset(Own(driver, claim));
  }

  /** Agreement about the devices of own results fixes what is prepared. */
  lemma AgreeingEditsPrepare(driver: Driver, claim: Claim, second: seq<nat>, first: seq<nat>, first': seq<nat>)
    requires IsClaimOrder(driver, claim, second) && OwnEditsAgree(driver, claim)
    requires IsOrder(first, ClaimParts(driver, claim).Keys) && IsOrder(first', ClaimParts(driver, claim).Keys)
    ensures var listed, admin := Listed(driver, claim, second), HasAdminAccess(ClaimResults(claim));
            PrepareAll(driver, claim.uid, listed, ClaimEdits(driver, claim, first), admin) ==
            PrepareAll(driver, claim.uid, listed, ClaimEdits(driver, claim, first'), admin)
  {
    forall r | r in Listed(driver, claim, second)
      ensures SameOn(ClaimEdits(driver, claim, first), ClaimEdits(driver, claim, first'), r.device)
    {
      ListedAreOwn(driver, claim, second, r);
      AgreedMerges(ClaimParts(driver, claim), first, first', r.device);
    }
    SameEdits(driver, claim.uid, Listed(driver, claim, second), ClaimEdits(driver, claim, first),
        ClaimEdits(driver, claim, first'), HasAdminAccess(ClaimResults(claim)));
  }

  lemma PreparedOrderFree(driver: Driver, claim: Claim, first: seq<nat>, second: seq<nat>, first': seq<nat>,
      second': seq<nat>)
    requires IsClaimOrder(driver, claim, first) && IsClaimOrder(driver, claim, second)
    requires IsClaimOrder(driver, claim, first') && IsClaimOrder(driver, claim, second')
    requires Computable(driver, claim) && OwnEditsAgree(driver, claim)
    ensures SamePrepared(driver, claim, first, second, first', second')
  {
    ComputeSucceedsIff(driver, claim, first, second);
    ComputeSucceedsIff(driver, claim, first', second');
    ComputedIs(driver, claim, first, second);
    ComputedIs(driver, claim, first', second');
    PartsKeys(driver, claim);
    AgreeingEditsPrepare(driver, claim, second, first, first');
    OrderCoversOwn(driver, claim, second);
    OrderCoversOwn(driver, claim, second');
    PermutedPrepared(driver, claim.uid, Listed(driver, claim, second), Listed(driver, claim, second'),
        ClaimEdits(driver, claim, first'), HasAdminAccess(ClaimResults(claim)));
  }

  lemma NotPrepared(driver: Driver, uid: UID, results: seq<AllocResult>, edits: map<string, ContainerEdits>,
      admin: bool, p: PreparedDevice)
    requires p.edits.Some? && p.device.name in edits && edits[p.device.name] != p.edits.value
    ensures p !in PrepareAll(driver, uid, results, edits, admin)
  {
    forall i | 0 <= i < |results| ensures PreparedOf(driver, uid, results[i], edits, admin) != p {
    }
  }

  /** Two orders that end with groups which disagree about the device of `r`. */
  lemma DisagreeingOrders(driver: Driver, claim: Claim, order: seq<nat>, order': seq<nat>, r: AllocResult)
    requires Computable(driver, claim) && r in Own(driver, claim)
    requires IsClaimOrder(driver, claim, order) && IsClaimOrder(driver, claim, order')
    requires r.device in ClaimEdits(driver, claim, order) && r.device in ClaimEdits(driver, claim, order')
    requires ClaimEdits(driver, claim, order)[r.device] != ClaimEdits(driver, claim, order')[r.device]
    ensures !SamePrepared(driver, claim, order, order, order', order)
  {
    var admin, listed := HasAdminAccess(ClaimResults(claim)), Listed(driver, claim, order);
    var p := PreparedOf(driver, claim.uid, r, ClaimEdits(driver, claim, order), admin);
    ComputeSucceedsIff(driver, claim, order, order);
    ComputeSucceedsIff(driver, claim, order', order);
    ComputedIs(driver, claim, order, order);
    ComputedIs(driver, claim, order', order);
    ListedAt(driver, claim, order, r, ClaimEdits(driver, claim, order), admin);
    NotPrepared(driver, claim.uid, listed, ClaimEdits(driver, claim, order'), admin, p);
    assert p in multiset(Compute(driver, claim, order, order).value);
  }

  lemma DisagreementShows(driver: Driver, claim: Claim, r: AllocResult)
    requires Computable(driver, claim) && r in Own(driver, claim) && !AgreeOn(ClaimParts(driver, claim), r.device)
    ensures !OrderIndependent(driver, claim)
  {
    PartsKeys(driver, claim);
    var order, order' := DisagreementMerges(ClaimParts(driver, claim), r.device);
    DisagreeingOrders(driver, claim, order, order', r);
  }

  /** Exactly when what is prepared does not depend on the orders: when groups that edit the device
      of an own result agree about it. */
  lemma OrderIndependentIff(driver: Driver, claim: Claim)
    requires Computable(driver, claim)
    ensures OrderIndependent(driver, claim) <==> OwnEditsAgree(driver, claim)
  {
    if OwnEditsAgree(driver, claim) {
      forall first, second, first', second'
        | && IsClaimOrder(driver, claim, first) && IsClaimOrder(driver, claim, second)
          && IsClaimOrder(driver, claim, first') && IsClaimOrder(driver, claim, second')
        ensures SamePrepared(driver, claim, first, second, first', second')
      {
        PreparedOrderFree(driver, claim, first, second, first', second');
      }
    } else {
      var r :| r in Own(driver, claim) && !AgreeOn(ClaimParts(driver, claim), r.device);
      DisagreementShows(driver, claim, r);
    }
  }

  /** Agreement about all devices is enough. */
  lemma CompatibleOwn(driver: Driver, claim: Claim)
    requires EditsAgree(driver, claim)
    ensures OwnEditsAgree(driver, claim)
  {
  }

  /** The same holds of the claim's CDI specification. */
  lemma PermutedSpec(driver: Driver, uid: UID, a: seq<PreparedDevice>, b: seq<PreparedDevice>)
    requires multiset(a) == multiset(b)
    ensures SameSpec(ClaimSpec(driver, uid, a), ClaimSpec(driver, uid, b))
  {
    var f := (prepared: PreparedDevice) => SpecDevice(driver, uid, prepared);
    MappedPermutes(f, a, b);
    assert ClaimSpec(driver, uid, a).devices == Mapped(f, a) && ClaimSpec(driver, uid, b).devices == Mapped(f, b);
  }

  // ---- precedence, end to end ----

  /** The group of results that share the winning configuration of `r`. */
  ghost function GroupOf(driver: Driver, claim: Claim, r: AllocResult): seq<AllocResult> {
    var key := Chosen(ClaimConfigs(driver, claim));
    Select(key, Own(driver, claim), key(r))
  }

  lemma OwnGroupApplied(driver: Driver, claim: Claim, r: AllocResult)
    requires Computable(driver, claim) && r in Own(driver, claim)
    ensures var k := Chosen(ClaimConfigs(driver, claim))(r);
            && k in ClaimParts(driver, claim)
            && driver.apply(claim.name, Winner(driver, claim.allocation.value.configs, r.request),
                 GroupOf(driver, claim, r)) == Some(ClaimParts(driver, claim)[k])
  {
    var configs, own := ClaimConfigs(driver, claim), Own(driver, claim);
    CollectSucceedsIff(driver, claim.allocation.value.configs);
    ScanFindsWinner(driver, claim.allocation.value.configs, r.request);
    var k := Chosen(configs)(r);
    assert k in Keys(Chosen(configs), own);
    assert Applied(driver, claim.name, configs, own, k).Some?;
  }

  /** Only the group of `r` edits the device of `r`. */
  lemma OnlyGroup(driver: Driver, claim: Claim, r: AllocResult, k: nat)
    requires EditsAreLocal(driver) && DistinctDevices(Own(driver, claim)) && r in Own(driver, claim)
    requires k in ClaimParts(driver, claim) && r.device in ClaimParts(driver, claim)[k]
    ensures k == Chosen(ClaimConfigs(driver, claim))(r)
  {
    var r' := PartDevice(driver, claim, k, r.device);
    assert r' == r;
  }

  /** Merging keeps what the group of `r` says about its device. */
  lemma MergedEdits(driver: Driver, claim: Claim, first: seq<nat>, r: AllocResult, k: nat)
    requires IsOrder(first, ClaimParts(driver, claim).Keys)
    requires EditsAreLocal(driver) && DistinctDevices(Own(driver, claim)) && r in Own(driver, claim)
    requires k == Chosen(ClaimConfigs(driver, claim))(r) && k in ClaimParts(driver, claim)
    ensures var parts := ClaimParts(driver, claim);
            && (r.device in Merge(parts, first) <==> r.device in parts[k])
            && (r.device in parts[k] ==> Merge(parts, first)[r.device] == parts[k][r.device])
  {
    var parts := ClaimParts(driver, claim);
    forall j | j in parts && r.device in parts[j] ensures j == k {
      OnlyGroup(driver, claim, r, j);
    }
    MergeAt(parts, first, r.device);
  }

  /** With distinct device names, each own result is prepared with the edits that the profile
      derives from the winning configuration for the group of results that share it. */
  lemma WinnerIsApplied(driver: Driver, claim: Claim, first: seq<nat>, second: seq<nat>, r: AllocResult)
    requires IsClaimOrder(driver, claim, first) && IsClaimOrder(driver, claim, second)
    requires Compute(driver, claim, first, second).Ok?
    requires EditsAreLocal(driver) && DistinctDevices(Own(driver, claim)) && r in Own(driver, claim)
    ensures var applied := driver.apply(claim.name, Winner(driver, claim.allocation.value.configs, r.request),
        GroupOf(driver, claim, r));
            && applied.Some?
            && PreparedOf(driver, claim.uid, r, applied.value,
                 HasAdminAccess(ClaimResults(claim))) in Compute(driver, claim, first, second).value
  {
    ComputeSucceedsIff(driver, claim, first, second);
    OwnGroupApplied(driver, claim, r);
    var parts := ClaimParts(driver, claim);
    assert parts.Keys == ClaimKeys(driver, claim);
    MergedEdits(driver, claim, first, r, Chosen(ClaimConfigs(driver, claim))(r));
    ListedAt(driver, claim, second, r, ClaimEdits(driver, claim, first), HasAdminAccess(ClaimResults(claim)));
  }

  lemma ListedAt(driver: Driver, claim: Claim, second: seq<nat>, r: AllocResult, edits: map<string, ContainerEdits>,
      admin: bool)
    requires IsClaimOrder(driver, claim, second) && r in Own(driver, claim)
    ensures PreparedOf(driver, claim.uid, r, edits, admin)
         in PrepareAll(driver, claim.uid, Listed(driver, claim, second), edits, admin)
  {
    OrderCoversOwn(driver, claim, second);
    var listed := Listed(driver, claim, second);
    assert r in multiset(listed);
    var i :| 0 <= i < |listed| && listed[i] == r;
    assert PrepareAll(driver, claim.uid, listed, edits, admin)[i] == PreparedOf(driver, claim.uid, r, edits, admin);
  }

  // ---- the algorithm ----

  /** Computes the claim's devices, each own result once, or fails on exactly the claims that
      this driver cannot prepare. */
  method ComputeDeviceConfig(driver: Driver, claim: Claim)
      returns (r: Result<seq<PreparedDevice>, Error>, ghost first: seq<nat>, ghost second: seq<nat>)
    ensures r == Compute(driver, claim, first, second)
    ensures IsClaimOrder(driver, claim, first) && IsClaimOrder(driver, claim, second)
    ensures r.Ok? <==> Computable(driver, claim)
    ensures r.Ok? ==> multiset(GetDevices(r.value)) == multiset(DevicesFor(driver, claim.uid, Own(driver, claim)))
  {
    first := OrderExists(ClaimKeys(driver, claim));
    second := first;
    ComputeSucceedsIff(driver, claim, first, second);
    if claim.allocation.None? {
      return Err(NotAllocated), first, second;
    }
    var hasAdminAccess := CheckAdminAccess(claim);
    var configs := GetOpaqueDeviceConfigs(driver, claim.allocation.value.configs);
    if configs.Err? {
      return Err(configs.error), first, second;
    }
    var all := [DEFAULT] + configs.value;
    var groups := GroupResults(driver, all, claim.allocation.value.results);
    if groups.Err? {
      return Err(groups.error), first, second;
    }
    var edits;
    edits, first := ApplyConfigs(driver, claim.name, all, groups.value, Own(driver, claim));
    if edits.None? {
      return Err(ConfigRejected), first, second;
    }
    var prepared;
    prepared, second := ListDevices(driver, claim.uid, all, groups.value, Own(driver, claim), edits.value,
        hasAdminAccess);
    ComputeSucceedsIff(driver, claim, first, second);
    DevicesConserved(driver, claim, first, second);
    return Ok(prepared), first, second;
  }
}

/** The devices a claim is given: grouping by configuration, container edits, and the list
    that is returned. Go walks the groups twice, each time in an order it does not fix. */
module Devices {
  import opened Prelude
  import opened Claims
  import opened Configs
  import opened Cdi
  import opened Merging
  import opened Grouping

  ghost predicate Ready(configs: seq<Resolved>) {
    |configs| > 0 && configs[0].requests == []
  }

  /** The number of the configuration that applies to a result. */
  ghost function Chosen(configs: seq<Resolved>): AllocResult -> nat
    requires Ready(configs)
  {
    (r: AllocResult) => Lookup(configs, r.request)
  }

  /** The first of the driver's results whose device is not allocatable. */
  ghost function Unallocatable(driver: Driver, results: seq<AllocResult>): Option<string> {
    if results == [] then None
    else
      var n := |results| - 1;
      var before := Unallocatable(driver, results[..n]);
      if before.Some? then before
      else if results[n].driver == driver.name && results[n].device !in driver.allocatable then Some(results[n].device)
      else None
  }

  ghost function Applied(driver: Driver, name: string, configs: seq<Resolved>, own: seq<AllocResult>,
      k: nat): Option<map<string, ContainerEdits>>
    requires Ready(configs) && k < |configs|
  {
    driver.apply(name, configs[k].config, Select(Chosen(configs), own, k))
  }

  ghost predicate Accepts(driver: Driver, name: string, configs: seq<Resolved>, own: seq<AllocResult>)
    requires Ready(configs)
  {
    forall k :: k in Keys(Chosen(configs), own) ==> Applied(driver, name, configs, own, k).Some?
  }

  /** The container edits each group's configuration gives. */
  ghost function Parts(driver: Driver, name: string, configs: seq<Resolved>,
      own: seq<AllocResult>): map<nat, map<string, ContainerEdits>>
    requires Ready(configs)
  {
    map k | k in Keys(Chosen(configs), own) && Applied(driver, name, configs, own, k).Some?
        :: Applied(driver, name, configs, own, k).value
  }

  function DeviceOf(driver: Driver, uid: UID, r: AllocResult): Device {
    Device([r.request], r.pool, r.device, ClaimDeviceIds(driver, uid, [r.device]))
  }

  function PreparedOf(driver: Driver, uid: UID, r: AllocResult, edits: map<string, ContainerEdits>,
      admin: bool): PreparedDevice {
    PreparedDevice(DeviceOf(driver, uid, r), if r.device in edits then Some(edits[r.device]) else None, admin)
  }

  function PrepareAll(driver: Driver, uid: UID, results: seq<AllocResult>, edits: map<string, ContainerEdits>,
      admin: bool): (prepared: seq<PreparedDevice>)
    ensures |prepared| == |results|
  {
    seq(|results|, i requires 0 <= i < |results| => PreparedOf(driver, uid, results[i], edits, admin))
  }

  function DevicesFor(driver: Driver, uid: UID, results: seq<AllocResult>): (devices: seq<Device>)
    ensures |devices| == |results|
  {
    seq(|results|, i requires 0 <= i < |results| => DeviceOf(driver, uid, results[i]))
  }

  predicate HasAdminAccess(results: seq<AllocResult>) {
    exists r :: r in results && r.adminAccess
  }

  ghost function ClaimConfigs(driver: Driver, claim: Claim): (configs: seq<Resolved>)
    ensures Ready(configs)
  {
    if claim.allocation.Some? && Collect(driver, claim.allocation.value.configs).Ok?
    then [DEFAULT] + Collect(driver, claim.allocation.value.configs).value
    else [DEFAULT]
  }

  ghost function ClaimKeys(driver: Driver, claim: Claim): set<nat> {
    Keys(Chosen(ClaimConfigs(driver, claim)), Own(driver, claim))
  }

  ghost function ClaimParts(driver: Driver, claim: Claim): map<nat, map<string, ContainerEdits>> {
    Parts(driver, claim.name, ClaimConfigs(driver, claim), Own(driver, claim))
  }

  /** The driver's own results in the order in which they are listed. */
  ghost function Listed(driver: Driver, claim: Claim, second: seq<nat>): seq<AllocResult> {
    Flatten(Chosen(ClaimConfigs(driver, claim)), Own(driver, claim), second)
  }

  ghost function ClaimEdits(driver: Driver, claim: Claim, first: seq<nat>): map<string, ContainerEdits> {
    Merge(ClaimParts(driver, claim), first)
  }

  /** The result when the groups are walked in the order `first` to apply configurations and
      in the order `second` to list devices. */
  ghost function Compute(driver: Driver, claim: Claim, first: seq<nat>,
      second: seq<nat>): Result<seq<PreparedDevice>, Error> {
    if claim.allocation.None? then Err(NotAllocated)
    else
      var results := claim.allocation.value.results;
      var collected := Collect(driver, claim.allocation.value.configs);
      if collected.Err? then Err(collected.error)
      else if Unallocatable(driver, results).Some? then Err(NotAllocatable(Unallocatable(driver, results).value))
      else
        var configs, own := ClaimConfigs(driver, claim), Own(driver, claim);
        if !Accepts(driver, claim.name, configs, own) then Err(ConfigRejected)
        else Ok(PrepareAll(driver, claim.uid, Listed(driver, claim, second), ClaimEdits(driver, claim, first),
            HasAdminAccess(results)))
  }

  // ---- the algorithm ----

  method CheckAdminAccess(claim: Claim) returns (admin: bool)
    ensures admin <==> HasAdminAccess(ClaimResults(claim))
  {
    if claim.allocation.Some? {
      var results := claim.allocation.value.results;
      for i := 0 to |results|
        invariant forall k :: 0 <= k < i ==> !results[k].adminAccess
      {
        if results[i].adminAccess {
          return true;
        }
      }
    }
    return false;
  }

  method ScanBackward(configs: seq<Resolved>, request: string) returns (k: nat)
    requires Ready(configs)
    ensures k == Lookup(configs, request)
  {
    k := |configs| - 1;
    while !(configs[k].requests == [] || request in configs[k].requests)
      invariant k < |configs|
      invariant forall j :: k < j < |configs| ==> !Matches(configs[j], request)
      decreases k
    {
      k := k - 1;
    }
  }

  method GroupResults(driver: Driver, configs: seq<Resolved>, results: seq<AllocResult>)
      returns (r: Result<map<nat, seq<AllocResult>>, Error>)
    requires Ready(configs)
    ensures r.Err? ==>
        Unallocatable(driver, results).Some? && r.error == NotAllocatable(Unallocatable(driver, results).value)
    ensures r.Ok? ==> Unallocatable(driver, results).None?
    ensures r.Ok? ==> AreGroups(r.value, Chosen(configs), OwnResults(driver.name, results))
  {
    var groups: map<nat, seq<AllocResult>> := map[];
    for i := 0 to |results|
      invariant Unallocatable(driver, results[..i]).None?
      invariant AreGroups(groups, Chosen(configs), OwnResults(driver.name, results[..i]))
    {
      var result := results[i];
      assert results[..i + 1][..i] == results[..i];
      ghost var seen := OwnResults(driver.name, results[..i]);
      if result.driver != driver.name {
        assert OwnResults(driver.name, results[..i + 1]) == seen;
        continue;
      }
      if result.device !in driver.allocatable {
        UnallocatableSticks(driver, results, i + 1);
        return Err(NotAllocatable(result.device));
      }
      var c := ScanBackward(configs, result.request);
      GroupStep(groups, Chosen(configs), seen, result);
      groups := groups[c := (if c in groups then groups[c] else []) + [result]];
    }
    assert results[..|results|] == results;
    return Ok(groups);
  }

  lemma {:induction false} UnallocatableSticks(driver: Driver, results: seq<AllocResult>, n: nat)
    requires n <= |results| && Unallocatable(driver, results[..n]).Some?
    ensures Unallocatable(driver, results) == Unallocatable(driver, results[..n])
  {
    if n == |results| {
      assert results[..n] == results;
    } else {
      assert results[..|results| - 1][..n] == results[..n];
      UnallocatableSticks(driver, results[..|results| - 1], n);
    }
  }

  /** Applies the configuration of each group, visiting the groups in any order. */
  method ApplyConfigs(driver: Driver, name: string, configs: seq<Resolved>, groups: map<nat, seq<AllocResult>>,
      ghost own: seq<AllocResult>)
    returns (r: Option<map<string, ContainerEdits>>, ghost order: seq<nat>)
    requires Ready(configs) && AreGroups(groups, Chosen(configs), own)
    ensures IsOrder(order, Keys(Chosen(configs), own))
    ensures r == if Accepts(driver, name, configs, own) then Some(Merge(Parts(driver, name, configs, own), order))
        else None
  {
    var remaining := groups.Keys;
    var edits: map<string, ContainerEdits> := map[];
    order := [];
    ghost var parts := Parts(driver, name, configs, own);
    while remaining != {}
      invariant remaining <= groups.Keys
      invariant IsOrder(order, groups.Keys - remaining)
      invariant groups.Keys - remaining <= parts.Keys
      invariant edits == Merge(parts, order)
      decreases |remaining|
    {
      var k :| k in remaining;
      var containerEdits := driver.apply(name, configs[k].config, groups[k]);
      assert containerEdits == Applied(driver, name, configs, own, k);
      if containerEdits.None? {
        order := OrderExists(Keys(Chosen(configs), own));
        return None, order;
      }
      edits := edits + containerEdits.value;
      MergeStep(parts, order, k);
      OrderStep(order, groups.Keys, remaining, k);
      order := order + [k];
      remaining := remaining - {k};
    }
    r := Some(edits);
  }

  method AppendDevices(driver: Driver, uid: UID, before: seq<PreparedDevice>, results: seq<AllocResult>,
      ghost done: seq<AllocResult>,
                       edits: map<string, ContainerEdits>, admin: bool)
    returns (prepared: seq<PreparedDevice>)
    requires before == PrepareAll(driver, uid, done, edits, admin)
    ensures prepared == PrepareAll(driver, uid, done + results, edits, admin)
  {
    prepared := before;
    for i := 0 to |results|
      invariant prepared == PrepareAll(driver, uid, done + results[..i], edits, admin)
    {
      var result := results[i];
      var ids := GetClaimDevices(driver, uid, [result.device]);
      var device := Device([result.request], result.pool, result.device, ids);
      var containerEdits := if result.device in edits then Some(edits[result.device]) else None;
      assert done + results[..i + 1] == done + results[..i] + [result];
      prepared := prepared + [PreparedDevice(device, containerEdits, admin)];
    }
    assert results[..|results|] == results;
  }

  /** Lists the devices of each group, visiting the groups in any order. */
  method ListDevices(driver: Driver, uid: UID, configs: seq<Resolved>, groups: map<nat, seq<AllocResult>>,
      ghost own: seq<AllocResult>,
                     edits: map<string, ContainerEdits>, admin: bool)
    returns (prepared: seq<PreparedDevice>, ghost order: seq<nat>)
    requires Ready(configs) && AreGroups(groups, Chosen(configs), own)
    ensures IsOrder(order, Keys(Chosen(configs), own))
    ensures prepared == PrepareAll(driver, uid, Flatten(Chosen(configs), own, order), edits, admin)
  {
    prepared := [];
    var remaining := groups.Keys;
    order := [];
    assert Flatten(Chosen(configs), own, order) == [];
    while remaining != {}
      invariant remaining <= groups.Keys
      invariant IsOrder(order, groups.Keys - remaining)
      invariant prepared == PrepareAll(driver, uid, Flatten(Chosen(configs), own, order), edits, admin)
      decreases |remaining|
    {
      var k :| k in remaining;
      prepared := AppendDevices(driver, uid, prepared, groups[k], Flatten(Chosen(configs), own, order), edits, admin);
      FlattenStep(Chosen(configs), own, order, k);
      OrderStep(order, groups.Keys, remaining, k);
      order := order + [k];
      remaining := remaining - {k};
    }
  }
}

/** The network profile. */
module Network {
  import opened Prelude
  import opened Text
  import opened ClaimNames
  import opened Claims
  import opened Configs
  import opened Paths
  import opened Cdi
  import opened Grouping
  import opened Devices
  import opened Computed

  // ---- the devices on offer ----

  datatype Slot = Slot(name: string, index: nat, kind: string)

  function SlotName(i: nat): string {
    "network-" + Decimal(i)
  }

  method EnumerateDevices(numDevices: int) returns (devices: seq<Slot>)
    ensures |devices| == if numDevices > 0 then numDevices else 0
    ensures forall i :: 0 <= i < |devices| ==> devices[i] == Slot(SlotName(i), i, "kubevirt-network-directory")
  {
    devices := [];
    var i := 0;
    while i < numDevices
      invariant 0 <= i && (numDevices > 0 ==> i <= numDevices) && (numDevices <= 0 ==> i == 0)
      invariant |devices| == i
      invariant forall k :: 0 <= k < i ==> devices[k] == Slot(SlotName(k), k, "kubevirt-network-directory")
    {
      devices := devices + [Slot("network-" + Decimal(i), i, "kubevirt-network-directory")];
      i := i + 1;
    }
  }

  lemma SlotNameInjective(i: nat, j: nat)
    requires SlotName(i) == SlotName(j)
    ensures i == j
  {
    assert Decimal(i) == SlotName(i)[8..] && Decimal(j) == SlotName(j)[8..];
    DecimalInjective(i, j);
  }

  lemma {:induction false} CollapseWord(word: string, rest: string, inRun: bool)
    requires word != "" && forall i :: 0 <= i < |word| ==> IsAlphanumericChar(word[i])
    ensures Collapse(word + rest, inRun) == word + Collapse(rest, false)
  {
    var whole := word + rest;
    assert whole[0] == word[0] && whole[1..] == word[1..] + rest;
    if |word| > 1 {
      CollapseWord(word[1..], rest, false);
    } else {
      assert whole[1..] == rest;
    }
  }

  lemma SlotEnvKey(i: nat)
    ensures EnvKey(SlotName(i)) == "NETWORK_" + Decimal(i)
  {
    var digits := Decimal(i);
    assert SlotName(i) == "network" + ("-" + digits);
    CollapseWord("network", "-" + digits, false);
    DashDigits(digits);
    UpperSlot(digits);
  }

  lemma UpperSlot(digits: string)
    requires forall i :: 0 <= i < |digits| ==> '0' <= digits[i] <= '9'
    ensures Upper("network" + ("_" + digits)) == "NETWORK_" + digits
  {
  }

  lemma DashDigits(digits: string)
    requires digits != "" && forall i :: 0 <= i < |digits| ==> '0' <= digits[i] <= '9'
    ensures Collapse("-" + digits, false) == "_" + digits
  {
    assert ("-" + digits)[1..] == digits;
    CollapseWord(digits, "", true);
    assert digits + "" == digits;
  }

  /** Distinct slots keep distinct environment keys after normalisation. */
  lemma SlotEnvKeyInjective(i: nat, j: nat)
    requires EnvKey(SlotName(i)) == EnvKey(SlotName(j))
    ensures i == j
  {
    SlotEnvKey(i);
    SlotEnvKey(j);
    assert ("NETWORK_" + Decimal(i))[8..] == Decimal(i) && ("NETWORK_" + Decimal(j))[8..] == Decimal(j);
    DecimalInjective(i, j);
  }

  // ---- the allocatable map ----

  function AllocatableOf(devices: seq<Slot>): map<string, Slot> {
    if devices == [] then map[]
    else
      var last := devices[|devices| - 1];
      AllocatableOf(devices[..|devices| - 1])[last.name := last]
  }

  method BuildAllocatable(devices: seq<Slot>) returns (allocatable: map<string, Slot>)
    ensures allocatable == AllocatableOf(devices)
  {
    allocatable := map[];
    for n := 0 to |devices|
      invariant allocatable == AllocatableOf(devices[..n])
    {
      assert devices[..n + 1][..n] == devices[..n];
      allocatable := allocatable[devices[n].name := devices[n]];
    }
    assert devices[..|devices|] == devices;
  }

  lemma {:induction false} AllocatableNames(devices: seq<Slot>)
    ensures forall name :: name in AllocatableOf(devices) <==> exists i :: 0 <= i < |devices| && devices[i].name == name
  {
    if devices != [] {
      AllocatableNames(devices[..|devices| - 1]);
    }
  }

  /** The map holds the last device of each name. */
  lemma {:induction false} AllocatableHolds(devices: seq<Slot>, i: nat)
    requires i < |devices| && forall j :: i < j < |devices| ==> devices[j].name != devices[i].name
    ensures devices[i].name in AllocatableOf(devices) && AllocatableOf(devices)[devices[i].name] == devices[i]
  {
    var n := |devices| - 1;
    if i < n {
      AllocatableHolds(devices[..n], i);
    }
  }

  lemma {:induction false} AllocatableCount(devices: seq<Slot>)
    requires forall i, j :: 0 <= i < j < |devices| ==> devices[i].name != devices[j].name
    ensures |AllocatableOf(devices)| == |devices|
  {
    if devices != [] {
      AllocatableCount(devices[..|devices| - 1]);
      AllocatableNames(devices[..|devices| - 1]);
    }
  }

  /** The driver offers exactly max(0, numDevices) allocatable devices, under the slot names. */
  method OfferSlots(numDevices: int) returns (allocatable: map<string, Slot>)
    ensures |allocatable| == if numDevices > 0 then numDevices else 0
    ensures forall i: nat :: SlotName(i) in allocatable <==> i < numDevices
    ensures forall i: nat :: i < numDevices ==>
              allocatable[SlotName(i)]
                  == Slot(name := "network-" + Decimal(i), index := i, kind := "kubevirt-network-directory")
  {
    var devices := EnumerateDevices(numDevices);
    forall i, j | 0 <= i < j < |devices| ensures devices[i].name != devices[j].name {
      if SlotName(i) == SlotName(j) {
        SlotNameInjective(i, j);
      }
    }
    allocatable := BuildAllocatable(devices);
    AllocatableCount(devices);
    AllocatableNames(devices);
    assert forall i :: 0 <= i < |devices| ==> devices[i].name in allocatable;
    forall i: nat | SlotName(i) in allocatable ensures i < numDevices {
      var j :| 0 <= j < |devices| && devices[j].name == SlotName(i);
      SlotNameInjective(i, j);
    }
    forall i: nat | i < numDevices ensures allocatable[SlotName(i)] == devices[i] {
      AllocatableHolds(devices, i);
    }
  }

  // ---- the profile's copy of the claim-name parser ----

  method FindPodHash(parts: seq<string>) returns (podHashIdx: int)
    ensures podHashIdx == PodHashIndex(parts, 0)
  {
    podHashIdx := -1;
    var i := 0;
    while i < |parts|
      invariant i <= |parts| && podHashIdx == -1
      invariant PodHashIndex(parts, 0) == PodHashIndex(parts, i)
    {
      var alphanumeric := CheckAlphanumeric(parts[i]);
      if |parts[i]| == 5 && alphanumeric && i + 1 < |parts| {
        podHashIdx := i;
        break;
      }
      i := i + 1;
    }
  }

  method ExtractStableClaimName(fullClaimName: string) returns (stable: string)
    ensures stable == StableName(fullClaimName)
  {
    if !(PREFIX <= fullClaimName) {
      return fullClaimName;
    }
    var withoutPrefix := fullClaimName[|PREFIX|..];
    var parts := Split(withoutPrefix, '-');
    if |parts| < 4 {
      return fullClaimName;
    }
    var withoutClaimHash := parts[..|parts| - 1];
    var podHashIdx := FindPodHash(withoutClaimHash);
    if podHashIdx == -1 {
      return fullClaimName;
    }
    var vmiNameParts, templateNameParts := withoutClaimHash[..podHashIdx], withoutClaimHash[podHashIdx + 1..];
    return Join(vmiNameParts, '-') + "-" + Join(templateNameParts, '-');
  }

  // ---- container edits ----

  function EditsFor(claimName: string, r: AllocResult): ContainerEdits {
    var dir := Render(DirPath(claimName, r.request));
    ContainerEdits(
      ["KUBEVIRT_NETWORK_DEVICE=" + r.device, "KUBEVIRT_NETWORK_PATH=" + dir, "KUBEVIRT_NETWORK_REQUEST=" + r.request],
      [Mount(dir, dir, ["rbind", "z"])])
  }

  /** Later results override earlier ones with the same device name. */
  function EditsOf(claimName: string, results: seq<AllocResult>): map<string, ContainerEdits> {
    if results == [] then map[]
    else
      var last := results[|results| - 1];
      EditsOf(claimName, results[..|results| - 1])[last.device := EditsFor(claimName, last)]
  }

  method ApplyConfig(claimName: string, config: Option<string>, results: seq<AllocResult>)
      returns (edits: Option<map<string, ContainerEdits>>)
    ensures edits == Some(EditsOf(claimName, results))
  {
    var perDeviceEdits: map<string, ContainerEdits> := map[];
    var stableClaimName := ExtractStableClaimName(claimName);
    for i := 0 to |results|
      invariant perDeviceEdits == EditsOf(claimName, results[..i])
    {
      var result := results[i];
      assert results[..i + 1][..i] == results[..i];
      var claimDir := Render(Under(stableClaimName, result.request));
      var containerEdits := ContainerEdits(
        ["KUBEVIRT_NETWORK_DEVICE=" + result.device, "KUBEVIRT_NETWORK_PATH=" + claimDir,
            "KUBEVIRT_NETWORK_REQUEST=" + result.request],
        [Mount(claimDir, claimDir, ["rbind", "z"])]);
      perDeviceEdits := perDeviceEdits[result.device := containerEdits];
    }
    assert results[..|results|] == results;
    return Some(perDeviceEdits);
  }

  /** A driver with this profile: no configuration decodes, because the profile registers no
      configuration type, and edits come from `EditsOf`. */
  ghost predicate IsNetwork(driver: Driver) {
    && (forall raw :: driver.decode(raw).None?)
    && (forall name: string, config: Option<string>, results: seq<AllocResult> ::
          driver.apply(name, config, results) == Some(EditsOf(name, results)))
  }

  /** `r` has this device name and the map holds its edits. */
  ghost predicate Gives(claimName: string, results: seq<AllocResult>, device: string, r: AllocResult) {
    && r in results && r.device == device
    && device in EditsOf(claimName, results) && EditsOf(claimName, results)[device] == EditsFor(claimName, r)
  }

  lemma GivesStep(claimName: string, results: seq<AllocResult>, device: string, r: AllocResult)
    requires results != [] && results[|results| - 1].device != device
    requires Gives(claimName, results[..|results| - 1], device, r)
    ensures Gives(claimName, results, device, r)
  {
  }

  lemma {:induction false} EditsAt(claimName: string, results: seq<AllocResult>, device: string)
    ensures device in EditsOf(claimName, results) ==> exists r :: Gives(claimName, results, device, r)
  {
    if results != [] {
      var front, last := results[..|results| - 1], results[|results| - 1];
      if last.device == device {
        assert Gives(claimName, results, device, last);
      } else if device in EditsOf(claimName, results) {
        EditsAt(claimName, front, device);
        var r :| Gives(claimName, front, device, r);
        GivesStep(claimName, results, device, r);
      }
    }
  }

  lemma {:induction false} EditsCover(claimName: string, results: seq<AllocResult>, r: AllocResult)
    requires r in results
    ensures r.device in EditsOf(claimName, results)
  {
    var front, last := results[..|results| - 1], results[|results| - 1];
    assert results == front + [last];
    if r != last {
      EditsCover(claimName, front, r);
    }
  }

  /** The edits of a device name are those of the last result with it. */
  lemma {:induction false} LastResultWins(claimName: string, results: seq<AllocResult>, i: nat)
    requires i < |results| && forall j :: i < j < |results| ==> results[j].device != results[i].device
    ensures results[i].device in EditsOf(claimName, results)
    ensures EditsOf(claimName, results)[results[i].device] == EditsFor(claimName, results[i])
  {
    if i < |results| - 1 {
      LastResultWins(claimName, results[..|results| - 1], i);
    }
  }

  lemma NetworkIsLocal(driver: Driver)
    requires IsNetwork(driver)
    ensures EditsAreLocal(driver)
  {
    forall name: string, config: Option<string>, results: seq<AllocResult>, device: string
      | device in driver.apply(name, config, results).value
      ensures exists r: AllocResult :: r in results && r.device == device
    {
      EditsAt(name, results, device);
      var r :| Gives(name, results, device, r);
    }
  }

  /** Without decodable configurations there is one group, so the iteration order cannot
      matter, even when device names repeat. */
  lemma NetworkEditsAgree(driver: Driver, claim: Claim)
    requires IsNetwork(driver) && Computable(driver, claim)
    ensures ClaimConfigs(driver, claim) == [DEFAULT]
    ensures EditsAgree(driver, claim) && OwnEditsAgree(driver, claim)
  {
    var configs := claim.allocation.value.configs;
    ComputeSucceedsIff(driver, claim, [], []);
    NothingDecodes(driver, OfSource(configs, FromClass) + OfSource(configs, FromClaim));
    assert [DEFAULT] + Collect(driver, configs).value == [DEFAULT];
    OneGroupAgrees(driver, claim);
    CompatibleOwn(driver, claim);
  }

  lemma {:induction false} NothingDecodes(driver: Driver, candidates: seq<DeviceConfig>)
    requires IsNetwork(driver) && DecodeAll(driver, candidates).Ok?
    ensures DecodeAll(driver, candidates).value == []
  {
    if candidates != [] {
      NothingDecodes(driver, candidates[..|candidates| - 1]);
    }
  }

  lemma OneGroupAgrees(driver: Driver, claim: Claim)
    requires ClaimConfigs(driver, claim) == [DEFAULT]
    ensures EditsAgree(driver, claim)
  {
    forall k | k in ClaimParts(driver, claim) ensures k == 0 {
      assert k in Keys(Chosen([DEFAULT]), Own(driver, claim));
    }
  }
}

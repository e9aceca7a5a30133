/** The values the driver works on: resource claims, prepared devices and the driver's own
    configuration. */
module Claims {
  import opened Prelude

  type UID = string

  /** One allocated device. `driver` says whose device it is. */
  datatype AllocResult = AllocResult(driver: string, request: string, pool: string, device: string, adminAccess: bool)

  datatype Source = FromClass | FromClaim | Unknown

  datatype Payload = Payload(driver: string, raw: string)

  /** A configuration of the allocation. `payload` is absent for kinds of configuration the
      driver does not know. */
  datatype DeviceConfig = DeviceConfig(source: Source, requests: seq<string>, payload: Option<Payload>)

  datatype Allocation = Allocation(results: seq<AllocResult>, configs: seq<DeviceConfig>)

  datatype Claim = Claim(uid: UID, name: string, allocation: Option<Allocation>)

  datatype Mount = Mount(hostPath: string, containerPath: string, options: seq<string>)

  datatype ContainerEdits = ContainerEdits(env: seq<string>, mounts: seq<Mount>)

  /** What the kubelet is told about a device. */
  datatype Device = Device(requestNames: seq<string>, pool: string, name: string, cdiIds: seq<string>)

  datatype PreparedDevice = PreparedDevice(device: Device, edits: Option<ContainerEdits>, adminAccess: bool)

  datatype Error =
    | NotAllocated
    | InvalidSource
    | NotOpaque
    | Undecodable
    | NotAllocatable(device: string)
    | ConfigRejected

  /** The driver and its profile. `decode` reads a configuration; `apply` is the profile's
      ApplyConfig, which gives container edits by device name or rejects the configuration
      (`None` as the configuration asks for the profile's default). */
  datatype Driver = Driver(
    name: string,
    profile: string,
    allocatable: set<string>,
    decode: string -> Option<string>,
    apply: (string, Option<string>, seq<AllocResult>) -> Option<map<string, ContainerEdits>>)

  /** The results allocated to this driver, in allocation order. */
  function OwnResults(driver: string, results: seq<AllocResult>): (own: seq<AllocResult>)
    ensures forall r :: r in own <==> r in results && r.driver == driver
  {
    if results == [] then []
    else
      var last := results[|results| - 1];
      OwnResults(driver, results[..|results| - 1]) + (if last.driver == driver then [last] else [])
  }

  /** `at` is the positions of the driver's own results, in order. */
  ghost predicate AreOwnPositions(driver: string, results: seq<AllocResult>, at: seq<nat>) {
    && (forall k :: 0 <= k < |at| ==> at[k] < |results|)
    && (forall k, l :: 0 <= k < l < |at| ==> at[k] < at[l])
    && (forall i :: i in at <==> 0 <= i < |results| && results[i].driver == driver)
  }

  lemma OneMorePosition(driver: string, results: seq<AllocResult>, before: seq<nat>)
    requires results != [] && AreOwnPositions(driver, results[..|results| - 1], before)
    ensures var n := |results| - 1;
            AreOwnPositions(driver, results, if results[n].driver == driver then before + [n] else before)
  {
    var n := |results| - 1;
    assert forall i :: 0 <= i < n ==> results[..n][i] == results[i];
    forall i ensures i in before + [n] <==> i in before || i == n {
    }
  }

  /** `list` is the results at these positions. */
  ghost predicate AreAt(list: seq<AllocResult>, results: seq<AllocResult>, at: seq<nat>) {
    |list| == |at| && forall k :: 0 <= k < |at| ==> at[k] < |results| && list[k] == results[at[k]]
  }

  lemma OneMoreAt(list: seq<AllocResult>, results: seq<AllocResult>, at: seq<nat>)
    requires results != [] && AreAt(list, results[..|results| - 1], at)
    ensures AreAt(list, results, at) && AreAt(list + [results[|results| - 1]], results, at + [|results| - 1])
  {
    var front := results[..|results| - 1];
    assert forall k :: 0 <= k < |at| ==> front[at[k]] == results[at[k]];
  }

  /** The own results are those at exactly these positions, each once and in allocation order. */
  lemma {:induction false} OwnInOrder(driver: string, results: seq<AllocResult>) returns (at: seq<nat>)
    ensures AreOwnPositions(driver, results, at) && AreAt(OwnResults(driver, results), results, at)
  {
    if results == [] {
      at := [];
    } else {
      var n := |results| - 1;
      var before := OwnInOrder(driver, results[..n]);
      OneMorePosition(driver, results, before);
      OneMoreAt(OwnResults(driver, results[..n]), results, before);
      at := if results[n].driver == driver then before + [n] else before;
    }
  }

  function ClaimResults(claim: Claim): seq<AllocResult> {
    if claim.allocation.Some? then claim.allocation.value.results else []
  }

  function Own(driver: Driver, claim: Claim): seq<AllocResult> {
    OwnResults(driver.name, ClaimResults(claim))
  }

  ghost predicate DistinctDevices(results: seq<AllocResult>) {
    forall i, j :: 0 <= i < j < |results| ==> results[i].device != results[j].device
  }

  /** `PreparedDevices.GetDevices`. */
  function GetDevices(prepared: seq<PreparedDevice>): (devices: seq<Device>)
    ensures |devices| == |prepared|
    ensures forall i :: 0 <= i < |prepared| ==> devices[i] == prepared[i].device
  {
    seq(|prepared|, i requires 0 <= i < |prepared| => prepared[i].device)
  }
}

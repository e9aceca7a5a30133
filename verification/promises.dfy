/** What users of the driver see, with constants, names and fields written out. */
module Promises {
  import opened Prelude
  import opened Text
  import opened ClaimNames
  import opened Claims
  import opened Configs
  import opened Paths
  import opened Cdi
  import opened Grouping
  import opened Devices
  import opened Computed
  import opened Network
  import opened Disk
  import opened Lifecycle
  import opened Ledger
  import opened Directories
  import opened Effects
  import opened Restoring
  import opened Delivery
  import opened Batches

  // ---- claim names ----

  /** Exactly five letters or digits. */
  predicate IsFive(text: string) {
    |text| == 5 && forall i :: 0 <= i < 5 ==> ('a' <= text[i] <= 'z' || 'A' <= text[i] <= 'Z' || '0' <= text[i] <= '9')
  }

  /** The claim that KubeVirt makes for a pod of a machine. */
  function ClaimOf(vmi: string, pod: string, template: string, claimHash: string): string {
    "virt-launcher-" + vmi + "-" + pod + "-" + template + "-" + claimHash
  }

  lemma ClaimOfIs(vmi: string, pod: string, template: string, claimHash: string)
    ensures ClaimOf(vmi, pod, template, claimHash) == KubeVirtName(vmi, pod, template, claimHash)
  {
  }

  ghost predicate KeepsName(vmi: string, template: string) {
    forall pod, claimHash | IsFive(pod) && '-' !in claimHash ::
      StableName(ClaimOf(vmi, pod, template, claimHash)) == vmi + "-" + template
  }

  lemma FiveIsHash(text: string)
    ensures IsFive(text) <==> IsHash(text)
  {
  }

  /** Every pod hash of exactly five letters or digits and every dash-free claim hash give
      `<vmi>-<template>` if and only if no segment of the machine name is itself exactly five
      letters or digits. */
  lemma KeepsNameIff(vmi: string, template: string)
    ensures KeepsName(vmi, template) <==> !exists k :: 0 <= k < |Split(vmi, '-')| && IsFive(Split(vmi, '-')[k])
  {
    if forall k :: 0 <= k < |Split(vmi, '-')| ==> !IsFive(Split(vmi, '-')[k]) {
      NoFiveKeepsName(vmi, template);
    } else {
      var k :| 0 <= k < |Split(vmi, '-')| && IsFive(Split(vmi, '-')[k]);
      FiveIsHash(Split(vmi, '-')[k]);
      FiveDrifts(vmi, template);
    }
  }

  lemma NoFiveKeepsName(vmi: string, template: string)
    requires forall k :: 0 <= k < |Split(vmi, '-')| ==> !IsFive(Split(vmi, '-')[k])
    ensures KeepsName(vmi, template)
  {
    forall k | 0 <= k < |Split(vmi, '-')| ensures !IsHash(Split(vmi, '-')[k]) {
      FiveIsHash(Split(vmi, '-')[k]);
    }
    forall pod, claimHash | IsFive(pod) && '-' !in claimHash
      ensures StableName(ClaimOf(vmi, pod, template, claimHash)) == vmi + "-" + template
    {
      FiveIsHash(pod);
      ClaimOfIs(vmi, pod, template, claimHash);
      StableWithoutHashSegment(vmi, pod, template, claimHash);
    }
  }

  lemma KeptOverPods(vmi: string, template: string, pod: string, pod': string)
    requires KeepsName(vmi, template) && IsFive(pod) && IsFive(pod')
    ensures StableName(ClaimOf(vmi, pod, template, "")) == StableName(ClaimOf(vmi, pod', template, ""))
  {
    assert '-' !in "";
  }

  lemma FiveDrifts(vmi: string, template: string)
    requires !NoHashSegment(vmi)
    ensures !KeepsName(vmi, template)
  {
    DriftsWithHashSegment(vmi, "aaaaa", "bbbbb", template, "", "");
    ClaimOfIs(vmi, "aaaaa", template, "");
    ClaimOfIs(vmi, "bbbbb", template, "");
    if KeepsName(vmi, template) {
      KeptOverPods(vmi, template, "aaaaa", "bbbbb");
    }
  }

  /** A name without the prefix, or with fewer than four segments behind it, stays as it is. */
  lemma OtherNamesStay(name: string)
    requires !("virt-launcher-" <= name) || |Split(name[14..], '-')| < 4
    ensures StableName(name) == name
  {
  }

  // ---- what the kubelet is told about a device ----

  function CommonId(driver: Driver): string {
    "k8s." + driver.name + "/" + driver.profile + "=common"
  }

  function ClaimId(driver: Driver, uid: UID, device: string): string {
    "k8s." + driver.name + "/" + driver.profile + "=" + uid + "-" + device
  }

  function Told(driver: Driver, uid: UID, r: AllocResult): Device {
    Device(requestNames := [r.request], pool := r.pool, name := r.device,
           cdiIds := [CommonId(driver), ClaimId(driver, uid, r.device)])
  }

  function AllTold(driver: Driver, uid: UID, results: seq<AllocResult>): (told: seq<Device>)
    ensures |told| == |results|
  {
    seq(|results|, i requires 0 <= i < |results| => Told(driver, uid, results[i]))
  }

  lemma ToldIs(driver: Driver, uid: UID, r: AllocResult)
    ensures DeviceOf(driver, uid, r) == Told(driver, uid, r)
  {
    assert QualifiedName(driver, COMMON) == CommonId(driver);
    assert QualifiedName(driver, DeviceName(uid, r.device)) == ClaimId(driver, uid, r.device);
    assert DeviceOf(driver, uid, r).cdiIds == [CommonId(driver), ClaimId(driver, uid, r.device)];
  }

  lemma AllToldIs(driver: Driver, uid: UID, results: seq<AllocResult>)
    ensures DevicesFor(driver, uid, results) == AllTold(driver, uid, results)
  {
    forall i | 0 <= i < |results| ensures DevicesFor(driver, uid, results)[i] == AllTold(driver, uid, results)[i] {
      ToldIs(driver, uid, results[i]);
    }
  }

  /** A Prepare that succeeds tells the kubelet of each own result, as often as it was allocated: its
      request, pool and name, and the common and its own CDI identifier. */
  lemma PrepareTells(driver: Driver, a: Attempt, file: File)
    requires IsLegit(driver, a) && a.call.Prepare? && OutcomeOf(driver, a, file).Returned?
    ensures multiset(OutcomeOf(driver, a, file).devices)
         == multiset(AllTold(driver, a.call.claim.uid, Own(driver, a.call.claim)))
  {
    SuccessfulPreparesAgree(driver, a, file);
    AllToldIs(driver, a.call.claim.uid, Own(driver, a.call.claim));
  }

  lemma ComputeTells(driver: Driver, claim: Claim, first: seq<nat>, second: seq<nat>)
    requires IsClaimOrder(driver, claim, second) && Compute(driver, claim, first, second).Ok?
    ensures multiset(GetDevices(Compute(driver, claim, first, second).value))
         == multiset(AllTold(driver, claim.uid, Own(driver, claim)))
  {
    DevicesConserved(driver, claim, first, second);
    AllToldIs(driver, claim.uid, Own(driver, claim));
  }

  /** With distinct device names, each own result is prepared with the edits that the profile gives
      its device under the winning configuration, and with admin access if any result has it. */
  lemma PreparesWinner(driver: Driver, claim: Claim, first: seq<nat>, second: seq<nat>, r: AllocResult)
      returns (p: PreparedDevice)
    requires IsClaimOrder(driver, claim, first) && IsClaimOrder(driver, claim, second)
    requires Compute(driver, claim, first, second).Ok?
    requires EditsAreLocal(driver) && DistinctDevices(Own(driver, claim)) && r in Own(driver, claim)
    ensures p in Compute(driver, claim, first, second).value && p.device == Told(driver, claim.uid, r)
    ensures p.adminAccess <==> exists other :: other in ClaimResults(claim) && other.adminAccess
    ensures var applied := driver.apply(claim.name, Winner(driver, claim.allocation.value.configs, r.request),
        GroupOf(driver, claim, r));
            && applied.Some?
            && (p.edits.Some? <==> r.device in applied.value)
            && (p.edits.Some? ==> p.edits.value == applied.value[r.device])
  {
    WinnerIsApplied(driver, claim, first, second, r);
    var applied := driver.apply(claim.name, Winner(driver, claim.allocation.value.configs, r.request),
        GroupOf(driver, claim, r));
    p := PreparedOf(driver, claim.uid, r, applied.value, HasAdminAccess(ClaimResults(claim)));
    ToldIs(driver, claim.uid, r);
  }

  // ---- what a container gets ----

  lemma KindIs(driver: Driver)
    ensures Kind(driver) == "k8s." + driver.name + "/" + driver.profile
  {
  }

  /** The environment of a prepared device: which claim it belongs to, and admin access. */
  lemma DeviceEnv(driver: Driver, uid: UID, p: PreparedDevice)
    ensures SpecDevice(driver, uid, p).name == uid + "-" + p.device.name
    ensures SpecDevice(driver, uid, p).env ==
              [Upper(driver.profile) + "_DEVICE_" + EnvKey(p.device.name) + "_RESOURCE_CLAIM=" + uid,
               if p.adminAccess then "DRA_ADMIN_ACCESS=true" else "DRA_ADMIN_ACCESS=false"]
              + (if p.edits.Some? then p.edits.value.env else [])
    ensures SpecDevice(driver, uid, p).mounts == if p.edits.Some? then p.edits.value.mounts else []
  {
    assert "DRA_ADMIN_ACCESS=" + "true" == "DRA_ADMIN_ACCESS=true"
        && "DRA_ADMIN_ACCESS=" + "false" == "DRA_ADMIN_ACCESS=false";
  }

  /** A name without doubled dashes, such as Kubernetes device names, becomes an environment key
      character by character: dashes to underscores, letters to upper case. */
  lemma EnvKeyOfPlain(name: string)
    requires IsPlain(name) && forall i :: 0 < i < |name| ==> name[i - 1] != '-' || name[i] != '-'
    ensures |EnvKey(name)| == |name|
    ensures forall i :: 0 <= i < |name| ==>
              if name[i] == '-' then EnvKey(name)[i] == '_'
              else if 'a' <= name[i] <= 'z' then EnvKey(name)[i] as int == name[i] as int - 'a' as int + 'A' as int
              else EnvKey(name)[i] == name[i]
  {
    CollapseIsSqueeze(name, false);
    NothingSqueezed(name, false);
  }

  lemma {:induction false} NothingSqueezed(name: string, inRun: bool)
    requires forall i :: 0 < i < |name| ==> name[i - 1] != '-' || name[i] != '-'
    requires inRun ==> name == "" || name[0] != '-'
    ensures Squeeze(name, inRun) == name
  {
    if name != "" {
      forall i | 0 < i < |name| - 1 ensures name[1..][i - 1] != '-' || name[1..][i] != '-' {
        assert name[i] != '-' || name[i + 1] != '-';
      }
      assert |name| > 1 ==> name[0] != '-' || name[1] != '-';
      NothingSqueezed(name[1..], name[0] == '-');
    }
  }

  /** The directory of a claim and a request, for names without slashes. */
  lemma HostPathSpelledOut(claimName: string, request: string)
    requires claimName != "" && request != "" && '/' !in claimName && '/' !in request
    ensures Render(DirPath(claimName, request)) == "/var/run/kubevirt/cdi/" + StableName(claimName) + "/" + request
  {
    SplitOfFree(request, '/');
    SegmentsOf(claimName, request);
    assert DirPath(claimName, request)[1..] == [request];
    assert Join(DirPath(claimName, request), '/') == StableName(claimName) + "/" + request;
    assert "/var/run/kubevirt/cdi" + "/" == "/var/run/kubevirt/cdi/";
  }

  /** The device that a container gets from the network profile. */
  ghost predicate Gets(driver: Driver, claim: Claim, r: AllocResult, d: CdiDevice) {
    var host := "/var/run/kubevirt/cdi/" + StableName(claim.name) + "/" + r.request;
    && d.name == claim.uid + "-" + r.device
    && d.mounts == [Mount(hostPath := host, containerPath := host, options := ["rbind", "z"])]
    && |d.env| == 5
    && d.env[0] == Upper(driver.profile) + "_DEVICE_" + EnvKey(r.device) + "_RESOURCE_CLAIM=" + claim.uid
    && (d.env[1] == "DRA_ADMIN_ACCESS=true" <==> exists other :: other in ClaimResults(claim) && other.adminAccess)
    && (d.env[1] == "DRA_ADMIN_ACCESS=true" || d.env[1] == "DRA_ADMIN_ACCESS=false")
    && d.env[2] == "KUBEVIRT_NETWORK_DEVICE=" + r.device
    && d.env[3] == "KUBEVIRT_NETWORK_PATH=" + host
    && d.env[4] == "KUBEVIRT_NETWORK_REQUEST=" + r.request
  }

  lemma EditsSpelledOut(claimName: string, r: AllocResult)
    requires claimName != "" && r.request != "" && '/' !in claimName && '/' !in r.request
    ensures var host := "/var/run/kubevirt/cdi/" + StableName(claimName) + "/" + r.request;
            && EditsFor(claimName, r).env == ["KUBEVIRT_NETWORK_DEVICE=" + r.device, "KUBEVIRT_NETWORK_PATH=" + host,
                                              "KUBEVIRT_NETWORK_REQUEST=" + r.request]
            && EditsFor(claimName, r).mounts
                 == [Mount(hostPath := host, containerPath := host, options := ["rbind", "z"])]
  {
    HostPathSpelledOut(claimName, r.request);
  }

  lemma AdminEnv(admin: bool)
    ensures (if admin then "DRA_ADMIN_ACCESS=true" else "DRA_ADMIN_ACCESS=false") == "DRA_ADMIN_ACCESS=true" <==> admin
  {
    assert "DRA_ADMIN_ACCESS=true"[17] != "DRA_ADMIN_ACCESS=false"[17];
  }

  lemma NetworkDevice(driver: Driver, claim: Claim, r: AllocResult, admin: bool)
    requires claim.name != "" && r.request != "" && '/' !in claim.name && '/' !in r.request
    requires admin <==> HasAdminAccess(ClaimResults(claim))
    ensures Gets(driver, claim, r,
              SpecDevice(driver, claim.uid,
                  PreparedDevice(DeviceOf(driver, claim.uid, r), Some(EditsFor(claim.name, r)), admin)))
  {
    DeviceEnv(driver, claim.uid, PreparedDevice(DeviceOf(driver, claim.uid, r), Some(EditsFor(claim.name, r)), admin));
    EditsSpelledOut(claim.name, r);
    AdminEnv(admin);
  }

  /** Each own result of a claim with distinct device names has such a device in every specification
      that the claim can be given. */
  lemma ContainerGets(driver: Driver, claim: Claim, spec: Spec, r: AllocResult) returns (d: CdiDevice)
    requires IsNetwork(driver) && IsSpecOf(driver, claim, spec)
    requires DistinctDevices(Own(driver, claim)) && r in Own(driver, claim)
    requires claim.name != "" && r.request != "" && '/' !in claim.name && '/' !in r.request
    ensures d in spec.devices && Gets(driver, claim, r, d)
  {
    var first, second :| IsClaimOrder(driver, claim, first) && IsClaimOrder(driver, claim, second)
      && Compute(driver, claim, first, second).Ok?
      && spec == ClaimSpec(driver, claim.uid, Compute(driver, claim, first, second).value);
    NetworkPrepared(driver, claim, first, second, r);
    var admin := HasAdminAccess(ClaimResults(claim));
    var p := PreparedDevice(DeviceOf(driver, claim.uid, r), Some(EditsFor(claim.name, r)), admin);
    NamedInSpec(driver, claim.uid, Compute(driver, claim, first, second).value, p);
    NetworkDevice(driver, claim, r, admin);
    d := SpecDevice(driver, claim.uid, p);
  }

  /** A claim's specification has one device for each own result and no other. */
  lemma SpecCounts(driver: Driver, claim: Claim, spec: Spec)
    requires IsSpecOf(driver, claim, spec)
    ensures |spec.devices| == |Own(driver, claim)|
  {
    var second, edits, admin := SpecIs(driver, claim, spec);
    OrderCoversOwn(driver, claim, second);
    SameLength(Listed(driver, claim, second), Own(driver, claim));
  }

  // ---- specifications on disk ----

  ghost predicate AllOfKind(driver: Driver, specs: map<UID, Spec>) {
    forall uid :: uid in specs ==> specs[uid].kind == "k8s." + driver.name + "/" + driver.profile
  }

  lemma NextOfKind(driver: Driver, a: Attempt, s: Store)
    requires AllOfKind(driver, s.specs)
    ensures AllOfKind(driver, Perform(driver, a, s).specs)
  {
    if a.call.Prepare? {
      if Completes(driver, a, s.file) {
        var spec := PrepareWritesSpec(driver, a, s);
        KindIs(driver);
      } else {
        PrepareKeepsSpecs(driver, a, s);
      }
    } else if Readable(s.file, a.readOk).Some? {
      UnprepareEffect(driver, a, s);
    } else {
      UnreadableUnprepareForgetsAll(driver, a, s);
    }
  }

  /** Every specification on disk in a run has the kind that the identifiers name. */
  lemma {:induction false} SpecsAreOfKind(driver: Driver, log: seq<Attempt>, s: Store)
    requires AllOfKind(driver, s.specs)
    ensures AllOfKind(driver, Serial(driver, log, s).specs)
  {
    if log != [] {
      SpecsAreOfKind(driver, log[..|log| - 1], s);
      NextOfKind(driver, log[|log| - 1], Serial(driver, log[..|log| - 1], s));
    }
  }

  // ---- what the checkpoint records ----

  /** An entry has the claim's identifier and name, every device of the allocation in order, and for
      each device name the request of the last result with it. */
  lemma EntrySpelledOut(claim: Claim, i: nat)
    requires i < |ClaimResults(claim)|
    ensures EntryOf(claim).uid == claim.uid && EntryOf(claim).name == claim.name
    ensures |EntryOf(claim).devices| == |ClaimResults(claim)|
        && EntryOf(claim).devices[i] == ClaimResults(claim)[i].device
    ensures IsLastNamed(ClaimResults(claim), i) ==>
              && ClaimResults(claim)[i].device in EntryOf(claim).deviceRequests
              && EntryOf(claim).deviceRequests[ClaimResults(claim)[i].device] == ClaimResults(claim)[i].request
  {
    if IsLastNamed(ClaimResults(claim), i) {
      RecordedRequest(ClaimResults(claim), i);
    }
  }

  /** A recorded device without a request would make Unprepare remove the whole directory of the
      stable claim name, with the directories of all its requests. */
  lemma UnnamedPath(entry: Entry, i: nat)
    requires i < |entry.devices| && entry.devices[i] !in entry.deviceRequests
    requires entry.name != "" && '/' !in entry.name
    ensures RecordedPaths(entry)[i] == [StableName(entry.name)]
    ensures forall request: string :: RecordedPaths(entry)[i] <= DirPath(entry.name, request)
  {
    StableNameChars(entry.name, '/');
    StableNameNotEmpty(entry.name);
    SplitOfFree(StableName(entry.name), '/');
    NothingEmpty([StableName(entry.name)]);
    assert NonEmpty(Split("", '/')) == [];
  }

  /** Entries that Prepare records never do that. */
  lemma EntriesNameRequests(claim: Claim, device: string)
    ensures device in EntryOf(claim).devices <==> device in EntryOf(claim).deviceRequests
  {
    RequestsKeepLast(ClaimResults(claim), device);
  }

  // ---- errors ----

  /** Which error is found first: the allocation is missing; a configuration has an unknown source; a
      candidate is bad; a device is not on offer; the profile rejects a configuration. */
  lemma ErrorSpelledOut(driver: Driver, claim: Claim, first: seq<nat>, second: seq<nat>)
    ensures var computed, configs := Compute(driver, claim, first, second), ClaimConfigsOf(claim);
            && (computed == Err(NotAllocated) <==> claim.allocation.None?)
            && (computed == Err(InvalidSource) <==> exists c :: c in configs && c.source == Unknown)
            && ((computed == Err(NotOpaque) || computed == Err(Undecodable)) <==>
                  && (forall c :: c in configs ==> c.source != Unknown)
                  && exists c :: c in configs && !Good(driver, c))
            && (computed.Err? && computed.error.NotAllocatable? <==>
                  && claim.allocation.Some? && (forall c :: c in configs ==> c.source != Unknown && Good(driver, c))
                  && exists r :: r in Own(driver, claim) && r.device !in driver.allocatable)
  {
    if claim.allocation.Some? {
      CollectSucceedsIff(driver, ClaimConfigsOf(claim));
      CollectRejectsUnknown(driver, ClaimConfigsOf(claim));
      CollectErrors(driver, ClaimConfigsOf(claim));
      UnallocatableIff(driver, claim.allocation.value.results);
    }
  }

  function ClaimConfigsOf(claim: Claim): seq<DeviceConfig> {
    if claim.allocation.Some? then claim.allocation.value.configs else []
  }

  lemma CollectErrors(driver: Driver, configs: seq<DeviceConfig>)
    ensures var collected := Collect(driver, configs);
            collected.Err? ==> collected.error in {InvalidSource, NotOpaque, Undecodable}
  {
    DecodeError(driver, OfSource(configs, FromClass) + OfSource(configs, FromClaim));
  }

  // ---- replies to the kubelet ----

  /** The reply to an identifier of a batch is a success exactly when its last call returned, with
      the devices that the call returned; after an error or a death it is a failure. */
  lemma ReplySpelledOut(driver: Driver, claims: seq<Claim>, env: seq<Environment>, log: seq<Attempt>, s0: Store,
      s: Store, result: map<UID, Reply>, died: bool, i: nat)
    requires PrepareCalls(driver, claims, env, log) && |log| == |claims|
    requires Handled(driver, log, s0, s, result, died)
    requires i < |claims| && forall j :: i < j < |claims| ==> claims[j].uid != claims[i].uid
    ensures claims[i].uid in result
    ensures match Outcomes(driver, log, s0.file)[i]
            case Returned(devices) => result[claims[i].uid] == Success(devices)
            case Errored => result[claims[i].uid] == Failure
            case Died => result[claims[i].uid] == Failure
  {
    BatchReplyIsLast(driver, claims, env, log, Outcomes(driver, log, s0.file), i);
  }

  /** The same of a batch of Unprepares. */
  lemma UnprepareReplySpelledOut(driver: Driver, uids: seq<UID>, env: seq<Environment>, log: seq<Attempt>, s0: Store,
      s: Store, result: map<UID, Reply>, died: bool, i: nat)
    requires UnprepareCalls(uids, env, log) && |log| == |uids|
    requires Handled(driver, log, s0, s, result, died)
    requires i < |uids| && forall j :: i < j < |uids| ==> uids[j] != uids[i]
    ensures uids[i] in result
    ensures match Outcomes(driver, log, s0.file)[i]
            case Returned(devices) => result[uids[i]] == Success(devices)
            case Errored => result[uids[i]] == Failure
            case Died => result[uids[i]] == Failure
  {
    forall j | i <= j < |log| ensures Subject(log[j].call) == uids[j] {
      assert IsUnprepareCall(uids[j], env[j], log[j]);
    }
    ReplyIsLast(log, Outcomes(driver, log, s0.file), i);
  }

  /** A success of a Prepare carries the devices of the claim's own results. */
  lemma SuccessTells(driver: Driver, claims: seq<Claim>, env: seq<Environment>, log: seq<Attempt>, file: File, i: nat)
    requires PrepareCalls(driver, claims, env, log) && i < |log| && Outcomes(driver, log, file)[i].Returned?
    ensures multiset(Outcomes(driver, log, file)[i].devices)
        == multiset(AllTold(driver, claims[i].uid, Own(driver, claims[i])))
  {
    assert IsPrepareCall(driver, claims[i], env[i], log[i]);
    OutcomeIs(driver, log, file, i);
    PrepareTells(driver, log[i], FileAfter(driver, log[..i], file));
  }
}

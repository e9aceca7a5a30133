/** What a container gets with the network profile: its mount is the directory that setup made
    and cleanup removes. */
module Delivery {
  import opened Prelude
  import opened Text
  import opened ClaimNames
  import opened Claims
  import opened Paths
  import opened Cdi
  import opened Grouping
  import opened Devices
  import opened Computed
  import opened Network
  import opened Disk
  import opened Lifecycle
  import opened Ledger
  import opened Directories
  import opened Effects
  import opened Safety
  import opened Sweeping
  import opened Restoring

  /** Only `r` has its device name in its group, so the group's edits for it are those of `r`. */
  lemma GroupEdits(driver: Driver, claim: Claim, r: AllocResult)
    requires DistinctDevices(Own(driver, claim)) && r in Own(driver, claim)
    ensures var edits := EditsOf(claim.name, GroupOf(driver, claim, r));
            r.device in edits && edits[r.device] == EditsFor(claim.name, r)
  {
    var group, own := GroupOf(driver, claim, r), Own(driver, claim);
    SelectMembers(Chosen(ClaimConfigs(driver, claim)), own, Chosen(ClaimConfigs(driver, claim))(r));
    EditsCover(claim.name, group, r);
    EditsAt(claim.name, group, r.device);
    var r' :| Gives(claim.name, group, r.device, r');
    assert r' in own;
  }

  lemma NetworkPrepared(driver: Driver, claim: Claim, first: seq<nat>, second: seq<nat>, r: AllocResult)
    requires IsNetwork(driver) && IsClaimOrder(driver, claim, first) && IsClaimOrder(driver, claim, second)
    requires Compute(driver, claim, first, second).Ok?
    requires DistinctDevices(Own(driver, claim)) && r in Own(driver, claim)
    ensures PreparedDevice(DeviceOf(driver, claim.uid, r), Some(EditsFor(claim.name, r)),
        HasAdminAccess(ClaimResults(claim)))
         in Compute(driver, claim, first, second).value
  {
    NetworkIsLocal(driver);
    WinnerIsApplied(driver, claim, first, second, r);
    GroupEdits(driver, claim, r);
  }

  /** The CDI device mounts the directory of `r` and tells the container about it. */
  ghost predicate Delivers(claim: Claim, r: AllocResult, d: CdiDevice) {
    var host := Render(DirPath(claim.name, r.request));
    && d.name == DeviceName(claim.uid, r.device)
    && d.mounts == [Mount(host, host, ["rbind", "z"])]
    && "KUBEVIRT_NETWORK_DEVICE=" + r.device in d.env
    && "KUBEVIRT_NETWORK_PATH=" + host in d.env
    && "KUBEVIRT_NETWORK_REQUEST=" + r.request in d.env
  }

  lemma PreparedDelivers(driver: Driver, claim: Claim, r: AllocResult, admin: bool)
    ensures Delivers(claim, r,
        SpecDevice(driver, claim.uid,
        PreparedDevice(DeviceOf(driver, claim.uid, r), Some(EditsFor(claim.name, r)), admin)))
  {
    var edits := EditsFor(claim.name, r);
    var d := SpecDevice(driver, claim.uid, PreparedDevice(DeviceOf(driver, claim.uid, r), Some(edits), admin));
    assert d.env[2] == edits.env[0] && d.env[3] == edits.env[1] && d.env[4] == edits.env[2];
  }

  lemma SpecDelivers(driver: Driver, claim: Claim, spec: Spec, r: AllocResult) returns (d: CdiDevice)
    requires IsNetwork(driver) && IsSpecOf(driver, claim, spec)
    requires DistinctDevices(Own(driver, claim)) && r in Own(driver, claim)
    ensures d in spec.devices && Delivers(claim, r, d)
  {
    var first, second :| IsClaimOrder(driver, claim, first) && IsClaimOrder(driver, claim, second)
      && Compute(driver, claim, first, second).Ok?
      && spec == ClaimSpec(driver, claim.uid, Compute(driver, claim, first, second).value);
    NetworkPrepared(driver, claim, first, second, r);
    var p := PreparedDevice(DeviceOf(driver, claim.uid, r), Some(EditsFor(claim.name, r)),
        HasAdminAccess(ClaimResults(claim)));
    NamedInSpec(driver, claim.uid, Compute(driver, claim, first, second).value, p);
    PreparedDelivers(driver, claim, r, HasAdminAccess(ClaimResults(claim)));
    d := SpecDevice(driver, claim.uid, p);
  }

  /** The host path of the mount names one directory only. */
  lemma HostPathIsOne(claimName: string, request: string, q: Path)
    requires IsClean(q) && Render(q) == Render(DirPath(claimName, request))
    ensures q == DirPath(claimName, request)
  {
    UnderIsClean(StableName(claimName), request);
    RenderInjective(q, DirPath(claimName, request));
  }

  lemma DeviceThere(driver: Driver, claim: Claim, dirs: map<Path, Option<string>>, r: AllocResult)
    requires r in Own(driver, claim) && OnDisk(driver, claim, dirs, DirPath(claim.name, r.request))
    ensures DistinctDirs(claim.name, Own(driver, claim)) ==> dirs[DirPath(claim.name, r.request)] == Some(r.device)
  {
    var own := Own(driver, claim);
    var i :| 0 <= i < |own| && own[i] == r;
    if DistinctDirs(claim.name, own) {
      MetadataNamesLast(claim.name, own, i, DirPath(claim.name, r.request));
    }
  }

  /** In every reachable state and for every recorded claim whose specification and directory
      nothing has removed since, each own result has a CDI device on disk that mounts the
      directory setup made for it; with different directories the `device.json` there names the
      device that the container is told; and where cleanup covers setup, Unprepare removes that
      directory. */
  lemma MountsMatchDirectories(driver: Driver, log: seq<Attempt>, s: Store, claim: Claim, r: AllocResult)
      returns (d: CdiDevice)
    requires IsNetwork(driver)
    requires IsRun(driver, log, s.file) && ReadOr(s.file) == []
    requires Holds(ReadOr(Serial(driver, log, s).file), claim.uid)
    requires claim.uid in History(driver, log, s.file) && History(driver, log, s.file)[claim.uid] == claim
    requires claim.uid !in Dropped(driver, log, s.file)
    requires !Refilled(driver, log, s.file, claim.uid, DirPath(claim.name, r.request))
    requires !Swept(driver, log, s.file, claim.uid, DirPath(claim.name, r.request))
    requires DistinctDevices(Own(driver, claim)) && r in Own(driver, claim)
    ensures var now, path := Serial(driver, log, s), DirPath(claim.name, r.request);
            && claim.uid in now.specs && d in now.specs[claim.uid].devices && Delivers(claim, r, d)
            && path in now.dirs
            && (DistinctDirs(claim.name, Own(driver, claim)) ==> now.dirs[path] == Some(r.device))
            && (CleanupCovers(driver, claim) ==> IsBelow(EntryOf(claim), path))
  {
    var now := Serial(driver, log, s);
    RecordedSafely(driver, log, s, claim.uid);
    d := SpecDelivers(driver, claim, now.specs[claim.uid], r);
    OwnDirIsMade(driver, claim, r);
    DirectoryOnDiskIff(driver, log, s, claim, DirPath(claim.name, r.request));
    DeviceThere(driver, claim, now.dirs, r);
  }

  // ---- when directories differ ----

  /** Claims with a slash-free name and requests without empty path segments share a directory if
      and only if they share the stable name and the request. Namespaces play no part. */
  lemma SharedDirectoryIff(name: string, request: string, name': string, request': string)
    requires name != "" && name' != "" && '/' !in name && '/' !in name'
    requires "" !in Split(request, '/') && "" !in Split(request', '/')
    ensures DirPath(name, request) == DirPath(name', request')
        <==> StableName(name) == StableName(name') && request == request'
  {
    SegmentsOf(name, request);
    SegmentsOf(name', request');
    JoinSplit(request, '/');
    JoinSplit(request', '/');
    if DirPath(name, request) == DirPath(name', request') {
      assert DirPath(name, request)[0] == StableName(name) && DirPath(name', request')[0] == StableName(name');
      assert DirPath(name, request)[1..] == Split(request, '/')
          && DirPath(name', request')[1..] == Split(request', '/');
    }
  }

  lemma SegmentsOf(name: string, request: string)
    requires name != "" && '/' !in name && "" !in Split(request, '/')
    ensures DirPath(name, request) == [StableName(name)] + Split(request, '/')
  {
    StableNameChars(name, '/');
    StableNameNotEmpty(name);
    SplitOfFree(StableName(name), '/');
    NothingEmpty([StableName(name)]);
    NothingEmpty(Split(request, '/'));
  }

  lemma {:induction false} NothingEmpty(parts: seq<string>)
    requires "" !in parts
    ensures NonEmpty(parts) == parts
  {
    if parts != [] {
      NothingEmpty(parts[1..]);
    }
  }

  /** Different requests without empty path segments have different directories. */
  lemma DistinctRequestsDistinctDirs(claimName: string, request: string, request': string)
    requires request != request' && "" !in Split(request, '/') && "" !in Split(request', '/')
    ensures DirPath(claimName, request) != DirPath(claimName, request')
  {
    NothingEmpty(Split(request, '/'));
    NothingEmpty(Split(request', '/'));
    var n := |NonEmpty(Split(StableName(claimName), '/'))|;
    assert DirPath(claimName, request)[n..] == Split(request, '/')
        && DirPath(claimName, request')[n..] == Split(request', '/');
    JoinSplit(request, '/');
    JoinSplit(request', '/');
  }
}

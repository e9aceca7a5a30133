/** What setup does to the claim directories and what removal undoes. */
module Directories {
  import opened Prelude
  import opened Claims
  import opened Paths
  import opened Cdi
  import opened Disk
  import opened Lifecycle

  /** The directories of a claim with the device each one's `device.json` names: the last
      result's, where requests share a directory. */
  ghost function Metadata(claimName: string, own: seq<AllocResult>): map<Path, Option<string>> {
    if own == [] then map[]
    else
      var last := own[|own| - 1];
      Metadata(claimName, own[..|own| - 1])[DirPath(claimName, last.request) := Some(last.device)]
  }

  lemma DirOfStep(claimName: string, own: seq<AllocResult>, q: Path)
    requires own != []
    ensures var n := |own| - 1;
            IsDirOf(claimName, own, q) <==> IsDirOf(claimName, own[..n], q) || q == DirPath(claimName, own[n].request)
  {
    var n := |own| - 1;
    assert forall i :: 0 <= i < n ==> own[..n][i] == own[i];
  }

  lemma {:induction false} MetadataKeys(claimName: string, own: seq<AllocResult>, q: Path)
    ensures q in Metadata(claimName, own) <==> IsDirOf(claimName, own, q)
  {
    if own != [] {
      MetadataKeys(claimName, own[..|own| - 1], q);
      DirOfStep(claimName, own, q);
    }
  }

  /** Results with pairwise different directories. */
  ghost predicate DistinctDirs(claimName: string, own: seq<AllocResult>) {
    forall i, j :: 0 <= i < j < |own| ==> DirPath(claimName, own[i].request) != DirPath(claimName, own[j].request)
  }

  ghost predicate SameAt(dirs: map<Path, Option<string>>, dirs': map<Path, Option<string>>, q: Path) {
    (q in dirs <==> q in dirs') && (q in dirs ==> dirs[q] == dirs'[q])
  }

  lemma MetadataStep(claimName: string, own: seq<AllocResult>, q: Path)
    requires own != []
    ensures var last := own[|own| - 1];
            if DirPath(claimName, last.request) == q
            then q in Metadata(claimName, own) && Metadata(claimName, own)[q] == Some(last.device)
            else SameAt(Metadata(claimName, own), Metadata(claimName, own[..|own| - 1]), q)
  {
  }

  /** Of results that share a directory, the last one is named in its `device.json`. */
  lemma {:induction false} MetadataNamesLast(claimName: string, own: seq<AllocResult>, i: nat, q: Path)
    requires i < |own| && q == DirPath(claimName, own[i].request)
    requires forall j :: i < j < |own| ==> DirPath(claimName, own[j].request) != q
    ensures q in Metadata(claimName, own) && Metadata(claimName, own)[q] == Some(own[i].device)
  {
    MetadataStep(claimName, own, q);
    if i < |own| - 1 {
      MetadataNamesLast(claimName, own[..|own| - 1], i, q);
    }
  }

  lemma DirOpsEffect(path: Path, device: string, fates: seq<bool>, s: Store)
    requires StatusOf(DirOps(path, device), fates) == Completed
    ensures After(DirOps(path, device), fates, s).dirs == s.dirs[path := Some(device)]
    ensures After(DirOps(path, device), fates, s).specs == s.specs
  {
    var ops := DirOps(path, device);
    RunFirst(ops, fates, s);
    var s1 := Apply(ops[0], s);
    RunFirst(ops[1..], fates[1..], s1);
    DirOpsTail(path, device, fates[1..][1..], s1);
    assert ops[1..][1..] == [TruncateMeta(path), FillMeta(path, device), Label(path)];
  }

  lemma DirOpsTail(path: Path, device: string, fates: seq<bool>, s: Store)
    requires StatusOf([TruncateMeta(path), FillMeta(path, device), Label(path)], fates) == Completed
    ensures After([TruncateMeta(path), FillMeta(path, device), Label(path)], fates, s).dirs
        == s.dirs[path := Some(device)]
    ensures After([TruncateMeta(path), FillMeta(path, device), Label(path)], fates, s).specs == s.specs
  {
    var ops := [TruncateMeta(path), FillMeta(path, device), Label(path)];
    RunFirst(ops, fates, s);
    var s1 := Apply(ops[0], s);
    assert ops[1..] == [FillMeta(path, device), Label(path)];
    RunFirst(ops[1..], fates[1..], s1);
    assert ops[1..][1..] == [Label(path)];
    RunFirst([Label(path)], fates[1..][1..], Apply(ops[1], s1));
    assert s1.dirs[path := Some(device)] == s.dirs[path := Some(device)];
  }

  /** Completed setup puts every directory in place, whatever was there before. */
  lemma {:induction false} SetupEffect(claimName: string, own: seq<AllocResult>, fates: seq<bool>, s: Store)
    requires StatusOf(SetupOps(claimName, own), fates) == Completed
    ensures After(SetupOps(claimName, own), fates, s).dirs == s.dirs + Metadata(claimName, own)
    ensures After(SetupOps(claimName, own), fates, s).specs == s.specs
  {
    if own == [] {
      assert s.dirs + map[] == s.dirs;
    } else {
      var front, last := own[..|own| - 1], own[|own| - 1];
      var a, b := SetupOps(claimName, front), DirOps(DirPath(claimName, last.request), last.device);
      RunConcat(a, b, fates, s);
      SetupEffect(claimName, front, fates, s);
      DirOpsEffect(DirPath(claimName, last.request), last.device, Rest(a, fates), After(a, fates, s));
      SetThenAdd(s.dirs, Metadata(claimName, front), DirPath(claimName, last.request), Some(last.device));
    }
  }

  lemma SetThenAdd(dirs: map<Path, Option<string>>, more: map<Path, Option<string>>, path: Path, meta: Option<string>)
    ensures (dirs + more)[path := meta] == dirs + more[path := meta]
  {
  }

  lemma SameOutside(dirs: map<Path, Option<string>>, dirs': map<Path, Option<string>>, keys: set<Path>)
    requires forall q :: q !in keys ==> SameAt(dirs, dirs', q)
    ensures dirs - keys == dirs' - keys
  {
    forall q
      ensures q in dirs - keys <==> q in dirs' - keys
      ensures q in dirs - keys ==> dirs[q] == dirs'[q]
    {
      assert q !in keys ==> SameAt(dirs, dirs', q);
    }
  }

  /** Partial setup changes nothing outside the claim's own directories. */
  lemma SetupStaysInside(claimName: string, own: seq<AllocResult>, fates: seq<bool>, s: Store)
    ensures After(SetupOps(claimName, own), fates, s).dirs - Metadata(claimName, own).Keys
        == s.dirs - Metadata(claimName, own).Keys
    ensures After(SetupOps(claimName, own), fates, s).specs == s.specs
  {
    var ops, after := SetupOps(claimName, own), After(SetupOps(claimName, own), fates, s);
    SetupShape(claimName, own);
    forall q | q !in Metadata(claimName, own).Keys ensures SameAt(after.dirs, s.dirs, q) {
      MetadataKeys(claimName, own, q);
      DirUntouched(ops, fates, s, q);
    }
    SameOutside(after.dirs, s.dirs, Metadata(claimName, own).Keys);
    SpecsUntouched(ops, fates, s);
  }

  /** Running a single step. */
  lemma OneStepRun(op: Op, fates: seq<bool>, s: Store)
    ensures After([op], fates, s) == if fates != [] && fates[0] then Apply(op, s) else s
    ensures StatusOf([op], fates) == if fates == [] then Crashed else if fates[0] || Tolerated(op) then Completed
        else Failed
    ensures Rest([op], fates) == if fates == [] then [] else fates[1..]
  {
    assert [op][1..] == [];
  }

  /** Setup followed by the specification, cut anywhere: nothing else changes, and when it
      completes everything is in place. */
  lemma SetupAndPut(claimName: string, own: seq<AllocResult>, uid: UID, spec: Spec, fates: seq<bool>, s: Store)
    ensures var t := After(SetupOps(claimName, own) + [PutSpec(uid, spec)], fates, s);
            && t.dirs - Metadata(claimName, own).Keys == s.dirs - Metadata(claimName, own).Keys
            && t.specs - {uid} == s.specs - {uid}
            && (StatusOf(SetupOps(claimName, own) + [PutSpec(uid, spec)], fates) == Completed ==>
                  t.dirs == s.dirs + Metadata(claimName, own) && t.specs == s.specs[uid := spec])
  {
    var setup := SetupOps(claimName, own);
    SetupStaysInside(claimName, own, fates, s);
    var mid := After(setup, fates, s);
    RunConcat(setup, [PutSpec(uid, spec)], fates, s);
    OneStepRun(PutSpec(uid, spec), Rest(setup, fates), mid);
    if StatusOf(setup, fates) == Completed {
      SetupEffect(claimName, own, fates, s);
    }
  }

  // ---- removal ----

  /** A directory at or below one that the recorded claim's removal deletes. */
  ghost predicate IsBelow(entry: Entry, q: Path) {
    exists p :: p in RecordedPaths(entry) && p <= q
  }

  ghost function Cleared(dirs: map<Path, Option<string>>, entry: Entry): map<Path, Option<string>> {
    map q | q in dirs && !IsBelow(entry, q) :: dirs[q]
  }

  function Removal(entry: Entry): seq<Op> {
    RemovalOps(RecordedPaths(entry))
  }

  /** Removal, cut anywhere, changes nothing outside the recorded directories. */
  lemma RemovalStaysInside(entry: Entry, fates: seq<bool>, s: Store)
    ensures Cleared(After(Removal(entry), fates, s).dirs, entry) == Cleared(s.dirs, entry)
    ensures After(Removal(entry), fates, s).specs == s.specs
  {
    var ops, after := Removal(entry), After(Removal(entry), fates, s);
    RemovalShape(RecordedPaths(entry));
    forall q | !IsBelow(entry, q) ensures SameAt(after.dirs, s.dirs, q) {
      DirUntouched(ops, fates, s, q);
    }
    SameCleared(after.dirs, s.dirs, entry);
    SpecsUntouched(ops, fates, s);
  }

  lemma SameCleared(dirs: map<Path, Option<string>>, dirs': map<Path, Option<string>>, entry: Entry)
    requires forall q :: !IsBelow(entry, q) ==> SameAt(dirs, dirs', q)
    ensures Cleared(dirs, entry) == Cleared(dirs', entry)
  {
    forall q
      ensures q in Cleared(dirs, entry) <==> q in Cleared(dirs', entry)
      ensures q in Cleared(dirs, entry) ==> dirs[q] == dirs'[q]
    {
      assert !IsBelow(entry, q) ==> SameAt(dirs, dirs', q);
    }
  }

  lemma SpecsUntouched(ops: seq<Op>, fates: seq<bool>, s: Store)
    requires forall op :: op in ops ==> !op.PutSpec? && !op.DropSpec?
    ensures After(ops, fates, s).specs == s.specs
  {
    var after := After(ops, fates, s);
    forall uid
      ensures uid in after.specs <==> uid in s.specs
      ensures uid in s.specs ==> after.specs[uid] == s.specs[uid]
    {
      SpecUntouched(ops, fates, s, uid);
    }
  }

  /** Nothing in removal ends the call, so it completes unless the process dies. */
  lemma {:induction false} RemovalStatus(ops: seq<Op>, fates: seq<bool>)
    requires forall op :: op in ops ==> Tolerated(op)
    ensures StatusOf(ops, fates) == if |fates| >= |ops| then Completed else Crashed
    ensures Rest(ops, fates) == if |fates| >= |ops| then fates[|ops|..] else []
  {
    if ops != [] && fates != [] {
      assert ops[0] in ops && forall op :: op in ops[1..] ==> op in ops;
      RemovalStatus(ops[1..], fates[1..]);
    }
  }

  lemma RemovalTolerated(entry: Entry)
    ensures forall op :: op in Removal(entry) ==> Tolerated(op)
  {
    RemovalShape(RecordedPaths(entry));
  }

  ghost predicate AllSucceed(fates: seq<bool>, n: nat) {
    n <= |fates| && forall k :: 0 <= k < n ==> fates[k]
  }

  lemma {:induction false} StaysAbsent(ops: seq<Op>, fates: seq<bool>, s: Store, q: Path)
    requires forall op :: op in ops ==> Tolerated(op)
    requires q !in s.dirs
    ensures q !in After(ops, fates, s).dirs
  {
    if ops != [] && fates != [] {
      assert ops[0] in ops && forall op :: op in ops[1..] ==> op in ops;
      StaysAbsent(ops[1..], fates[1..], if fates[0] then Apply(ops[0], s) else s, q);
    }
  }

  /** Removal without failures leaves nothing at or below a removed directory. */
  lemma {:induction false} RemovalGone(ops: seq<Op>, fates: seq<bool>, s: Store, p: Path, q: Path)
    requires forall op :: op in ops ==> Tolerated(op)
    requires AllSucceed(fates, |ops|) && RemoveTree(p) in ops && p <= q
    ensures q !in After(ops, fates, s).dirs
  {
    assert ops[0] in ops && forall op :: op in ops[1..] ==> op in ops;
    var s1 := Apply(ops[0], s);
    if ops[0] == RemoveTree(p) {
      StaysAbsent(ops[1..], fates[1..], s1, q);
    } else {
      RemovalGone(ops[1..], fates[1..], s1, p, q);
    }
  }

  lemma {:induction false} RemovalContains(paths: seq<Path>, p: Path)
    requires p in paths
    ensures RemoveTree(p) in RemovalOps(paths)
  {
    var front, last := paths[..|paths| - 1], paths[|paths| - 1];
    assert paths == front + [last];
    if p in front {
      RemovalContains(front, p);
    } else {
      assert [StripTree(last), RemoveTree(last)][1] == RemoveTree(p);
    }
  }

  lemma RemovalEffect(entry: Entry, fates: seq<bool>, s: Store)
    requires AllSucceed(fates, |Removal(entry)|)
    ensures After(Removal(entry), fates, s).dirs == Cleared(s.dirs, entry)
  {
    var after := After(Removal(entry), fates, s);
    RemovalStaysInside(entry, fates, s);
    RemovalTolerated(entry);
    forall q | IsBelow(entry, q) ensures q !in after.dirs {
      var p :| p in RecordedPaths(entry) && p <= q;
      RemovalContains(RecordedPaths(entry), p);
      RemovalGone(Removal(entry), fates, s, p, q);
    }
    assert after.dirs == Cleared(after.dirs, entry);
  }

  // ---- does cleanup cover setup ----

  /** `r` is the last result with its device name. */
  ghost predicate IsLastNamed(results: seq<AllocResult>, j: nat) {
    j < |results| && forall k :: j < k < |results| ==> results[k].device != results[j].device
  }

  lemma {:induction false} RequestsKeepLast(results: seq<AllocResult>, device: string)
    ensures device in DeviceRequests(results) <==> device in DeviceNames(results)
    ensures device in DeviceRequests(results) ==>
              exists j: nat ::
                  IsLastNamed(results, j) && results[j].device == device
                  && results[j].request == DeviceRequests(results)[device]
  {
    if results != [] {
      var n := |results| - 1;
      var front := results[..n];
      RequestsKeepLast(front, device);
      assert DeviceNames(results) == DeviceNames(front) + [results[n].device];
      if results[n].device == device {
        assert IsLastNamed(results, n);
      } else if device in DeviceRequests(results) {
        var j: nat :| IsLastNamed(front, j) && front[j].device == device
            && front[j].request == DeviceRequests(front)[device];
        assert IsLastNamed(results, j);
      }
    }
  }

  lemma LastNamedUnique(results: seq<AllocResult>, i: nat, j: nat)
    requires IsLastNamed(results, i) && IsLastNamed(results, j) && results[i].device == results[j].device
    ensures i == j
  {
  }

  /** The request recorded for a device is the one of the last result with that name. */
  lemma RecordedRequest(results: seq<AllocResult>, j: nat)
    requires IsLastNamed(results, j)
    ensures results[j].device in DeviceRequests(results)
        && DeviceRequests(results)[results[j].device] == results[j].request
  {
    RequestsKeepLast(results, results[j].device);
    assert DeviceNames(results)[j] == results[j].device;
    var k: nat :| IsLastNamed(results, k) && results[k].device == results[j].device
        && results[k].request == DeviceRequests(results)[results[j].device];
    LastNamedUnique(results, j, k);
  }

  /** The directories removed are those of the results that are last with their device name. */
  lemma RemovedAreLast(claim: Claim, q: Path)
    ensures IsBelow(EntryOf(claim), q) <==>
              exists j: nat ::
                  IsLastNamed(ClaimResults(claim), j) && DirPath(claim.name, ClaimResults(claim)[j].request) <= q
  {
    if p :| p in RecordedPaths(EntryOf(claim)) && p <= q {
      var i :| 0 <= i < |RecordedPaths(EntryOf(claim))| && RecordedPaths(EntryOf(claim))[i] == p;
      var j := RecordedIsLast(claim, i);
    }
    if j: nat :| IsLastNamed(ClaimResults(claim), j) && DirPath(claim.name, ClaimResults(claim)[j].request) <= q {
      LastIsRecorded(claim, j);
    }
  }

  lemma RecordedIsLast(claim: Claim, i: nat) returns (j: nat)
    requires i < |ClaimResults(claim)|
    ensures IsLastNamed(ClaimResults(claim), j)
        && RecordedPaths(EntryOf(claim))[i] == DirPath(claim.name, ClaimResults(claim)[j].request)
  {
    var results := ClaimResults(claim);
    var device := results[i].device;
    RequestsKeepLast(results, device);
    assert DeviceNames(results)[i] == device;
    j :| IsLastNamed(results, j) && results[j].device == device
        && results[j].request == DeviceRequests(results)[device];
  }

  lemma LastIsRecorded(claim: Claim, j: nat)
    requires IsLastNamed(ClaimResults(claim), j)
    ensures DirPath(claim.name, ClaimResults(claim)[j].request) in RecordedPaths(EntryOf(claim))
  {
    RecordedRequest(ClaimResults(claim), j);
    assert RecordedPaths(EntryOf(claim))[j] == DirPath(claim.name, ClaimResults(claim)[j].request);
  }

  /** Unprepare removes every directory that Prepare makes for the claim. */
  ghost predicate CleanupCovers(driver: Driver, claim: Claim) {
    forall q :: q in Metadata(claim.name, Own(driver, claim)) ==> IsBelow(EntryOf(claim), q)
  }

  /** Each own result's directory is, or lies below, that of a result that no later result of
      the allocation shadows by using its device name. */
  ghost predicate Unshadowed(driver: Driver, claim: Claim) {
    forall r :: r in Own(driver, claim) ==>
      exists j: nat ::
          IsLastNamed(ClaimResults(claim), j)
          && DirPath(claim.name, ClaimResults(claim)[j].request) <= DirPath(claim.name, r.request)
  }

  /** Exactly when cleanup covers setup. */
  lemma CleanupCoversIff(driver: Driver, claim: Claim)
    ensures CleanupCovers(driver, claim) <==> Unshadowed(driver, claim)
  {
    var own := Own(driver, claim);
    if CleanupCovers(driver, claim) {
      forall r | r in own
        ensures exists j: nat ::
            IsLastNamed(ClaimResults(claim), j)
            && DirPath(claim.name, ClaimResults(claim)[j].request) <= DirPath(claim.name, r.request)
      {
        var q := DirPath(claim.name, r.request);
        assert IsDirOf(claim.name, own, q);
        MetadataKeys(claim.name, own, q);
        RemovedAreLast(claim, q);
      }
    }
    if Unshadowed(driver, claim) {
      forall q | q in Metadata(claim.name, own) ensures IsBelow(EntryOf(claim), q) {
        MetadataKeys(claim.name, own, q);
        var i :| 0 <= i < |own| && q == DirPath(claim.name, own[i].request);
        assert own[i] in own;
        RemovedAreLast(claim, q);
      }
    }
  }

  /** Distinct device names over the whole allocation are enough. */
  lemma DistinctNamesCover(driver: Driver, claim: Claim)
    requires DistinctDevices(ClaimResults(claim))
    ensures CleanupCovers(driver, claim)
  {
    var results := ClaimResults(claim);
    forall r | r in Own(driver, claim)
      ensures exists j: nat ::
          IsLastNamed(results, j) && DirPath(claim.name, results[j].request) <= DirPath(claim.name, r.request)
    {
      var j :| 0 <= j < |results| && results[j] == r;
      assert IsLastNamed(results, j);
    }
    CleanupCoversIff(driver, claim);
  }

  /** When moreover every result belongs to this driver, the directories removed are those
      made and what lies below them. */
  lemma CleanupIsExact(driver: Driver, claim: Claim, q: Path)
    requires DistinctDevices(ClaimResults(claim))
    requires forall r :: r in ClaimResults(claim) ==> r.driver == driver.name
    ensures IsBelow(EntryOf(claim), q) <==> exists p :: p in Metadata(claim.name, Own(driver, claim)) && p <= q
  {
    if IsBelow(EntryOf(claim), q) {
      var p := RemovedIsMade(driver, claim, q);
    }
    DistinctNamesCover(driver, claim);
    if p :| p in Metadata(claim.name, Own(driver, claim)) && p <= q {
      BelowBelow(EntryOf(claim), p, q);
    }
  }

  lemma BelowBelow(entry: Entry, p: Path, q: Path)
    requires IsBelow(entry, p) && p <= q
    ensures IsBelow(entry, q)
  {
    var p' :| p' in RecordedPaths(entry) && p' <= p;
    assert p' <= q;
  }

  lemma OwnDirIsMade(driver: Driver, claim: Claim, r: AllocResult)
    requires r in Own(driver, claim)
    ensures DirPath(claim.name, r.request) in Metadata(claim.name, Own(driver, claim))
  {
    var own := Own(driver, claim);
    var i :| 0 <= i < |own| && own[i] == r;
    MetadataKeys(claim.name, own, DirPath(claim.name, r.request));
  }

  lemma RemovedIsMade(driver: Driver, claim: Claim, q: Path) returns (p: Path)
    requires forall r :: r in ClaimResults(claim) ==> r.driver == driver.name
    requires IsBelow(EntryOf(claim), q)
    ensures p in Metadata(claim.name, Own(driver, claim)) && p <= q
  {
    var results := ClaimResults(claim);
    RemovedAreLast(claim, q);
    var j: nat :| IsLastNamed(results, j) && DirPath(claim.name, results[j].request) <= q;
    p := DirPath(claim.name, results[j].request);
    OwnDirIsMade(driver, claim, results[j]);
  }
}

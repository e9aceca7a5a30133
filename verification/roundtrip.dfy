/** Prepare, other claims' calls, Unprepare: as if the claim had never been there. */
module RoundTrip {
  import opened Prelude
  import opened Claims
  import opened Paths
  import opened Cdi
  import opened Disk
  import opened Lifecycle
  import opened Ledger
  import opened Directories
  import opened Effects
  import opened Convergence

  /** `s` has no trace of the claim. */
  ghost predicate Fresh(claim: Claim, s: Store) {
    && ReadEntries(s.file).Some? && !Holds(ReadEntries(s.file).value, claim.uid)
    && claim.uid !in s.specs
    && forall q :: q in s.dirs ==> !IsBelow(EntryOf(claim), q)
  }

  /** An attempt of another claim's call whose own directories lie outside those that cleanup
      of `claim` removes. An Unprepare can read the checkpoint. */
  ghost predicate Elsewhere(driver: Driver, claim: Claim, a: Attempt) {
    match a.call
    case Prepare(other, _, _) =>
      other.uid != claim.uid && forall q ::
          q in Metadata(other.name, Own(driver, other)) ==> !IsBelow(EntryOf(claim), q)
    case Unprepare(uid) => uid != claim.uid && a.readOk
  }

  /** `s` is `t` plus the claim. */
  ghost predicate Plus(claim: Claim, s: Store, t: Store) {
    && ReadEntries(s.file).Some? && ReadEntries(t.file).Some?
    && Without(ReadOr(s.file), claim.uid) == ReadOr(t.file)
    && FirstEntry(ReadOr(s.file), claim.uid) == Some(EntryOf(claim))
    && s.specs - {claim.uid} == t.specs && claim.uid !in t.specs
    && Cleared(s.dirs, EntryOf(claim)) == t.dirs
  }

  // ---- entries ----

  lemma FirstAppend(entries: seq<Entry>, x: Entry, uid: UID)
    ensures FirstEntry(entries + [x], uid) == if Holds(entries, uid) then FirstEntry(entries, uid)
        else if x.uid == uid then Some(x) else None
    decreases |entries|
  {
    if entries == [] {
      assert [] + [x] == [x];
    } else {
      assert (entries + [x])[1..] == entries[1..] + [x];
      FirstAppend(entries[1..], x, uid);
    }
  }

  lemma {:induction false} FirstWithout(entries: seq<Entry>, gone: UID, uid: UID)
    requires uid != gone
    ensures FirstEntry(Without(entries, gone), uid) == FirstEntry(entries, uid)
  {
    if entries != [] {
      var front, last := entries[..|entries| - 1], entries[|entries| - 1];
      assert entries == front + [last];
      FirstWithout(front, gone, uid);
      FirstAppend(front, last, uid);
      if last.uid != gone {
        FirstAppend(Without(front, gone), last, uid);
      } else {
        assert Without(front, gone) + [] == Without(front, gone);
      }
    }
  }

  lemma {:induction false} WithoutCommutes(entries: seq<Entry>, u: UID, v: UID)
    ensures Without(Without(entries, u), v) == Without(Without(entries, v), u)
  {
    if entries != [] {
      var front, last := entries[..|entries| - 1], entries[|entries| - 1];
      WithoutCommutes(front, u, v);
      WithoutAppend(Without(front, u), last, v);
      WithoutAppend(Without(front, v), last, u);
      assert Without(front, u) + [] == Without(front, u) && Without(front, v) + [] == Without(front, v);
    }
  }

  lemma WithoutAppend(entries: seq<Entry>, x: Entry, uid: UID)
    ensures Without(entries + [x], uid) == if x.uid == uid then Without(entries, uid) else Without(entries, uid) + [x]
  {
    assert (entries + [x])[..|entries|] == entries;
  }

  // ---- steps commute with forgetting the claim ----

  /** A step of another claim, as seen by the claim's directories and specification. */
  ghost predicate OtherStep(claim: Claim, op: Op) {
    && !TouchesFile(op) && !TouchesSpec(op, claim.uid)
    && (IsSetupOp(op) && !op.Label? ==> !IsBelow(EntryOf(claim), op.path))
  }

  ghost predicate SameElsewhere(claim: Claim, s: Store, t: Store) {
    s.specs - {claim.uid} == t.specs && claim.uid !in t.specs && Cleared(s.dirs, EntryOf(claim)) == t.dirs
  }

  lemma SetKeepsCleared(dirs: map<Path, Option<string>>, entry: Entry, p: Path, meta: Option<string>)
    requires !IsBelow(entry, p)
    ensures Cleared(dirs[p := meta], entry) == Cleared(dirs, entry)[p := meta]
  {
  }

  /** A removal step on directories from which others have been cleared. */
  lemma RemovalKeepsCleared(dirs: map<Path, Option<string>>, entry: Entry, p: Path)
    ensures Cleared(map q | q in dirs :: if p <= q then None else dirs[q], entry)
         == (map q | q in Cleared(dirs, entry) :: if p <= q then None else Cleared(dirs, entry)[q])
    ensures Cleared(map q | q in dirs && !(p <= q) :: dirs[q], entry)
         == (map q | q in Cleared(dirs, entry) && !(p <= q) :: Cleared(dirs, entry)[q])
  {
  }

  lemma StepKeepsElsewhere(claim: Claim, op: Op, s: Store, t: Store)
    requires SameElsewhere(claim, s, t) && OtherStep(claim, op)
    ensures SameElsewhere(claim, Apply(op, s), Apply(op, t))
  {
    var entry := EntryOf(claim);
    match op
    case MakeDir(p) => SetKeepsCleared(s.dirs, entry, p, None);
    case TruncateMeta(p) => SetKeepsCleared(s.dirs, entry, p, None);
    case FillMeta(p, device) => SetKeepsCleared(s.dirs, entry, p, Some(device));
    case StripTree(p) => RemovalKeepsCleared(s.dirs, entry, p);
    case RemoveTree(p) => RemovalKeepsCleared(s.dirs, entry, p);
    case PutSpec(_, _) => SpecStepKeepsElsewhere(claim, op, s, t);
    case DropSpec(_) => SpecStepKeepsElsewhere(claim, op, s, t);
    case _ =>
  }

  lemma SpecStepKeepsElsewhere(claim: Claim, op: Op, s: Store, t: Store)
    requires SameElsewhere(claim, s, t) && (op.PutSpec? || op.DropSpec?) && op.uid != claim.uid
    ensures SameElsewhere(claim, Apply(op, s), Apply(op, t))
  {
  }

  lemma {:induction false} RunKeepsElsewhere(claim: Claim, ops: seq<Op>, fates: seq<bool>, s: Store, t: Store)
    requires SameElsewhere(claim, s, t) && forall op :: op in ops ==> OtherStep(claim, op)
    ensures SameElsewhere(claim, After(ops, fates, s), After(ops, fates, t))
  {
    if ops != [] && fates != [] {
      assert ops[0] in ops && forall op :: op in ops[1..] ==> op in ops;
      if fates[0] {
        StepKeepsElsewhere(claim, ops[0], s, t);
        RunKeepsElsewhere(claim, ops[1..], fates[1..], Apply(ops[0], s), Apply(ops[0], t));
      } else {
        RunKeepsElsewhere(claim, ops[1..], fates[1..], s, t);
      }
    }
  }

  lemma SetupStepElsewhere(driver: Driver, claim: Claim, other: Claim, op: Op)
    requires forall q :: q in Metadata(other.name, Own(driver, other)) ==> !IsBelow(EntryOf(claim), q)
    requires op in SetupOps(other.name, Own(driver, other))
    ensures OtherStep(claim, op)
  {
    SetupStep(other.name, Own(driver, other), op);
    MetadataKeys(other.name, Own(driver, other), op.path);
  }

  lemma SetupElsewhere(driver: Driver, claim: Claim, other: Claim)
    requires forall q :: q in Metadata(other.name, Own(driver, other)) ==> !IsBelow(EntryOf(claim), q)
    ensures forall op :: op in SetupOps(other.name, Own(driver, other)) ==> OtherStep(claim, op)
  {
    forall op | op in SetupOps(other.name, Own(driver, other)) ensures OtherStep(claim, op) {
      SetupStepElsewhere(driver, claim, other, op);
    }
  }

  lemma RemovalElsewhere(claim: Claim, entry: Entry)
    ensures forall op :: op in Removal(entry) ==> OtherStep(claim, op)
  {
    RemovalTolerated(entry);
    forall op | op in Removal(entry) ensures OtherStep(claim, op) {
      assert Tolerated(op);
    }
  }

  lemma PlanStepsElsewhere(driver: Driver, claim: Claim, a: Attempt, file: File)
    requires Elsewhere(driver, claim, a)
    ensures forall op :: op in AttemptPlan(driver, a, file).steps ==> OtherStep(claim, op)
  {
    match a.call
    case Prepare(other, _, _) =>
      SetupElsewhere(driver, claim, other);
      PrepareShape(driver, a, file);
    case Unprepare(uid) => UnprepareStepsElsewhere(claim, uid, Readable(file, a.readOk));
  }

  lemma UnprepareStepsElsewhere(claim: Claim, uid: UID, readable: Option<seq<Entry>>)
    requires uid != claim.uid
    ensures forall op :: op in UnpreparePlan(readable, uid).steps ==> OtherStep(claim, op)
  {
    if readable.Some? && FirstEntry(readable.value, uid).Some? {
      RemovalElsewhere(claim, FirstEntry(readable.value, uid).value);
    }
  }

  /** Both plans have the same steps and write corresponding entries. */
  ghost predicate Corresponds(claim: Claim, p: Plan, p': Plan) {
    && p.steps == p'.steps
    && (p.write.Some? <==> p'.write.Some?)
    && (p.write.Some? ==>
         Without(p.write.value, claim.uid) == p'.write.value
         && FirstEntry(p.write.value, claim.uid) == Some(EntryOf(claim)))
  }

  lemma SamePreparePlan(driver: Driver, claim: Claim, other: Claim, first: seq<nat>, second: seq<nat>,
      entries: seq<Entry>, readOk: bool)
    requires other.uid != claim.uid && FirstEntry(entries, claim.uid) == Some(EntryOf(claim))
    ensures var r := if readOk then Some(entries) else None;
            var r' := if readOk then Some(Without(entries, claim.uid)) else None;
            Corresponds(claim, PreparePlan(driver, r, other, first, second),
                PreparePlan(driver, r', other, first, second))
  {
    HoldsWithout(entries, claim.uid, other.uid);
    WithoutAppend(entries, EntryOf(other), claim.uid);
    FirstAppend(entries, EntryOf(other), claim.uid);
  }

  lemma SameUnpreparePlan(claim: Claim, uid: UID, entries: seq<Entry>)
    requires uid != claim.uid && FirstEntry(entries, claim.uid) == Some(EntryOf(claim))
    ensures Corresponds(claim, UnpreparePlan(Some(entries), uid), UnpreparePlan(Some(Without(entries, claim.uid)), uid))
  {
    FirstWithout(entries, claim.uid, uid);
    WithoutCommutes(entries, claim.uid, uid);
    FirstWithout(entries, uid, claim.uid);
  }

  /** Another claim's call corresponds in both runs. */
  lemma SamePlan(driver: Driver, claim: Claim, a: Attempt, s: Store, t: Store)
    requires Plus(claim, s, t) && Elsewhere(driver, claim, a)
    ensures Corresponds(claim, AttemptPlan(driver, a, s.file), AttemptPlan(driver, a, t.file))
  {
    match a.call
    case Prepare(other, first, second) => SamePreparePlan(driver, claim, other, first, second, ReadOr(s.file),
        a.readOk);
    case Unprepare(uid) => SameUnpreparePlan(claim, uid, ReadOr(s.file));
  }

  lemma AttemptKeepsPlus(driver: Driver, claim: Claim, a: Attempt, s: Store, t: Store)
    requires Plus(claim, s, t) && Elsewhere(driver, claim, a)
    ensures Plus(claim, Perform(driver, a, s), Perform(driver, a, t))
  {
    var p, p' := AttemptPlan(driver, a, s.file), AttemptPlan(driver, a, t.file);
    SamePlan(driver, claim, a, s, t);
    PlanStepsElsewhere(driver, claim, a, s.file);
    RunKeepsElsewhere(claim, p.steps, a.fates, s, t);
    PerformSteps(driver, a, s);
    PerformSteps(driver, a, t);
    PerformFile(driver, a, s);
    PerformFile(driver, a, t);
  }

  /** All attempts are of other claims' calls, outside the claim's directories. */
  ghost predicate AllElsewhere(driver: Driver, claim: Claim, log: seq<Attempt>) {
    forall i :: 0 <= i < |log| ==> Elsewhere(driver, claim, log[i])
  }

  lemma FrontElsewhere(driver: Driver, claim: Claim, log: seq<Attempt>)
    requires log != [] && AllElsewhere(driver, claim, log)
    ensures AllElsewhere(driver, claim, log[..|log| - 1]) && Elsewhere(driver, claim, log[|log| - 1])
  {
    assert forall i :: 0 <= i < |log| - 1 ==> log[..|log| - 1][i] == log[i];
  }

  lemma LastStep(driver: Driver, log: seq<Attempt>, s: Store)
    requires log != []
    ensures Serial(driver, log, s) == Perform(driver, log[|log| - 1], Serial(driver, log[..|log| - 1], s))
  {
  }

  lemma {:induction false} LogKeepsPlus(driver: Driver, claim: Claim, log: seq<Attempt>, s: Store, t: Store)
    requires Plus(claim, s, t) && AllElsewhere(driver, claim, log)
    ensures Plus(claim, Serial(driver, log, s), Serial(driver, log, t))
  {
    if log != [] {
      var front, last := log[..|log| - 1], log[|log| - 1];
      FrontElsewhere(driver, claim, log);
      LogKeepsPlus(driver, claim, front, s, t);
      AttemptKeepsPlus(driver, claim, last, Serial(driver, front, s), Serial(driver, front, t));
      LastStep(driver, log, s);
      LastStep(driver, log, t);
    }
  }

  /** Prepare attempts cut or failing anywhere and then one that returns add exactly the claim. A
      claim without own results is prepared at once. */
  lemma PreparesAddClaim(driver: Driver, claim: Claim, attempts: seq<Attempt>, a: Attempt, s: Store)
    requires Fresh(claim, s) && CleanupCovers(driver, claim) && (attempts == [] || Own(driver, claim) != [])
    requires forall i :: 0 <= i < |attempts| ==> IsPrepareOf(driver, claim, attempts[i])
    requires IsPrepareOf(driver, claim, a) && OutcomeOf(driver, a, Serial(driver, attempts, s).file).Returned?
    ensures Plus(claim, Perform(driver, a, Serial(driver, attempts, s)), s)
  {
    if attempts == [] {
      FirstReturnReplaces(driver, a, s.file);
      ReplacingPrepares(driver, claim, a, s, s);
    } else {
      AttemptsAdvance(driver, claim, attempts, s);
      ReturningPrepares(driver, claim, a, s, Serial(driver, attempts, s));
    }
    PreparedIsPlus(driver, claim, s, Perform(driver, a, Serial(driver, attempts, s)));
  }

  lemma PreparedIsPlus(driver: Driver, claim: Claim, s: Store, t: Store)
    requires Fresh(claim, s) && CleanupCovers(driver, claim) && PreparedFrom(driver, claim, s, t)
    ensures Plus(claim, t, s)
  {
    AppendedIsFirst(ReadOr(s.file), EntryOf(claim));
    SpecsWithout(s.specs, t.specs, claim.uid);
    ClearedAdded(s.dirs, Metadata(claim.name, Own(driver, claim)), EntryOf(claim));
  }

  lemma SpecsWithout(specs: map<UID, Spec>, specs': map<UID, Spec>, uid: UID)
    requires uid !in specs && specs' - {uid} == specs - {uid}
    ensures specs' - {uid} == specs
  {
    assert specs - {uid} == specs;
  }

  lemma AppendedIsFirst(entries: seq<Entry>, x: Entry)
    requires !Holds(entries, x.uid)
    ensures Without(entries + [x], x.uid) == entries && FirstEntry(entries + [x], x.uid) == Some(x)
  {
    WithoutAppend(entries, x, x.uid);
    WithoutAbsent(entries, x.uid);
    FirstAppend(entries, x, x.uid);
  }

  lemma ClearedAdded(dirs: map<Path, Option<string>>, more: map<Path, Option<string>>, entry: Entry)
    requires (forall q :: q in more ==> IsBelow(entry, q)) && (forall q :: q in dirs ==> !IsBelow(entry, q))
    ensures Cleared(dirs + more, entry) == dirs
  {
  }

  /** The same entries, specifications and directories. */
  ghost predicate SameOnDisk(s: Store, t: Store) {
    ReadEntries(s.file) == ReadEntries(t.file) && s.specs == t.specs && s.dirs == t.dirs
  }

  lemma ForgettingPlus(driver: Driver, claim: Claim, unprepare: Attempt, s: Store, t: Store)
    requires Plus(claim, s, t)
    requires IsUnprepareOf(claim.uid, unprepare) && AllSucceed(unprepare.fates, |Removal(EntryOf(claim))|)
    requires OutcomeOf(driver, unprepare, s.file).Returned?
    ensures SameOnDisk(Perform(driver, unprepare, s), t)
  {
    ForgetsEntry(driver, EntryOf(claim), unprepare, s);
  }

  /** Round trip under interleaving: preparing a fresh claim, with any number of cut or failing
      attempts before the one that returns, then any attempts of calls on other claims, cut or
      failing anywhere, then unpreparing it leaves the checkpoint entries, in the same order, the
      specifications and the directories of those other attempts alone. */
  lemma PrepareUnprepareRoundTrip(driver: Driver, claim: Claim, attempts: seq<Attempt>, prepare: Attempt,
      log: seq<Attempt>, unprepare: Attempt, s: Store)
    requires Fresh(claim, s) && CleanupCovers(driver, claim) && (attempts == [] || Own(driver, claim) != [])
    requires forall i :: 0 <= i < |attempts| ==> IsPrepareOf(driver, claim, attempts[i])
    requires IsPrepareOf(driver, claim, prepare)
    requires OutcomeOf(driver, prepare, Serial(driver, attempts, s).file).Returned?
    requires AllElsewhere(driver, claim, log)
    requires IsUnprepareOf(claim.uid, unprepare) && AllSucceed(unprepare.fates, |Removal(EntryOf(claim))|)
    requires var prepared := Perform(driver, prepare, Serial(driver, attempts, s));
             OutcomeOf(driver, unprepare, Serial(driver, log, prepared).file).Returned?
    ensures var prepared := Perform(driver, prepare, Serial(driver, attempts, s));
            SameOnDisk(Perform(driver, unprepare, Serial(driver, log, prepared)), Serial(driver, log, s))
  {
    var prepared := Perform(driver, prepare, Serial(driver, attempts, s));
    PreparesAddClaim(driver, claim, attempts, prepare, s);
    LogKeepsPlus(driver, claim, log, prepared, s);
    ForgettingPlus(driver, claim, unprepare, Serial(driver, log, prepared), Serial(driver, log, s));
  }

  /** The condition is exact: with nothing in the claim's directories before, an undisturbed
      round trip restores the directories if and only if cleanup covers setup. */
  lemma RoundTripIff(driver: Driver, claim: Claim, prepare: Attempt, unprepare: Attempt, s: Store)
    requires Fresh(claim, s) && s.dirs.Keys !! Metadata(claim.name, Own(driver, claim)).Keys
    requires IsPrepareOf(driver, claim, prepare) && OutcomeOf(driver, prepare, s.file).Returned?
    requires IsUnprepareOf(claim.uid, unprepare) && AllSucceed(unprepare.fates, |Removal(EntryOf(claim))|)
    requires OutcomeOf(driver, unprepare, Perform(driver, prepare, s).file).Returned?
    ensures Perform(driver, unprepare, Perform(driver, prepare, s)).dirs == s.dirs <==> CleanupCovers(driver, claim)
  {
    FirstReturnReplaces(driver, prepare, s.file);
    ReplacingPrepares(driver, claim, prepare, s, s);
    UnpreparedDirs(driver, claim, unprepare, s, Perform(driver, prepare, s));
    ClearedAddedIff(s.dirs, Metadata(claim.name, Own(driver, claim)), EntryOf(claim));
  }

  lemma PreparedFirst(driver: Driver, claim: Claim, s: Store, t: Store)
    requires Fresh(claim, s) && PreparedFrom(driver, claim, s, t)
    ensures ReadEntries(t.file).Some? && FirstEntry(ReadEntries(t.file).value, claim.uid) == Some(EntryOf(claim))
    ensures t.dirs == s.dirs + Metadata(claim.name, Own(driver, claim))
  {
    AppendedIsFirst(ReadOr(s.file), EntryOf(claim));
  }

  lemma UnpreparedDirs(driver: Driver, claim: Claim, unprepare: Attempt, s: Store, t: Store)
    requires Fresh(claim, s) && PreparedFrom(driver, claim, s, t)
    requires IsUnprepareOf(claim.uid, unprepare) && AllSucceed(unprepare.fates, |Removal(EntryOf(claim))|)
    requires OutcomeOf(driver, unprepare, t.file).Returned?
    ensures Perform(driver, unprepare, t).dirs
        == Cleared(s.dirs + Metadata(claim.name, Own(driver, claim)), EntryOf(claim))
  {
    PreparedFirst(driver, claim, s, t);
    ForgetsEntry(driver, EntryOf(claim), unprepare, t);
  }

  lemma ForgetsEntry(driver: Driver, entry: Entry, unprepare: Attempt, t: Store)
    requires ReadEntries(t.file).Some? && FirstEntry(ReadEntries(t.file).value, entry.uid) == Some(entry)
    requires IsUnprepareOf(entry.uid, unprepare) && AllSucceed(unprepare.fates, |Removal(entry)|)
    requires OutcomeOf(driver, unprepare, t.file).Returned?
    ensures var end := Perform(driver, unprepare, t);
            && ReadEntries(end.file) == Some(Without(ReadOr(t.file), entry.uid))
            && end.specs == t.specs - {entry.uid} && end.dirs == Cleared(t.dirs, entry)
  {
    ReturningForgets(driver, entry.uid, unprepare, t);
  }

  lemma ClearedAddedIff(dirs: map<Path, Option<string>>, more: map<Path, Option<string>>, entry: Entry)
    requires dirs.Keys !! more.Keys && forall q :: q in dirs ==> !IsBelow(entry, q)
    ensures Cleared(dirs + more, entry) == dirs <==> forall q :: q in more ==> IsBelow(entry, q)
  {
    if q :| q in more && !IsBelow(entry, q) {
      assert q in Cleared(dirs + more, entry);
    }
  }
}

/** What one attempt does to each of the three stores. */
module Effects {
  import opened Prelude
  import opened Claims
  import opened Paths
  import opened Cdi
  import opened Devices
  import opened Computed
  import opened Disk
  import opened Lifecycle
  import opened Ledger
  import opened Directories

  /** `spec` is a specification that preparing the claim can write. */
  ghost predicate IsSpecOf(driver: Driver, claim: Claim, spec: Spec) {
    exists first, second ::
      && IsClaimOrder(driver, claim, first) && IsClaimOrder(driver, claim, second)
      && Compute(driver, claim, first, second).Ok?
      && spec == ClaimSpec(driver, claim.uid, Compute(driver, claim, first, second).value)
  }

  ghost predicate InPlace(wanted: map<Path, Option<string>>, dirs: map<Path, Option<string>>) {
    forall q :: q in wanted ==> q in dirs && dirs[q] == wanted[q]
  }

  /** The claim's specification and all of its directories are in place. */
  ghost predicate Intact(driver: Driver, claim: Claim, s: Store) {
    && claim.uid in s.specs && IsSpecOf(driver, claim, s.specs[claim.uid])
    && InPlace(Metadata(claim.name, Own(driver, claim)), s.dirs)
  }

  // ---- Prepare ----

  lemma SpecOfComputed(driver: Driver, claim: Claim, first: seq<nat>, second: seq<nat>)
    requires IsClaimOrder(driver, claim, first) && IsClaimOrder(driver, claim, second)
    requires Compute(driver, claim, first, second).Ok?
    ensures IsSpecOf(driver, claim, ClaimSpec(driver, claim.uid, Compute(driver, claim, first, second).value))
  {
  }

  /** The shapes a Prepare plan can have. */
  lemma PrepareShape(driver: Driver, a: Attempt, file: File)
    requires a.call.Prepare?
    ensures var plan, claim := AttemptPlan(driver, a, file), a.call.claim;
            var computed, setup := Compute(driver, claim, a.call.first, a.call.second),
                SetupOps(claim.name, Own(driver, claim));
            || (plan.steps == [] && plan.write.None?)
            || (plan.steps == setup && plan.write.None? && Readable(file, a.readOk).Some?
                 && !Holds(Readable(file, a.readOk).value, claim.uid))
            || (&& computed.Ok? && Readable(file, a.readOk).Some?
                && plan.steps == setup + [PutSpec(claim.uid, ClaimSpec(driver, claim.uid, computed.value))]
                && plan.write == Some(Readable(file, a.readOk).value + [EntryOf(claim)])
                && (Holds(Readable(file, a.readOk).value, claim.uid) ==> computed.value == []))
  {
  }

  /** A Prepare changes at most its own directories and specification. */
  lemma SetupOutside(driver: Driver, a: Attempt, s: Store)
    requires a.call.Prepare?
    ensures var t, claim := Perform(driver, a, s), a.call.claim;
            var keys := Metadata(claim.name, Own(driver, claim)).Keys;
            t.specs - {claim.uid} == s.specs - {claim.uid} && s.dirs - keys == t.dirs - keys
  {
    var claim := a.call.claim;
    PerformSteps(driver, a, s);
    PrepareShape(driver, a, s.file);
    SetupStaysInside(claim.name, Own(driver, claim), a.fates, s);
    if Compute(driver, claim, a.call.first, a.call.second).Ok? {
      SetupAndPut(claim.name, Own(driver, claim), claim.uid,
                  ClaimSpec(driver, claim.uid, Compute(driver, claim, a.call.first, a.call.second).value), a.fates, s);
    }
  }

  /** Completed setup leaves the claim intact, whatever was there before. */
  lemma SetupMakesIntact(driver: Driver, claim: Claim, spec: Spec, fates: seq<bool>, s: Store)
    requires IsSpecOf(driver, claim, spec)
    requires StatusOf(SetupOps(claim.name, Own(driver, claim)) + [PutSpec(claim.uid, spec)], fates) == Completed
    ensures Intact(driver, claim,
        After(SetupOps(claim.name, Own(driver, claim)) + [PutSpec(claim.uid, spec)], fates, s))
  {
    SetupAndPut(claim.name, Own(driver, claim), claim.uid, spec, fates, s);
  }

  /** A Prepare that replaces the checkpoint leaves its claim intact. */
  lemma PrepareMakesIntact(driver: Driver, a: Attempt, s: Store)
    requires IsLegit(driver, a) && a.call.Prepare? && Replaces(driver, a, s.file)
    ensures Intact(driver, a.call.claim, Perform(driver, a, s))
    ensures Perform(driver, a, s).file == Present(Whole(ReadOr(s.file) + [EntryOf(a.call.claim)]))
  {
    var claim := a.call.claim;
    PerformSteps(driver, a, s);
    PerformFile(driver, a, s);
    PrepareShape(driver, a, s.file);
    SpecOfComputed(driver, claim, a.call.first, a.call.second);
    SetupMakesIntact(driver, claim,
        ClaimSpec(driver, claim.uid, Compute(driver, claim, a.call.first, a.call.second).value), a.fates, s);
  }

  lemma PrepareEntries(driver: Driver, a: Attempt, s: Store, x: Entry)
    requires IsLegit(driver, a) && a.call.Prepare? && x in ReadOr(Perform(driver, a, s).file)
    ensures x in ReadOr(s.file) || (Replaces(driver, a, s.file) && x == EntryOf(a.call.claim))
  {
    if Replaces(driver, a, s.file) {
      PrepareMakesIntact(driver, a, s);
    } else {
      PerformFile(driver, a, s);
    }
  }

  /** The attempt reads the checkpoint and gets through its steps up to the point where it
      writes the new checkpoint. */
  ghost predicate Completes(driver: Driver, a: Attempt, file: File) {
    var plan := AttemptPlan(driver, a, file);
    && Readable(file, a.readOk).Some? && plan.write.Some?
    && StatusOf(plan.steps, a.fates) == Completed
  }

  ghost predicate HasNoSpec(ops: seq<Op>) {
    forall op :: op in ops ==> !op.PutSpec? && !op.DropSpec?
  }

  /** A last step that puts or drops a specification decides about it. */
  lemma ThenSpec(ops: seq<Op>, op: Op, fates: seq<bool>, s: Store)
    requires HasNoSpec(ops) && (op.PutSpec? || op.DropSpec?)
    ensures var t := After(ops + [op], fates, s);
            && t.dirs == After(ops, fates, s).dirs
            && t.specs == if StatusOf(ops + [op], fates) == Completed then Apply(op, s).specs else s.specs
  {
    SpecsUntouched(ops, fates, s);
    RunConcat(ops, [op], fates, s);
    OneStepRun(op, Rest(ops, fates), After(ops, fates, s));
  }

  lemma SetupHasNoSpec(claimName: string, own: seq<AllocResult>)
    ensures HasNoSpec(SetupOps(claimName, own))
  {
    SetupShape(claimName, own);
  }

  lemma WritingSteps(driver: Driver, a: Attempt, file: File) returns (spec: Spec)
    requires a.call.Prepare? && AttemptPlan(driver, a, file).write.Some?
    ensures Readable(file, a.readOk).Some? && Compute(driver, a.call.claim, a.call.first, a.call.second).Ok?
    ensures spec
        == ClaimSpec(driver, a.call.claim.uid, Compute(driver, a.call.claim, a.call.first, a.call.second).value)
    ensures AttemptPlan(driver, a, file).steps
        == SetupOps(a.call.claim.name, Own(driver, a.call.claim)) + [PutSpec(a.call.claim.uid, spec)]
  {
    PrepareShape(driver, a, file);
    spec := ClaimSpec(driver, a.call.claim.uid, Compute(driver, a.call.claim, a.call.first, a.call.second).value);
  }

  lemma OtherSteps(driver: Driver, a: Attempt, file: File)
    requires a.call.Prepare? && AttemptPlan(driver, a, file).write.None?
    ensures HasNoSpec(AttemptPlan(driver, a, file).steps)
  {
    PrepareShape(driver, a, file);
    SetupHasNoSpec(a.call.claim.name, Own(driver, a.call.claim));
  }

  /** `t` has the directories and specifications that these steps leave. */
  ghost predicate Leaves(steps: seq<Op>, fates: seq<bool>, s: Store, t: Store) {
    t.dirs == After(steps, fates, s).dirs && t.specs == After(steps, fates, s).specs
  }

  lemma LastPuts(steps: seq<Op>, fates: seq<bool>, s: Store, t: Store, ops: seq<Op>, uid: UID, spec: Spec)
    requires Leaves(steps, fates, s, t) && steps == ops + [PutSpec(uid, spec)] && HasNoSpec(ops)
    ensures t.specs == if StatusOf(steps, fates) == Completed then s.specs[uid := spec] else s.specs
  {
    ThenSpec(ops, PutSpec(uid, spec), fates, s);
  }

  lemma LastDrops(steps: seq<Op>, fates: seq<bool>, s: Store, t: Store, ops: seq<Op>, uid: UID)
    requires Leaves(steps, fates, s, t) && steps == ops + [DropSpec(uid)] && HasNoSpec(ops)
    ensures t.specs == if StatusOf(steps, fates) == Completed then s.specs - {uid} else s.specs
    ensures t.dirs == After(ops, fates, s).dirs
  {
    ThenSpec(ops, DropSpec(uid), fates, s);
  }

  /** A Prepare that completes writes its claim's specification. */
  lemma PrepareWritesSpec(driver: Driver, a: Attempt, s: Store) returns (spec: Spec)
    requires a.call.Prepare? && Completes(driver, a, s.file)
    ensures Compute(driver, a.call.claim, a.call.first, a.call.second).Ok?
    ensures spec
        == ClaimSpec(driver, a.call.claim.uid, Compute(driver, a.call.claim, a.call.first, a.call.second).value)
    ensures Perform(driver, a, s).specs == s.specs[a.call.claim.uid := spec]
  {
    var setup := SetupOps(a.call.claim.name, Own(driver, a.call.claim));
    spec := WritingSteps(driver, a, s.file);
    SetupHasNoSpec(a.call.claim.name, Own(driver, a.call.claim));
    PerformSteps(driver, a, s);
    LastPuts(AttemptPlan(driver, a, s.file).steps, a.fates, s, Perform(driver, a, s), setup, a.call.claim.uid, spec);
  }

  /** One that does not leaves all specifications as they are. */
  lemma PrepareKeepsSpecs(driver: Driver, a: Attempt, s: Store)
    requires a.call.Prepare? && !Completes(driver, a, s.file)
    ensures Perform(driver, a, s).specs == s.specs
  {
    PerformSteps(driver, a, s);
    if AttemptPlan(driver, a, s.file).write.Some? {
      var setup := SetupOps(a.call.claim.name, Own(driver, a.call.claim));
      var spec := WritingSteps(driver, a, s.file);
      SetupHasNoSpec(a.call.claim.name, Own(driver, a.call.claim));
      LastPuts(AttemptPlan(driver, a, s.file).steps, a.fates, s, Perform(driver, a, s), setup, a.call.claim.uid, spec);
    } else {
      OtherSteps(driver, a, s.file);
      SpecsUntouched(AttemptPlan(driver, a, s.file).steps, a.fates, s);
    }
  }

  ghost predicate RemovesNothing(ops: seq<Op>) {
    forall op :: op in ops ==> !op.StripTree? && !op.RemoveTree?
  }

  lemma SetupRemovesNothing(claimName: string, own: seq<AllocResult>, uid: UID, spec: Spec)
    ensures RemovesNothing(SetupOps(claimName, own)) && RemovesNothing(SetupOps(claimName, own) + [PutSpec(uid, spec)])
  {
    SetupShape(claimName, own);
  }

  lemma PrepareRemovesNothing(driver: Driver, a: Attempt, file: File)
    requires a.call.Prepare?
    ensures RemovesNothing(AttemptPlan(driver, a, file).steps)
  {
    var claim := a.call.claim;
    PrepareShape(driver, a, file);
    if AttemptPlan(driver, a, file).write.Some? {
      var spec := WritingSteps(driver, a, file);
      SetupRemovesNothing(claim.name, Own(driver, claim), claim.uid, spec);
    } else {
      SetupRemovesNothing(claim.name, Own(driver, claim), "", Spec("", []));
    }
  }

  // ---- Unprepare ----

  lemma UnprepareEntries(driver: Driver, a: Attempt, s: Store, x: Entry)
    requires a.call.Unprepare? && Readable(s.file, a.readOk).Some? && x in ReadOr(Perform(driver, a, s).file)
    ensures x in ReadOr(s.file) && (x.uid == a.call.uid ==> !Replaces(driver, a, s.file))
  {
    PerformFile(driver, a, s);
    WithoutMembers(ReadOr(s.file), a.call.uid);
  }

  lemma RemovalHasNoSpec(removal: Option<Entry>)
    ensures HasNoSpec(EntryRemoval(removal))
  {
    if removal.Some? {
      RemovalShape(RecordedPaths(removal.value));
    }
  }

  /** An Unprepare drops its claim's specification exactly when it completes, and leaves of the
      directories what the removal steps leave. */
  lemma UnprepareEffect(driver: Driver, a: Attempt, s: Store)
    requires a.call.Unprepare? && Readable(s.file, a.readOk).Some?
    ensures var t := Perform(driver, a, s);
            && t.specs == (if Completes(driver, a, s.file) then s.specs - {a.call.uid} else s.specs)
            && t.dirs == After(EntryRemoval(FirstEntry(ReadOr(s.file), a.call.uid)), a.fates, s).dirs
  {
    UnprepareSteps(driver, a, s.file);
    RemovalHasNoSpec(FirstEntry(ReadOr(s.file), a.call.uid));
    PerformSteps(driver, a, s);
    LastDrops(AttemptPlan(driver, a, s.file).steps, a.fates, s, Perform(driver, a, s),
        EntryRemoval(FirstEntry(ReadOr(s.file), a.call.uid)), a.call.uid);
  }

  lemma UnprepareSteps(driver: Driver, a: Attempt, file: File)
    requires a.call.Unprepare? && Readable(file, a.readOk).Some?
    ensures var plan := AttemptPlan(driver, a, file);
            && plan.write.Some?
            && plan.steps == EntryRemoval(FirstEntry(ReadOr(file), a.call.uid)) + [DropSpec(a.call.uid)]
  {
  }

  /** So an Unprepare that can read the checkpoint changes at most the recorded directories and the
      specification of its claim. */
  lemma UnprepareOutside(driver: Driver, a: Attempt, s: Store)
    requires a.call.Unprepare? && Readable(s.file, a.readOk).Some?
    ensures var t, entry := Perform(driver, a, s), FirstEntry(ReadOr(s.file), a.call.uid);
            && t.specs - {a.call.uid} == s.specs - {a.call.uid}
            && (if entry.Some? then Cleared(t.dirs, entry.value) == Cleared(s.dirs, entry.value) else t.dirs == s.dirs)
  {
    UnprepareEffect(driver, a, s);
    var entry := FirstEntry(ReadOr(s.file), a.call.uid);
    if entry.Some? {
      RemovalStaysInside(entry.value, a.fates, s);
    }
  }
}

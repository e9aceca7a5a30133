/** Interrupted calls that are retried until they succeed. */
module Convergence {
  import opened Prelude
  import opened Claims
  import opened Paths
  import opened Cdi
  import opened Devices
  import opened Computed
  import opened Disk
  import opened Lifecycle
  import opened Ledger
  import opened Directories
  import opened Effects

  /** The same checkpoint entries, directories and specifications, up to leftover temporary
      files and the order of devices in the specification of `uid`. */
  ghost predicate Agree(s: Store, t: Store, uid: UID) {
    && ReadEntries(s.file) == ReadEntries(t.file)
    && s.dirs == t.dirs
    && s.specs - {uid} == t.specs - {uid}
    && (uid in s.specs <==> uid in t.specs)
    && (uid in s.specs ==> SameSpec(s.specs[uid], t.specs[uid]))
  }

  // ---- Prepare ----

  ghost predicate IsPrepareOf(driver: Driver, claim: Claim, a: Attempt) {
    a.call.Prepare? && a.call.claim == claim && IsLegit(driver, a)
  }

  /** Nothing but the claim's own directories and specification differs from `s`. */
  ghost predicate Untouched(driver: Driver, claim: Claim, s: Store, t: Store) {
    && t.file == s.file
    && t.specs - {claim.uid} == s.specs - {claim.uid}
    && t.dirs - Metadata(claim.name, Own(driver, claim)).Keys == s.dirs - Metadata(claim.name, Own(driver, claim)).Keys
  }

  /** The claim is prepared as by one undisturbed call from `s`. */
  ghost predicate PreparedFrom(driver: Driver, claim: Claim, s: Store, t: Store) {
    && t.file == Present(Whole(ReadOr(s.file) + [EntryOf(claim)]))
    && t.dirs == s.dirs + Metadata(claim.name, Own(driver, claim))
    && t.specs - {claim.uid} == s.specs - {claim.uid}
    && claim.uid in t.specs && IsSpecOf(driver, claim, t.specs[claim.uid])
  }

  lemma SetupOverrides(dirs: map<Path, Option<string>>, dirs': map<Path, Option<string>>,
      more: map<Path, Option<string>>)
    requires dirs - more.Keys == dirs' - more.Keys
    ensures dirs + more == dirs' + more
  {
    forall q | q !in more
      ensures q in dirs <==> q in dirs'
      ensures q in dirs ==> dirs[q] == dirs'[q]
    {
      assert q in dirs - more.Keys <==> q in dirs' - more.Keys;
      assert q in dirs ==> (dirs - more.Keys)[q] == (dirs' - more.Keys)[q];
    }
  }

  /** A Prepare that gets as far as replacing the checkpoint has done everything. */
  lemma ReplacingPrepares(driver: Driver, claim: Claim, a: Attempt, s: Store, t: Store)
    requires IsPrepareOf(driver, claim, a) && Untouched(driver, claim, s, t) && Replaces(driver, a, t.file)
    ensures PreparedFrom(driver, claim, s, Perform(driver, a, t))
  {
    PrepareMakesIntact(driver, a, t);
    ReplacingSetsUp(driver, a, t);
    SetupOverrides(s.dirs, t.dirs, Metadata(claim.name, Own(driver, claim)));
    SetupOutside(driver, a, t);
  }

  lemma ReplacingSetsUp(driver: Driver, a: Attempt, s: Store)
    requires a.call.Prepare? && Replaces(driver, a, s.file)
    ensures Perform(driver, a, s).dirs == s.dirs + Metadata(a.call.claim.name, Own(driver, a.call.claim))
  {
    var claim := a.call.claim;
    PerformSteps(driver, a, s);
    PrepareShape(driver, a, s.file);
    SetupAndPut(claim.name, Own(driver, claim), claim.uid,
                ClaimSpec(driver, claim.uid, Compute(driver, claim, a.call.first, a.call.second).value), a.fates, s);
  }

  lemma PrepareAdvances(driver: Driver, claim: Claim, a: Attempt, s: Store, t: Store)
    requires IsPrepareOf(driver, claim, a) && Own(driver, claim) != []
    requires ReadEntries(s.file).Some? && !Holds(ReadEntries(s.file).value, claim.uid)
    requires Untouched(driver, claim, s, t) || PreparedFrom(driver, claim, s, t)
    ensures Untouched(driver, claim, s, Perform(driver, a, t)) || PreparedFrom(driver, claim, s, Perform(driver, a, t))
    ensures PreparedFrom(driver, claim, s, t) ==> PreparedFrom(driver, claim, s, Perform(driver, a, t))
  {
    if PreparedFrom(driver, claim, s, t) {
      HoldsAppend(ReadOr(s.file), EntryOf(claim), claim.uid);
      RestoringIsIdle(driver, a, t);
    } else if Replaces(driver, a, t.file) {
      ReplacingPrepares(driver, claim, a, s, t);
    } else {
      CutStaysUntouched(driver, claim, a, s, t);
    }
  }

  lemma CutStaysUntouched(driver: Driver, claim: Claim, a: Attempt, s: Store, t: Store)
    requires IsPrepareOf(driver, claim, a) && Untouched(driver, claim, s, t) && !Replaces(driver, a, t.file)
    ensures Untouched(driver, claim, s, Perform(driver, a, t))
  {
    SetupOutside(driver, a, t);
    PerformFile(driver, a, t);
  }

  /** A Prepare of a recorded claim, or of any claim when the checkpoint cannot be read,
      changes nothing. */
  lemma RestoringIsIdle(driver: Driver, a: Attempt, s: Store)
    requires IsLegit(driver, a) && a.call.Prepare? && Own(driver, a.call.claim) != []
    requires Holds(ReadOr(s.file), a.call.claim.uid)
    ensures Perform(driver, a, s) == s
  {
    if Readable(s.file, a.readOk).Some? {
      HeldIsRestored(driver, a, s.file);
    }
    assert Ops(AttemptPlan(driver, a, s.file)) == [];
  }

  lemma {:induction false} AttemptsAdvance(driver: Driver, claim: Claim, attempts: seq<Attempt>, s: Store)
    requires forall i :: 0 <= i < |attempts| ==> IsPrepareOf(driver, claim, attempts[i])
    requires Own(driver, claim) != [] && ReadEntries(s.file).Some? && !Holds(ReadEntries(s.file).value, claim.uid)
    ensures Untouched(driver, claim, s, Serial(driver, attempts, s))
        || PreparedFrom(driver, claim, s, Serial(driver, attempts, s))
  {
    if attempts != [] {
      var n := |attempts| - 1;
      var front := attempts[..n];
      assert forall i :: 0 <= i < |front| ==> front[i] == attempts[i];
      AttemptsAdvance(driver, claim, front, s);
      PrepareAdvances(driver, claim, attempts[n], s, Serial(driver, front, s));
    }
  }

  /** A Prepare that returns leaves the claim prepared. */
  lemma ReturningPrepares(driver: Driver, claim: Claim, a: Attempt, s: Store, t: Store)
    requires IsPrepareOf(driver, claim, a) && Own(driver, claim) != []
    requires ReadEntries(s.file).Some? && !Holds(ReadEntries(s.file).value, claim.uid)
    requires Untouched(driver, claim, s, t) || PreparedFrom(driver, claim, s, t)
    requires OutcomeOf(driver, a, t.file).Returned?
    ensures PreparedFrom(driver, claim, s, Perform(driver, a, t))
  {
    if PreparedFrom(driver, claim, s, t) {
      PrepareAdvances(driver, claim, a, s, t);
    } else {
      ReturnedReplaces(driver, a, t.file);
      ReplacingPrepares(driver, claim, a, s, t);
    }
  }

  lemma SpecsOfClaimAgree(driver: Driver, claim: Claim, spec: Spec, spec': Spec)
    requires OwnEditsAgree(driver, claim) && IsSpecOf(driver, claim, spec) && IsSpecOf(driver, claim, spec')
    ensures SameSpec(spec, spec')
  {
    var first, second :| IsClaimOrder(driver, claim, first) && IsClaimOrder(driver, claim, second)
      && Compute(driver, claim, first, second).Ok?
           && spec == ClaimSpec(driver, claim.uid, Compute(driver, claim, first, second).value);
    var first', second' :| IsClaimOrder(driver, claim, first') && IsClaimOrder(driver, claim, second')
      && Compute(driver, claim, first', second').Ok?
           && spec' == ClaimSpec(driver, claim.uid, Compute(driver, claim, first', second').value);
    ComputeSucceedsIff(driver, claim, first, second);
    PreparedOrderFree(driver, claim, first, second, first', second');
    PermutedSpec(driver, claim.uid, Compute(driver, claim, first, second).value,
        Compute(driver, claim, first', second').value);
  }

  lemma PreparedFromAgree(driver: Driver, claim: Claim, s: Store, t: Store, t': Store)
    requires OwnEditsAgree(driver, claim) && PreparedFrom(driver, claim, s, t) && PreparedFrom(driver, claim, s, t')
    ensures Agree(t, t', claim.uid)
  {
    SpecsOfClaimAgree(driver, claim, t.specs[claim.uid], t'.specs[claim.uid]);
  }

  /** Prepare attempts cut or failing anywhere, any number of times and with any iteration
      orders, followed by one that succeeds, leave the stores as one undisturbed call does. */
  lemma PrepareConverges(driver: Driver, claim: Claim, attempts: seq<Attempt>, last: Attempt, undisturbed: Attempt,
      s: Store)
    requires forall i :: 0 <= i < |attempts| ==> IsPrepareOf(driver, claim, attempts[i])
    requires IsPrepareOf(driver, claim, last) && IsPrepareOf(driver, claim, undisturbed)
    requires Own(driver, claim) != [] && OwnEditsAgree(driver, claim)
    requires ReadEntries(s.file).Some? && !Holds(ReadEntries(s.file).value, claim.uid)
    requires OutcomeOf(driver, last, Serial(driver, attempts, s).file).Returned?
    requires OutcomeOf(driver, undisturbed, s.file).Returned?
    ensures Agree(Perform(driver, last, Serial(driver, attempts, s)), Perform(driver, undisturbed, s), claim.uid)
  {
    AttemptsAdvance(driver, claim, attempts, s);
    ReturningPrepares(driver, claim, last, s, Serial(driver, attempts, s));
    ReturningPrepares(driver, claim, undisturbed, s, s);
    PreparedFromAgree(driver, claim, s, Perform(driver, last, Serial(driver, attempts, s)),
        Perform(driver, undisturbed, s));
  }

  // ---- Unprepare ----

  /** An Unprepare that can read the checkpoint. */
  ghost predicate IsUnprepareOf(uid: UID, a: Attempt) {
    a.call == Unprepare(uid) && a.readOk
  }

  ghost function RemovalLength(entry: Option<Entry>): nat {
    |EntryRemoval(entry)|
  }

  ghost function ClearedOf(dirs: map<Path, Option<string>>, entry: Option<Entry>): map<Path, Option<string>> {
    if entry.Some? then Cleared(dirs, entry.value) else dirs
  }

  /** Nothing but the recorded directories and the specification differs from `s`. */
  ghost predicate Recorded(uid: UID, s: Store, t: Store) {
    && t.file == s.file
    && t.specs - {uid} == s.specs - {uid}
    && ClearedOf(t.dirs, FirstEntry(ReadOr(s.file), uid)) == ClearedOf(s.dirs, FirstEntry(ReadOr(s.file), uid))
  }

  /** The claim is gone as after one undisturbed call from `s`. */
  ghost predicate ForgottenFrom(uid: UID, s: Store, t: Store) {
    && ReadEntries(t.file) == Some(Without(ReadOr(s.file), uid))
    && t.specs == s.specs - {uid}
    && t.dirs == ClearedOf(s.dirs, FirstEntry(ReadOr(s.file), uid))
  }

  lemma {:induction false} WithoutAbsent(entries: seq<Entry>, uid: UID)
    requires !Holds(entries, uid)
    ensures Without(entries, uid) == entries
  {
    if entries != [] {
      var front, last := entries[..|entries| - 1], entries[|entries| - 1];
      assert entries == front + [last];
      HoldsAppend(front, last, uid);
      WithoutAbsent(front, uid);
    }
  }

  /** An Unprepare of a claim that is not recorded. */
  lemma UnprepareUnknown(driver: Driver, uid: UID, a: Attempt, s: Store)
    requires a.call == Unprepare(uid) && a.readOk && ReadEntries(s.file).Some? && !Holds(ReadEntries(s.file).value, uid)
    ensures var t := Perform(driver, a, s);
            ReadEntries(t.file) == ReadEntries(s.file) && t.dirs == s.dirs
                && (t.specs == s.specs || t.specs == s.specs - {uid})
  {
    WithoutAbsent(ReadOr(s.file), uid);
    PerformFile(driver, a, s);
    PerformSteps(driver, a, s);
    assert [] + [DropSpec(uid)] == [DropSpec(uid)];
    OneStepRun(DropSpec(uid), a.fates, s);
  }

  /** Some removal at or above `q` succeeded. */
  ghost predicate WasRemoved(ops: seq<Op>, fates: seq<bool>, q: Path) {
    exists k :: 0 <= k < |ops| && k < |fates| && fates[k] && ops[k].RemoveTree? && ops[k].path <= q
  }

  lemma WasRemovedStep(ops: seq<Op>, fates: seq<bool>, q: Path)
    requires ops != [] && fates != []
    ensures WasRemoved(ops, fates, q)
        <==> (fates[0] && ops[0].RemoveTree? && ops[0].path <= q) || WasRemoved(ops[1..], fates[1..], q)
  {
    assert forall k :: 0 < k < |ops| ==> ops[k] == ops[1..][k - 1];
    assert forall k :: 0 < k < |fates| ==> fates[k] == fates[1..][k - 1];
    if k :| 0 <= k < |ops| - 1 && k < |fates| - 1 && fates[1..][k] && ops[1..][k].RemoveTree? && ops[1..][k].path <= q {
      assert fates[k + 1] && ops[k + 1].RemoveTree? && ops[k + 1].path <= q;
    }
    if WasRemoved(ops, fates, q) && !(fates[0] && ops[0].RemoveTree? && ops[0].path <= q) {
      var k :| 0 <= k < |ops| && k < |fates| && fates[k] && ops[k].RemoveTree? && ops[k].path <= q;
      assert fates[1..][k - 1] && ops[1..][k - 1].RemoveTree? && ops[1..][k - 1].path <= q;
    }
  }

  lemma {:induction false} RemovalLeaves(ops: seq<Op>, fates: seq<bool>, s: Store, q: Path)
    requires forall op :: op in ops ==> Tolerated(op)
    ensures q in After(ops, fates, s).dirs <==> q in s.dirs && !WasRemoved(ops, fates, q)
  {
    if ops != [] && fates != [] {
      assert ops[0] in ops && forall op :: op in ops[1..] ==> op in ops;
      WasRemovedStep(ops, fates, q);
      RemovalLeaves(ops[1..], fates[1..], if fates[0] then Apply(ops[0], s) else s, q);
    }
  }

  lemma RemovalClearsIff(entry: Entry, fates: seq<bool>, s: Store)
    ensures After(Removal(entry), fates, s).dirs == Cleared(s.dirs, entry)
       <==> forall q :: q in s.dirs && IsBelow(entry, q) ==> WasRemoved(Removal(entry), fates, q)
  {
    var after := After(Removal(entry), fates, s).dirs;
    RemovalStaysInside(entry, fates, s);
    RemovalTolerated(entry);
    forall q ensures q in after <==> q in s.dirs && !WasRemoved(Removal(entry), fates, q) {
      RemovalLeaves(Removal(entry), fates, s, q);
    }
    if forall q :: q in s.dirs && IsBelow(entry, q) ==> WasRemoved(Removal(entry), fates, q) {
      assert after == Cleared(after, entry);
    }
  }

  /** Every directory of these that is recorded for the claim lies at or below one whose removal
      succeeds. */
  ghost predicate RemovesAll(entry: Option<Entry>, fates: seq<bool>, dirs: map<Path, Option<string>>) {
    entry.Some? ==> forall q :: q in dirs && IsBelow(entry.value, q) ==> WasRemoved(Removal(entry.value), fates, q)
  }

  lemma RemovesAllIff(entry: Option<Entry>, fates: seq<bool>, s: Store)
    ensures After(EntryRemoval(entry), fates, s).dirs == ClearedOf(s.dirs, entry) <==> RemovesAll(entry, fates, s.dirs)
  {
    if entry.Some? {
      RemovalClearsIff(entry.value, fates, s);
    }
  }

  lemma SuccessRemovesAll(entry: Option<Entry>, fates: seq<bool>, s: Store)
    requires AllSucceed(fates, RemovalLength(entry))
    ensures RemovesAll(entry, fates, s.dirs)
  {
    if entry.Some? {
      RemovalEffect(entry.value, fates, s);
    }
    RemovesAllIff(entry, fates, s);
  }

  /** The claim is gone from the checkpoint and from the specifications. */
  ghost predicate Unlisted(uid: UID, s: Store, t: Store) {
    ReadEntries(t.file) == Some(Without(ReadOr(s.file), uid)) && t.specs == s.specs - {uid}
  }

  /** An Unprepare that replaces the checkpoint has done everything, if and only if it has removed
      the directories that were left. */
  lemma ReplacingForgetsIff(driver: Driver, uid: UID, a: Attempt, s: Store, t: Store)
    requires ReadEntries(s.file).Some? && Recorded(uid, s, t) && IsUnprepareOf(uid, a) && Replaces(driver, a, t.file)
    ensures Unlisted(uid, s, Perform(driver, a, t))
    ensures ForgottenFrom(uid, s, Perform(driver, a, t))
        <==> RemovesAll(FirstEntry(ReadOr(s.file), uid), a.fates, t.dirs)
  {
    PerformFile(driver, a, t);
    UnprepareEffect(driver, a, t);
    assert t.specs - {uid} == s.specs - {uid};
    RemovesAllIff(FirstEntry(ReadOr(s.file), uid), a.fates, t);
  }

  lemma UnlistedStays(driver: Driver, uid: UID, a: Attempt, s: Store, t: Store)
    requires ReadEntries(s.file).Some? && Unlisted(uid, s, t) && IsUnprepareOf(uid, a)
    ensures Unlisted(uid, s, Perform(driver, a, t)) && Perform(driver, a, t).dirs == t.dirs
  {
    HoldsWithout(ReadOr(s.file), uid, uid);
    UnprepareUnknown(driver, uid, a, t);
  }

  lemma CutStaysRecorded(driver: Driver, uid: UID, a: Attempt, s: Store, t: Store)
    requires ReadEntries(s.file).Some? && Recorded(uid, s, t) && IsUnprepareOf(uid, a)
    requires !Replaces(driver, a, t.file)
    ensures Recorded(uid, s, Perform(driver, a, t))
  {
    PerformFile(driver, a, t);
    UnprepareOutside(driver, a, t);
  }

  ghost predicate ReplacesAt(driver: Driver, attempts: seq<Attempt>, s: Store, i: nat)
    requires i < |attempts|
  {
    Replaces(driver, attempts[i], Serial(driver, attempts[..i], s).file)
  }

  /** Attempt `i` is the first of these to replace the checkpoint. */
  ghost predicate IsFirstToReplace(driver: Driver, attempts: seq<Attempt>, s: Store, i: nat) {
    && i < |attempts| && ReplacesAt(driver, attempts, s, i)
    && forall j: nat :: j < i ==> !ReplacesAt(driver, attempts, s, j)
  }

  ghost predicate AllUnprepare(uid: UID, attempts: seq<Attempt>) {
    forall i :: 0 <= i < |attempts| ==> IsUnprepareOf(uid, attempts[i])
  }

  /** Until one replaces the checkpoint, attempts change at most what they are to remove. */
  lemma {:induction false} CutsStayRecorded(driver: Driver, uid: UID, attempts: seq<Attempt>, n: nat, s: Store)
    requires ReadEntries(s.file).Some? && AllUnprepare(uid, attempts) && n <= |attempts|
    requires forall j: nat :: j < n ==> !ReplacesAt(driver, attempts, s, j)
    ensures Recorded(uid, s, Serial(driver, attempts[..n], s))
  {
    if n > 0 {
      CutsStayRecorded(driver, uid, attempts, n - 1, s);
      assert attempts[..n][..n - 1] == attempts[..n - 1];
      assert !ReplacesAt(driver, attempts, s, n - 1);
      CutStaysRecorded(driver, uid, attempts[n - 1], s, Serial(driver, attempts[..n - 1], s));
    }
  }

  /** After one has replaced it, attempts change no directory. */
  lemma {:induction false} RestIsIdle(driver: Driver, uid: UID, rest: seq<Attempt>, s: Store, t: Store)
    requires ReadEntries(s.file).Some? && AllUnprepare(uid, rest) && Unlisted(uid, s, t)
    ensures Unlisted(uid, s, Serial(driver, rest, t)) && Serial(driver, rest, t).dirs == t.dirs
  {
    if rest != [] {
      var front := rest[..|rest| - 1];
      assert forall i :: 0 <= i < |front| ==> front[i] == rest[i];
      RestIsIdle(driver, uid, front, s, t);
      UnlistedStays(driver, uid, rest[|rest| - 1], s, Serial(driver, front, t));
    }
  }

  /** The attempts leave the claim forgotten if and only if the first of them to replace the
      checkpoint removed the directories that the ones before it had left. */
  lemma AttemptsForgetIff(driver: Driver, uid: UID, attempts: seq<Attempt>, i: nat, s: Store)
    requires ReadEntries(s.file).Some? && AllUnprepare(uid, attempts) && IsFirstToReplace(driver, attempts, s, i)
    ensures Unlisted(uid, s, Serial(driver, attempts, s))
    ensures ForgottenFrom(uid, s, Serial(driver, attempts, s))
       <==> RemovesAll(FirstEntry(ReadOr(s.file), uid), attempts[i].fates, Serial(driver, attempts[..i], s).dirs)
  {
    CutsStayRecorded(driver, uid, attempts, i, s);
    var t := Serial(driver, attempts[..i], s);
    ReplacingForgetsIff(driver, uid, attempts[i], s, t);
    SerialAt(driver, attempts, i, s);
    LaterUnprepare(uid, attempts, i + 1);
    RestIsIdle(driver, uid, attempts[i + 1..], s, Perform(driver, attempts[i], t));
    SameForgotten(uid, s, Perform(driver, attempts[i], t), Serial(driver, attempts, s));
  }

  lemma LaterUnprepare(uid: UID, attempts: seq<Attempt>, k: nat)
    requires AllUnprepare(uid, attempts) && k <= |attempts|
    ensures AllUnprepare(uid, attempts[k..])
  {
  }

  lemma SameForgotten(uid: UID, s: Store, t: Store, u: Store)
    requires Unlisted(uid, s, t) && Unlisted(uid, s, u) && t.dirs == u.dirs
    ensures ForgottenFrom(uid, s, t) <==> ForgottenFrom(uid, s, u)
  {
  }

  /** An Unprepare that returns and whose removals succeed has forgotten its claim. */
  lemma ReturningForgets(driver: Driver, uid: UID, a: Attempt, s: Store)
    requires ReadEntries(s.file).Some? && IsUnprepareOf(uid, a) && OutcomeOf(driver, a, s.file).Returned?
    requires AllSucceed(a.fates, RemovalLength(FirstEntry(ReadEntries(s.file).value, uid)))
    ensures ForgottenFrom(uid, s, Perform(driver, a, s))
  {
    ReturnedReplaces(driver, a, s.file);
    ReplacingForgetsIff(driver, uid, a, s, s);
    SuccessRemovesAll(FirstEntry(ReadOr(s.file), uid), a.fates, s);
  }

  lemma AgreeIffForgotten(uid: UID, s: Store, t: Store, u: Store)
    requires Unlisted(uid, s, t) && ForgottenFrom(uid, s, u)
    ensures Agree(t, u, uid) <==> ForgottenFrom(uid, s, t)
  {
  }

  /** Exactly when Unprepare converges: attempts cut or failing anywhere, any number of times, of
      which at least one replaces the checkpoint, leave the stores as one undisturbed call does
      if and only if the first to replace it removed the directories that the ones before it had
      left. Failed removals of attempts that are cut before that do no harm. */
  lemma UnprepareConvergesIff(driver: Driver, uid: UID, attempts: seq<Attempt>, i: nat, undisturbed: Attempt, s: Store)
    requires ReadEntries(s.file).Some? && AllUnprepare(uid, attempts) && IsFirstToReplace(driver, attempts, s, i)
    requires IsUnprepareOf(uid, undisturbed) && OutcomeOf(driver, undisturbed, s.file).Returned?
    requires AllSucceed(undisturbed.fates, RemovalLength(FirstEntry(ReadEntries(s.file).value, uid)))
    ensures Agree(Serial(driver, attempts, s), Perform(driver, undisturbed, s), uid)
       <==> RemovesAll(FirstEntry(ReadOr(s.file), uid), attempts[i].fates, Serial(driver, attempts[..i], s).dirs)
  {
    AttemptsForgetIff(driver, uid, attempts, i, s);
    ReturningForgets(driver, uid, undisturbed, s);
    AgreeIffForgotten(uid, s, Serial(driver, attempts, s), Perform(driver, undisturbed, s));
  }

  lemma {:induction false} FirstExists(driver: Driver, attempts: seq<Attempt>, s: Store, n: nat) returns (i: nat)
    requires n < |attempts| && ReplacesAt(driver, attempts, s, n)
    ensures IsFirstToReplace(driver, attempts, s, i)
    decreases n
  {
    if j: nat :| j < n && ReplacesAt(driver, attempts, s, j) {
      i := FirstExists(driver, attempts, s, j);
    } else {
      i := n;
    }
  }

  /** An attempt that reports success has replaced the checkpoint. */
  lemma ReturnedReplacesAt(driver: Driver, attempts: seq<Attempt>, n: nat, s: Store)
    requires n < |attempts| && attempts[n].call.Unprepare? && attempts[n].readOk
    requires OutcomeOf(driver, attempts[n], Serial(driver, attempts[..n], s).file).Returned?
    ensures ReplacesAt(driver, attempts, s, n)
  {
    ReturnedReplaces(driver, attempts[n], Serial(driver, attempts[..n], s).file);
  }

  /** No attempt is the first to replace the checkpoint past a failed removal. */
  ghost predicate FirstIsClean(driver: Driver, uid: UID, attempts: seq<Attempt>, s: Store) {
    forall i: nat ::
        IsFirstToReplace(driver, attempts, s, i) ==>
        AllSucceed(attempts[i].fates, RemovalLength(FirstEntry(ReadOr(s.file), uid)))
  }

  /** In particular, retrying until an attempt reports success converges when no attempt is the
      first to replace the checkpoint past a failed removal. */
  lemma UnprepareConverges(driver: Driver, uid: UID, attempts: seq<Attempt>, n: nat, undisturbed: Attempt, s: Store)
    requires ReadEntries(s.file).Some? && AllUnprepare(uid, attempts) && IsUnprepareOf(uid, undisturbed)
    requires n < |attempts| && OutcomeOf(driver, attempts[n], Serial(driver, attempts[..n], s).file).Returned?
    requires OutcomeOf(driver, undisturbed, s.file).Returned?
    requires AllSucceed(undisturbed.fates, RemovalLength(FirstEntry(ReadEntries(s.file).value, uid)))
    requires FirstIsClean(driver, uid, attempts, s)
    ensures Agree(Serial(driver, attempts, s), Perform(driver, undisturbed, s), uid)
  {
    assert IsUnprepareOf(uid, attempts[n]);
    ReturnedReplacesAt(driver, attempts, n, s);
    var i := FirstExists(driver, attempts, s, n);
    SuccessRemovesAll(FirstEntry(ReadOr(s.file), uid), attempts[i].fates, Serial(driver, attempts[..i], s));
    UnprepareConvergesIff(driver, uid, attempts, i, undisturbed, s);
  }

  /** Exactly when an Unprepare that reports success has forgotten its claim: each recorded
      directory that was there lies at or below one whose removal succeeded. */
  lemma ReturnedForgetsIff(driver: Driver, uid: UID, a: Attempt, s: Store)
    requires ReadEntries(s.file).Some? && IsUnprepareOf(uid, a) && OutcomeOf(driver, a, s.file).Returned?
    ensures ForgottenFrom(uid, s, Perform(driver, a, s))
        <==> RemovesAll(FirstEntry(ReadOr(s.file), uid), a.fates, s.dirs)
  {
    ReturnedReplaces(driver, a, s.file);
    ReplacingForgetsIff(driver, uid, a, s, s);
  }

  lemma {:induction false} FailedRemovalIsIdle(ops: seq<Op>, fates: seq<bool>, s: Store)
    requires forall op :: op in ops ==> Tolerated(op)
    requires forall k :: 0 <= k < |ops| && k < |fates| ==> !fates[k]
    ensures After(ops, fates, s) == s
  {
    if ops != [] && fates != [] {
      assert ops[0] in ops && forall op :: op in ops[1..] ==> op in ops;
      FailedRemovalIsIdle(ops[1..], fates[1..], s);
    }
  }

  /** The proviso is needed: when every removal step fails, Unprepare still reports success,
      all directories stay, and no later Unprepare of the claim touches them. */
  lemma FailedRemovalLeaks(driver: Driver, uid: UID, a: Attempt, b: Attempt, s: Store)
    requires ReadEntries(s.file).Some? && a.call == b.call == Unprepare(uid) && a.readOk && b.readOk
    requires forall k :: 0 <= k < RemovalLength(FirstEntry(ReadOr(s.file), uid)) && k < |a.fates| ==> !a.fates[k]
    requires OutcomeOf(driver, a, s.file).Returned?
    ensures Perform(driver, a, s).dirs == s.dirs
    ensures Perform(driver, b, Perform(driver, a, s)).dirs == s.dirs
  {
    var t := Perform(driver, a, s);
    LeavesDirs(driver, uid, a, s);
    ReturnedReplaces(driver, a, s.file);
    PerformFile(driver, a, s);
    HoldsWithout(ReadOr(s.file), uid, uid);
    UnprepareUnknown(driver, uid, b, t);
  }

  lemma LeavesDirs(driver: Driver, uid: UID, a: Attempt, s: Store)
    requires ReadEntries(s.file).Some? && a.call == Unprepare(uid) && a.readOk
    requires forall k :: 0 <= k < RemovalLength(FirstEntry(ReadOr(s.file), uid)) && k < |a.fates| ==> !a.fates[k]
    ensures Perform(driver, a, s).dirs == s.dirs
  {
    var entry := FirstEntry(ReadOr(s.file), uid);
    UnprepareEffect(driver, a, s);
    if entry.Some? {
      RemovalTolerated(entry.value);
    }
    FailedRemovalIsIdle(EntryRemoval(entry), a.fates, s);
  }
}

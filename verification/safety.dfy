/** What the checkpoint promises about the specifications, at every cut of every run. */
module Safety {
  import opened Prelude
  import opened Claims
  import opened Cdi
  import opened Computed
  import opened Disk
  import opened Lifecycle
  import opened Ledger
  import opened Effects

  // ---- the history of a run ----

  /** The attempt records the claim. */
  ghost predicate Records(driver: Driver, a: Attempt, file: File, uid: UID) {
    a.call.Prepare? && a.call.claim.uid == uid && Replaces(driver, a, file)
  }

  /** Each identifier's claim as of the latest Prepare that recorded it. */
  ghost function History(driver: Driver, log: seq<Attempt>, file: File): map<UID, Claim> {
    if log == [] then map[]
    else
      var front, last := log[..|log| - 1], log[|log| - 1];
      NextHistory(driver, last, FileAfter(driver, front, file), History(driver, front, file))
  }

  ghost function NextHistory(driver: Driver, a: Attempt, file: File, h: map<UID, Claim>): map<UID, Claim> {
    if a.call.Prepare? && Replaces(driver, a, file) then h[a.call.claim.uid := a.call.claim] else h
  }

  /** The iteration orders are possible ones, and a claim that is prepared while it is recorded
      is the recorded one, or has a device of this driver and so is only restored. */
  ghost predicate IsNext(driver: Driver, a: Attempt, file: File, h: map<UID, Claim>) {
    && IsLegit(driver, a)
    && (a.call.Prepare? && Holds(ReadOr(file), a.call.claim.uid) ==>
          Own(driver, a.call.claim) != [] || (a.call.claim.uid in h && h[a.call.claim.uid] == a.call.claim))
  }

  ghost predicate IsRun(driver: Driver, log: seq<Attempt>, file: File) {
    log != [] ==>
      var front := log[..|log| - 1];
      IsRun(driver, front, file)
          && IsNext(driver, log[|log| - 1], FileAfter(driver, front, file), History(driver, front, file))
  }

  /** Where every claim has a device of this driver, every log is a run. Claims may change at any
      time, also while they are recorded. */
  lemma {:induction false} OwnRuns(driver: Driver, log: seq<Attempt>, file: File)
    requires AllLegit(driver, log) && AllOwn(driver, log)
    ensures IsRun(driver, log, file)
  {
    if log != [] {
      var front := log[..|log| - 1];
      assert forall i :: 0 <= i < |front| ==> front[i] == log[i];
      OwnRuns(driver, front, file);
      assert IsLegit(driver, log[|log| - 1]);
    }
  }

  /** The claims whose latest completed call is an Unprepare. */
  ghost function Dropped(driver: Driver, log: seq<Attempt>, file: File): set<UID> {
    if log == [] then {}
    else
      var front, last := log[..|log| - 1], log[|log| - 1];
      NextDropped(driver, last, FileAfter(driver, front, file), Dropped(driver, front, file))
  }

  ghost function NextDropped(driver: Driver, a: Attempt, file: File, dropped: set<UID>): set<UID> {
    if !Completes(driver, a, file) then dropped
    else
      match a.call
      case Prepare(claim, _, _) => dropped - {claim.uid}
      case Unprepare(uid) => dropped + {uid}
  }

  // ---- the invariant ----

  /** The claim of this entry is recorded as it was prepared, can be computed again, and has its
      specification on disk if and only if that has not been dropped. */
  ghost predicate SafeEntry(driver: Driver, h: map<UID, Claim>, dropped: set<UID>, specs: map<UID, Spec>, x: Entry) {
    && x.uid in h && h[x.uid].uid == x.uid && x == EntryOf(h[x.uid]) && Computable(driver, h[x.uid])
    && (x.uid in specs <==> x.uid !in dropped)
    && (x.uid in specs ==> IsSpecOf(driver, h[x.uid], specs[x.uid]))
  }

  ghost predicate Safe(driver: Driver, h: map<UID, Claim>, dropped: set<UID>, s: Store) {
    forall x :: x in ReadOr(s.file) ==> SafeEntry(driver, h, dropped, s.specs, x)
  }

  /** Preparing a recorded claim again replaces the checkpoint only if the claim is unchanged. */
  lemma HeldAgain(driver: Driver, a: Attempt, file: File, h: map<UID, Claim>)
    requires IsNext(driver, a, file, h) && a.call.Prepare? && Holds(ReadOr(file), a.call.claim.uid)
    requires Completes(driver, a, file)
    ensures Own(driver, a.call.claim) == [] && a.call.claim.uid in h && h[a.call.claim.uid] == a.call.claim
  {
    if Own(driver, a.call.claim) != [] {
      HeldIsRestored(driver, a, file);
    }
  }

  lemma ReplacesCompletes(driver: Driver, a: Attempt, file: File)
    requires a.call.Prepare? && Replaces(driver, a, file)
    ensures Completes(driver, a, file)
  {
    PrepareShape(driver, a, file);
  }

  /** The specification that a completed Prepare leaves. */
  lemma CompletedSpec(driver: Driver, a: Attempt, s: Store)
    requires IsLegit(driver, a) && a.call.Prepare? && Completes(driver, a, s.file)
    ensures var t, claim := Perform(driver, a, s), a.call.claim;
            claim.uid in t.specs && IsSpecOf(driver, claim, t.specs[claim.uid]) && Computable(driver, claim)
  {
    var spec := PrepareWritesSpec(driver, a, s);
    SpecOfComputed(driver, a.call.claim, a.call.first, a.call.second);
    ComputeSucceedsIff(driver, a.call.claim, a.call.first, a.call.second);
  }

  lemma PrepareSafeEntry(driver: Driver, h: map<UID, Claim>, dropped: set<UID>, a: Attempt, s: Store, x: Entry)
    requires IsNext(driver, a, s.file, h) && a.call.Prepare?
    requires x in ReadOr(s.file) && SafeEntry(driver, h, dropped, s.specs, x)
    ensures SafeEntry(driver, NextHistory(driver, a, s.file, h), NextDropped(driver, a, s.file, dropped),
        Perform(driver, a, s).specs, x)
  {
    HoldsMember(ReadOr(s.file), x.uid);
    if Replaces(driver, a, s.file) {
      ReplacesCompletes(driver, a, s.file);
    }
    if !Completes(driver, a, s.file) {
      PrepareKeepsSpecs(driver, a, s);
    } else {
      var spec := PrepareWritesSpec(driver, a, s);
      if x.uid == a.call.claim.uid {
        HeldAgain(driver, a, s.file, h);
        CompletedSpec(driver, a, s);
      }
    }
  }

  lemma NewSafeEntry(driver: Driver, h: map<UID, Claim>, dropped: set<UID>, a: Attempt, s: Store)
    requires IsLegit(driver, a) && a.call.Prepare? && Replaces(driver, a, s.file)
    ensures SafeEntry(driver, NextHistory(driver, a, s.file, h), NextDropped(driver, a, s.file, dropped),
        Perform(driver, a, s).specs, EntryOf(a.call.claim))
  {
    ReplacesCompletes(driver, a, s.file);
    CompletedSpec(driver, a, s);
  }

  lemma UnprepareSafeEntry(driver: Driver, h: map<UID, Claim>, dropped: set<UID>, a: Attempt, s: Store, x: Entry)
    requires a.call.Unprepare? && SafeEntry(driver, h, dropped, s.specs, x)
    ensures SafeEntry(driver, NextHistory(driver, a, s.file, h), NextDropped(driver, a, s.file, dropped),
        Perform(driver, a, s).specs, x)
  {
    if Readable(s.file, a.readOk).Some? {
      UnprepareEffect(driver, a, s);
    } else {
      UnreadableUnprepareForgetsAll(driver, a, s);
    }
  }

  lemma UnprepareKeepsEntries(driver: Driver, a: Attempt, s: Store, x: Entry)
    requires a.call.Unprepare? && x in ReadOr(Perform(driver, a, s).file)
    ensures x in ReadOr(s.file)
  {
    if Readable(s.file, a.readOk).Some? {
      UnprepareEntries(driver, a, s, x);
    } else {
      UnreadableUnprepareForgetsAll(driver, a, s);
    }
  }

  lemma NextIsSafe(driver: Driver, h: map<UID, Claim>, dropped: set<UID>, a: Attempt, s: Store)
    requires IsNext(driver, a, s.file, h) && Safe(driver, h, dropped, s)
    ensures Safe(driver, NextHistory(driver, a, s.file, h), NextDropped(driver, a, s.file, dropped),
        Perform(driver, a, s))
  {
    forall x | x in ReadOr(Perform(driver, a, s).file)
      ensures SafeEntry(driver, NextHistory(driver, a, s.file, h), NextDropped(driver, a, s.file, dropped),
          Perform(driver, a, s).specs, x)
    {
      if a.call.Prepare? {
        PrepareEntries(driver, a, s, x);
        if x in ReadOr(s.file) {
          PrepareSafeEntry(driver, h, dropped, a, s, x);
        } else {
          NewSafeEntry(driver, h, dropped, a, s);
        }
      } else {
        UnprepareKeepsEntries(driver, a, s, x);
        UnprepareSafeEntry(driver, h, dropped, a, s, x);
      }
    }
  }

  // ---- every run ----

  /** Safety at every cut of every run: each claim in the checkpoint on disk is recorded as it was
      prepared, and its specification is on disk if and only if no Unprepare of it has completed
      since, up to the point where it writes the new checkpoint. */
  lemma {:induction false} SafeAtEveryCut(driver: Driver, log: seq<Attempt>, s: Store)
    requires IsRun(driver, log, s.file) && ReadOr(s.file) == []
    ensures Safe(driver, History(driver, log, s.file), Dropped(driver, log, s.file), Serial(driver, log, s))
  {
    if log != [] {
      var front := log[..|log| - 1];
      SafeAtEveryCut(driver, front, s);
      SerialFile(driver, front, s);
      NextIsSafe(driver, History(driver, front, s.file), Dropped(driver, front, s.file), log[|log| - 1],
          Serial(driver, front, s));
    }
  }

  /** What that says of one claim. */
  lemma RecordedSafely(driver: Driver, log: seq<Attempt>, s: Store, uid: UID)
    requires IsRun(driver, log, s.file) && ReadOr(s.file) == []
    requires Holds(ReadOr(Serial(driver, log, s).file), uid)
    ensures var h, now := History(driver, log, s.file), Serial(driver, log, s);
            && uid in h && h[uid].uid == uid && Computable(driver, h[uid])
            && FirstEntry(ReadOr(now.file), uid) == Some(EntryOf(h[uid]))
            && (uid in now.specs <==> uid !in Dropped(driver, log, s.file))
            && (uid in now.specs ==> IsSpecOf(driver, h[uid], now.specs[uid]))
  {
    SafeAtEveryCut(driver, log, s);
    var x := FirstEntry(ReadOr(Serial(driver, log, s).file), uid).value;
    assert SafeEntry(driver, History(driver, log, s.file), Dropped(driver, log, s.file),
        Serial(driver, log, s).specs, x);
  }
}

/** The kubelet's batch calls: one call of the state per claim, in order. */
module Batches {
  import opened Claims
  import opened Disk
  import opened Lifecycle
  import opened Ledger
  import opened State

  /** What the environment does to one call of a batch. */
  datatype Environment = Environment(readOk: bool, fates: seq<bool>)

  datatype Reply = Success(devices: seq<Device>) | Failure

  function ReplyOf(outcome: Outcome): Reply {
    if outcome.Returned? then Success(outcome.devices) else Failure
  }

  function Subject(call: Call): UID {
    match call
    case Prepare(claim, _, _) => claim.uid
    case Unprepare(uid) => uid
  }

  /** What the calls of a log come to, in order. */
  ghost function Outcomes(driver: Driver, log: seq<Attempt>, file: File): (outcomes: seq<Outcome>)
    ensures |outcomes| == |log|
  {
    if log == [] then []
    else
      var front := log[..|log| - 1];
      Outcomes(driver, front, file) + [OutcomeOf(driver, log[|log| - 1], FileAfter(driver, front, file))]
  }

  /** The replies, a later one replacing an earlier one for the same claim. */
  ghost function Replies(log: seq<Attempt>, outcomes: seq<Outcome>): map<UID, Reply>
    requires |log| == |outcomes|
  {
    if log == [] then map[]
    else
      var n := |log| - 1;
      Replies(log[..n], outcomes[..n])[Subject(log[n].call) := ReplyOf(outcomes[n])]
  }

  ghost predicate IsPrepareCall(driver: Driver, claim: Claim, env: Environment, a: Attempt) {
    && a.call.Prepare? && a.call.claim == claim && IsLegit(driver, a)
    && a.readOk == env.readOk && a.fates == env.fates
  }

  /** `log` is the calls for the first claims of the batch, in order. */
  ghost predicate PrepareCalls(driver: Driver, claims: seq<Claim>, env: seq<Environment>, log: seq<Attempt>) {
    && |log| <= |claims| && |log| <= |env|
    && forall i :: 0 <= i < |log| ==> IsPrepareCall(driver, claims[i], env[i], log[i])
  }

  ghost predicate IsUnprepareCall(uid: UID, env: Environment, a: Attempt) {
    a == Attempt(Unprepare(uid), env.readOk, env.fates)
  }

  ghost predicate UnprepareCalls(uids: seq<UID>, env: seq<Environment>, log: seq<Attempt>) {
    && |log| <= |uids| && |log| <= |env|
    && forall i :: 0 <= i < |log| ==> IsUnprepareCall(uids[i], env[i], log[i])
  }

  /** The state after the calls of `log`, the replies to them, and whether one of them died. */
  ghost predicate Handled(driver: Driver, log: seq<Attempt>, s0: Store, s: Store, result: map<UID, Reply>, died: bool) {
    && s == Serial(driver, log, s0)
    && (died <==> Died in Outcomes(driver, log, s0.file))
    && result == Replies(log, Outcomes(driver, log, s0.file))
  }

  lemma HandledNothing(driver: Driver, s: Store)
    ensures Handled(driver, [], s, s, map[], false)
  {
  }

  lemma OneMoreOutcome(driver: Driver, log: seq<Attempt>, a: Attempt, s0: Store)
    ensures Serial(driver, log + [a], s0) == Perform(driver, a, Serial(driver, log, s0))
    ensures Outcomes(driver, log + [a], s0.file)
        == Outcomes(driver, log, s0.file) + [OutcomeOf(driver, a, Serial(driver, log, s0).file)]
  {
    assert (log + [a])[..|log|] == log;
    SerialFile(driver, log, s0);
  }

  lemma OneMoreReply(log: seq<Attempt>, outcomes: seq<Outcome>, a: Attempt, outcome: Outcome)
    requires |log| == |outcomes|
    ensures Replies(log + [a], outcomes + [outcome]) == Replies(log, outcomes)[Subject(a.call) := ReplyOf(outcome)]
  {
    assert (log + [a])[..|log|] == log && (outcomes + [outcome])[..|log|] == outcomes;
  }

  lemma HandledOneMore(driver: Driver, log: seq<Attempt>, s0: Store, s1: Store, result: map<UID, Reply>, a: Attempt,
      s2: Store, outcome: Outcome)
    requires Handled(driver, log, s0, s1, result, false)
    requires s2 == Perform(driver, a, s1) && outcome == OutcomeOf(driver, a, s1.file)
    ensures Handled(driver, log + [a], s0, s2, result[Subject(a.call) := ReplyOf(outcome)], outcome == Died)
  {
    OneMoreOutcome(driver, log, a, s0);
    OneMoreReply(log, Outcomes(driver, log, s0.file), a, outcome);
  }

  /** The process dies in no call but the last. */
  ghost predicate DiesLast(driver: Driver, log: seq<Attempt>, s0: Store) {
    log != [] ==> Died !in Outcomes(driver, log[..|log| - 1], s0.file)
  }

  lemma OneMoreDiesLast(driver: Driver, log: seq<Attempt>, a: Attempt, s0: Store)
    requires Died !in Outcomes(driver, log, s0.file)
    ensures DiesLast(driver, log + [a], s0)
  {
    assert (log + [a])[..|log|] == log;
  }

  lemma HandledFile(driver: Driver, log: seq<Attempt>, s0: Store, s: Store, result: map<UID, Reply>, died: bool)
    requires Handled(driver, log, s0, s, result, died)
    ensures s.file == Serial(driver, Kept(driver, log, s0.file), s0).file
  {
    FailedClaimsLeaveNoTrace(driver, log, s0);
  }

  lemma OneMoreCall(driver: Driver, claims: seq<Claim>, env: seq<Environment>, log: seq<Attempt>, a: Attempt)
    requires PrepareCalls(driver, claims, env, log) && |log| < |claims| && |log| < |env|
    requires IsPrepareCall(driver, claims[|log|], env[|log|], a)
    ensures PrepareCalls(driver, claims, env, log + [a])
  {
  }

  lemma OneMoreUnprepare(uids: seq<UID>, env: seq<Environment>, log: seq<Attempt>, a: Attempt)
    requires UnprepareCalls(uids, env, log) && |log| < |uids| && |log| < |env|
    requires IsUnprepareCall(uids[|log|], env[|log|], a)
    ensures UnprepareCalls(uids, env, log + [a])
  {
  }

  ghost predicate IsOutcomeAt(driver: Driver, log: seq<Attempt>, file: File, i: nat, outcome: Outcome) {
    i < |log| && outcome == OutcomeOf(driver, log[i], FileAfter(driver, log[..i], file))
  }

  lemma FrontOutcome(driver: Driver, log: seq<Attempt>, file: File, i: nat, outcome: Outcome)
    requires i < |log| - 1 && IsOutcomeAt(driver, log[..|log| - 1], file, i, outcome)
    ensures IsOutcomeAt(driver, log, file, i, outcome)
  {
    assert log[..|log| - 1][..i] == log[..i] && log[..|log| - 1][i] == log[i];
  }

  lemma FrontOutcomeAt(driver: Driver, log: seq<Attempt>, file: File, i: nat)
    requires i < |log| - 1
    requires IsOutcomeAt(driver, log[..|log| - 1], file, i, Outcomes(driver, log[..|log| - 1], file)[i])
    ensures IsOutcomeAt(driver, log, file, i, Outcomes(driver, log, file)[i])
  {
    var front := Outcomes(driver, log[..|log| - 1], file);
    FrontOutcome(driver, log, file, i, front[i]);
    assert Outcomes(driver, log, file)[..|log| - 1] == front;
  }

  lemma LastOutcomeAt(driver: Driver, log: seq<Attempt>, file: File)
    requires log != []
    ensures IsOutcomeAt(driver, log, file, |log| - 1, Outcomes(driver, log, file)[|log| - 1])
  {
  }

  lemma {:induction false} OutcomeAt(driver: Driver, log: seq<Attempt>, file: File, i: nat)
    requires i < |log|
    ensures IsOutcomeAt(driver, log, file, i, Outcomes(driver, log, file)[i])
  {
    if i < |log| - 1 {
      OutcomeAt(driver, log[..|log| - 1], file, i);
      FrontOutcomeAt(driver, log, file, i);
    } else {
      LastOutcomeAt(driver, log, file);
    }
  }

  /** What attempt `i` of the log comes to. */
  lemma OutcomeIs(driver: Driver, log: seq<Attempt>, file: File, i: nat)
    requires i < |log|
    ensures Outcomes(driver, log, file)[i] == OutcomeOf(driver, log[i], FileAfter(driver, log[..i], file))
  {
    OutcomeAt(driver, log, file, i);
  }

  /** There is a reply for each claim of the batch and for no other. */
  lemma {:induction false} RepliesCover(log: seq<Attempt>, outcomes: seq<Outcome>, uid: UID)
    requires |log| == |outcomes|
    ensures uid in Replies(log, outcomes) <==> exists i :: 0 <= i < |log| && Subject(log[i].call) == uid
  {
    if log != [] {
      var n := |log| - 1;
      RepliesCover(log[..n], outcomes[..n], uid);
      assert forall i :: 0 <= i < n ==> log[..n][i] == log[i];
    }
  }

  /** A claim's reply is that of its last call. */
  lemma {:induction false} ReplyIsLast(log: seq<Attempt>, outcomes: seq<Outcome>, i: nat)
    requires i < |log| == |outcomes| && forall j :: i < j < |log| ==> Subject(log[j].call) != Subject(log[i].call)
    ensures Subject(log[i].call) in Replies(log, outcomes)
    ensures Replies(log, outcomes)[Subject(log[i].call)] == ReplyOf(outcomes[i])
  {
    var n := |log| - 1;
    if i < n {
      ReplyIsLast(log[..n], outcomes[..n], i);
      assert Subject(log[n].call) != Subject(log[i].call);
    }
  }

  lemma CallSubject(driver: Driver, claims: seq<Claim>, env: seq<Environment>, log: seq<Attempt>, i: nat)
    requires PrepareCalls(driver, claims, env, log) && i < |log|
    ensures Subject(log[i].call) == claims[i].uid
  {
    assert IsPrepareCall(driver, claims[i], env[i], log[i]);
  }

  /** A batch that runs to its end has replies for exactly the identifiers of its claims. */
  lemma BatchReplies(driver: Driver, claims: seq<Claim>, env: seq<Environment>, log: seq<Attempt>,
      outcomes: seq<Outcome>, uid: UID)
    requires PrepareCalls(driver, claims, env, log) && |log| == |claims| == |outcomes|
    ensures uid in Replies(log, outcomes) <==> exists i :: 0 <= i < |claims| && claims[i].uid == uid
  {
    RepliesCover(log, outcomes, uid);
    if i :| 0 <= i < |log| && Subject(log[i].call) == uid {
      CallSubject(driver, claims, env, log, i);
    }
    if i :| 0 <= i < |claims| && claims[i].uid == uid {
      CallSubject(driver, claims, env, log, i);
    }
  }

  /** Each is that of the identifier's last call. */
  lemma BatchReplyIsLast(driver: Driver, claims: seq<Claim>, env: seq<Environment>, log: seq<Attempt>,
      outcomes: seq<Outcome>, i: nat)
    requires PrepareCalls(driver, claims, env, log) && |log| == |claims| == |outcomes|
    requires i < |claims| && forall j :: i < j < |claims| ==> claims[j].uid != claims[i].uid
    ensures claims[i].uid in Replies(log, outcomes) && Replies(log, outcomes)[claims[i].uid] == ReplyOf(outcomes[i])
  {
    CallSubject(driver, claims, env, log, i);
    forall j | i < j < |log| ensures Subject(log[j].call) != Subject(log[i].call) {
      CallSubject(driver, claims, env, log, j);
    }
    ReplyIsLast(log, outcomes, i);
  }

  class Server {
    const state: DeviceState

    constructor (state: DeviceState)
      ensures this.state == state
    {
      this.state := state;
    }

    /** Every claim is tried and has a reply, whatever became of the others, and the checkpoint
        is the one that the calls which replaced it produce alone. */
    method PrepareResourceClaims(claims: seq<Claim>, env: seq<Environment>)
        returns (result: map<UID, Reply>, died: bool, ghost log: seq<Attempt>)
      requires |env| == |claims|
      modifies state
      ensures PrepareCalls(state.driver, claims, env, log) && (!died ==> |log| == |claims|)
      ensures Handled(state.driver, log, old(state.Snapshot()), state.Snapshot(), result, died)
      ensures DiesLast(state.driver, log, old(state.Snapshot()))
      ensures state.file == Serial(state.driver, Kept(state.driver, log, old(state.file)), old(state.Snapshot())).file
    {
      result, died, log := map[], false, [];
      ghost var s0 := state.Snapshot();
      HandledNothing(state.driver, s0);
      for n := 0 to |claims|
        invariant !died && |log| == n && PrepareCalls(state.driver, claims, env, log)
        invariant Handled(state.driver, log, s0, state.Snapshot(), result, false)
        invariant DiesLast(state.driver, log, s0)
      {
        ghost var a;
        result, died, a := PrepareResourceClaim(claims[n], env[n], result, log, s0);
        OneMoreCall(state.driver, claims, env, log, a);
        OneMoreDiesLast(state.driver, log, a, s0);
        log := log + [a];
        if died { break; }
      }
      HandledFile(state.driver, log, s0, state.Snapshot(), result, died);
    }

    method PrepareResourceClaim(claim: Claim, env: Environment, replies: map<UID, Reply>, ghost log: seq<Attempt>,
        ghost s0: Store)
      returns (result: map<UID, Reply>, died: bool, ghost a: Attempt)
      requires Handled(state.driver, log, s0, state.Snapshot(), replies, false)
      modifies state
      ensures IsPrepareCall(state.driver, claim, env, a)
      ensures Handled(state.driver, log + [a], s0, state.Snapshot(), result, died)
    {
      ghost var s1, first, second := state.Snapshot(), [], [];
      var outcome;
      outcome, first, second := state.Prepare(claim, env.readOk, env.fates);
      a := Attempt(Call.Prepare(claim, first, second), env.readOk, env.fates);
      HandledOneMore(state.driver, log, s0, s1, replies, a, state.Snapshot(), outcome);
      return replies[claim.uid := ReplyOf(outcome)], outcome == Died, a;
    }

    method UnprepareResourceClaims(uids: seq<UID>, env: seq<Environment>)
        returns (result: map<UID, Reply>, died: bool, ghost log: seq<Attempt>)
      requires |env| == |uids|
      modifies state
      ensures UnprepareCalls(uids, env, log) && (!died ==> |log| == |uids|)
      ensures Handled(state.driver, log, old(state.Snapshot()), state.Snapshot(), result, died)
      ensures DiesLast(state.driver, log, old(state.Snapshot()))
      ensures state.file == Serial(state.driver, Kept(state.driver, log, old(state.file)), old(state.Snapshot())).file
    {
      result, died, log := map[], false, [];
      ghost var s0 := state.Snapshot();
      HandledNothing(state.driver, s0);
      for n := 0 to |uids|
        invariant !died && |log| == n && UnprepareCalls(uids, env, log)
        invariant Handled(state.driver, log, s0, state.Snapshot(), result, false)
        invariant DiesLast(state.driver, log, s0)
      {
        ghost var a;
        result, died, a := UnprepareResourceClaim(uids[n], env[n], result, log, s0);
        OneMoreUnprepare(uids, env, log, a);
        OneMoreDiesLast(state.driver, log, a, s0);
        log := log + [a];
        if died { break; }
      }
      HandledFile(state.driver, log, s0, state.Snapshot(), result, died);
    }

    method UnprepareResourceClaim(uid: UID, env: Environment, replies: map<UID, Reply>, ghost log: seq<Attempt>,
        ghost s0: Store)
      returns (result: map<UID, Reply>, died: bool, ghost a: Attempt)
      requires Handled(state.driver, log, s0, state.Snapshot(), replies, false)
      modifies state
      ensures IsUnprepareCall(uid, env, a)
      ensures Handled(state.driver, log + [a], s0, state.Snapshot(), result, died)
    {
      ghost var s1 := state.Snapshot();
      var outcome := state.Unprepare(uid, env.readOk, env.fates);
      a := Attempt(Unprepare(uid), env.readOk, env.fates);
      HandledOneMore(state.driver, log, s0, s1, replies, a, state.Snapshot(), outcome);
      return replies[uid := ReplyOf(outcome)], outcome == Died, a;
    }
  }
}

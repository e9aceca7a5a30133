/** The other direction of serialisability: every run of calls happens in some trace. */
module Realising {
  import opened Prelude
  import opened Claims
  import opened Disk
  import opened Lifecycle
  import opened Ledger
  import opened Concurrency

  /** Every fate decides a step: the call has not ended before. */
  ghost predicate DecidesAll(ops: seq<Op>, fates: seq<bool>) {
    forall k :: 0 <= k < |fates| ==> StatusOf(ops, fates[..k]) == Crashed
  }

  ghost predicate IsUsed(driver: Driver, a: Attempt, file: File) {
    DecidesAll(Ops(AttemptPlan(driver, a, file)), a.fates)
  }

  ghost predicate AllUsed(driver: Driver, log: seq<Attempt>, file: File) {
    log != [] ==>
      var front := log[..|log| - 1];
      AllUsed(driver, front, file) && IsUsed(driver, log[|log| - 1], FileAfter(driver, front, file))
  }

  /** Between calls: no threads, and the mutex free. */
  function Idle(s: Store, log: seq<Attempt>): Machine {
    Machine(s, None, map[], log)
  }

  lemma TraceStep(driver: Driver, events: seq<Event>, e: Event, m: Machine, m1: Machine)
    requires Trace(driver, events, m) == Some(m1) && Enabled(m1, e)
    ensures Trace(driver, events + [e], m) == Some(Next(driver, m1, e))
  {
    assert (events + [e])[..|events|] == events;
  }

  /** Thread 0 is in the call `a`, after these fates. */
  ghost predicate IsInside(driver: Driver, s: Store, log: seq<Attempt>, a: Attempt, fates: seq<bool>, m: Machine) {
    var ops := Ops(AttemptPlan(driver, a, s.file));
    && m.store == After(ops, fates, s) && m.log == log + [Attempt(a.call, a.readOk, fates)]
    && m.mutex == Some(0) && 0 in m.threads && m.threads[0].Running?
    && m.threads[0].call == a.call && m.threads[0].ending == AttemptPlan(driver, a, s.file).ending
    && (m.threads[0].failed <==> StatusOf(ops, fates) == Failed)
    && (StatusOf(ops, fates) == Completed ==> m.threads[0].todo == [])
    && (StatusOf(ops, fates) == Crashed ==> |fates| <= |ops| && m.threads[0].todo == ops[|fates|..])
  }

  /** A call begins. */
  lemma Begins(driver: Driver, s: Store, log: seq<Attempt>, a: Attempt) returns (events: seq<Event>, m: Machine)
    ensures Trace(driver, events, Idle(s, log)) == Some(m) && IsInside(driver, s, log, a, [], m)
  {
    var m0 := Idle(s, log);
    var m1 := Next(driver, m0, Start(0, a.call));
    var m2 := Next(driver, m1, Acquire(0));
    m := Next(driver, m2, Read(0, a.readOk));
    assert Trace(driver, [], m0) == Some(m0);
    TraceStep(driver, [], Start(0, a.call), m0, m0);
    TraceStep(driver, [] + [Start(0, a.call)], Acquire(0), m0, m1);
    TraceStep(driver, [] + [Start(0, a.call)] + [Acquire(0)], Read(0, a.readOk), m0, m2);
    events := [] + [Start(0, a.call)] + [Acquire(0)] + [Read(0, a.readOk)];
    assert m.log == log + [Attempt(a.call, a.readOk, [])];
  }

  /** One more fate is one more event. */
  lemma Goes(driver: Driver, s: Store, log: seq<Attempt>, a: Attempt, fates: seq<bool>, fate: bool,
      next: seq<bool>, m: Machine)
    requires next == fates + [fate]
    requires IsInside(driver, s, log, a, fates, m) && StatusOf(Ops(AttemptPlan(driver, a, s.file)), fates) == Crashed
    ensures Enabled(m, Advance(0, fate))
        && IsInside(driver, s, log, a, next, Next(driver, m, Advance(0, fate)))
  {
    var ops := Ops(AttemptPlan(driver, a, s.file));
    RunOneMore(ops, fates, fate, s);
    assert ops[|fates|..][1..] == ops[|fates| + 1..];
    AdvanceIs(driver, m, 0, fate);
    assert m.log[|m.log| - 1 := Attempt(a.call, a.readOk, next)] == log + [Attempt(a.call, a.readOk, next)];
  }

  ghost predicate Leads(driver: Driver, s: Store, log: seq<Attempt>, a: Attempt, n: nat, events: seq<Event>, m: Machine)
  {
    && n <= |a.fates| && Trace(driver, events, Idle(s, log)) == Some(m)
    && IsInside(driver, s, log, a, a.fates[..n], m)
  }

  lemma DecidesAt(ops: seq<Op>, fates: seq<bool>, n: nat)
    requires DecidesAll(ops, fates) && n < |fates|
    ensures StatusOf(ops, fates[..n]) == Crashed && fates[..n + 1] == fates[..n] + [fates[n]]
  {
  }

  lemma LeadsOn(driver: Driver, s: Store, log: seq<Attempt>, a: Attempt, n: nat, before: seq<Event>, m: Machine)
      returns (events: seq<Event>, m1: Machine)
    requires IsUsed(driver, a, s.file) && n < |a.fates| && Leads(driver, s, log, a, n, before, m)
    ensures Leads(driver, s, log, a, n + 1, events, m1)
  {
    DecidesAt(Ops(AttemptPlan(driver, a, s.file)), a.fates, n);
    Goes(driver, s, log, a, a.fates[..n], a.fates[n], a.fates[..n + 1], m);
    TraceStep(driver, before, Advance(0, a.fates[n]), Idle(s, log), m);
    events, m1 := before + [Advance(0, a.fates[n])], Next(driver, m, Advance(0, a.fates[n]));
  }

  lemma {:induction false} FatesHappen(driver: Driver, s: Store, log: seq<Attempt>, a: Attempt, n: nat)
      returns (events: seq<Event>, m: Machine)
    requires IsUsed(driver, a, s.file) && n <= |a.fates|
    ensures Leads(driver, s, log, a, n, events, m)
  {
    if n == 0 {
      events, m := Begins(driver, s, log, a);
    } else {
      var before, m1 := FatesHappen(driver, s, log, a, n - 1);
      events, m := LeadsOn(driver, s, log, a, n - 1, before, m1);
    }
  }

  lemma AttemptHappens(driver: Driver, s: Store, log: seq<Attempt>, a: Attempt) returns (events: seq<Event>)
    requires IsUsed(driver, a, s.file)
    ensures Trace(driver, events, Idle(s, log)) == Some(Idle(Perform(driver, a, s), log + [a]))
  {
    var before, m := FatesHappen(driver, s, log, a, |a.fates|);
    assert a.fates[..|a.fates|] == a.fates;
    TraceStep(driver, before, Crash, Idle(s, log), m);
    events := before + [Crash];
  }

  /** A call that has ended can release the mutex, and then returns what it comes to alone. */
  lemma AttemptFinishes(driver: Driver, s: Store, log: seq<Attempt>, a: Attempt)
      returns (events: seq<Event>, m: Machine)
    requires IsUsed(driver, a, s.file) && StatusOf(Ops(AttemptPlan(driver, a, s.file)), a.fates) != Crashed
    ensures Trace(driver, events, Idle(s, log)) == Some(m)
    ensures m.store == Perform(driver, a, s) && m.log == log + [a] && m.mutex == None
    ensures 0 in m.threads && m.threads[0] == Finished(a.call, |log|, OutcomeOf(driver, a, s.file))
  {
    var before, inside := FatesHappen(driver, s, log, a, |a.fates|);
    assert a.fates[..|a.fates|] == a.fates;
    TraceStep(driver, before, Release(0), Idle(s, log), inside);
    events, m := before + [Release(0)], Next(driver, inside, Release(0));
  }

  lemma {:induction false} TraceConcat(driver: Driver, events: seq<Event>, more: seq<Event>, m: Machine, m1: Machine)
    requires Trace(driver, events, m) == Some(m1)
    ensures Trace(driver, events + more, m) == Trace(driver, more, m1)
  {
    if more == [] {
      assert events + more == events;
    } else {
      var front, last := more[..|more| - 1], more[|more| - 1];
      TraceConcat(driver, events, front, m, m1);
      assert (events + more)[..|events + more| - 1] == events + front && (events + more)[|events + more| - 1] == last;
    }
  }

  lemma OneMoreHappens(driver: Driver, front: seq<Attempt>, a: Attempt, s: Store, before: seq<Event>)
      returns (events: seq<Event>)
    requires IsUsed(driver, a, FileAfter(driver, front, s.file))
    requires Trace(driver, before, Initial(s)) == Some(Idle(Serial(driver, front, s), front))
    ensures Trace(driver, events, Initial(s)) == Some(Idle(Serial(driver, front + [a], s), front + [a]))
  {
    SerialFile(driver, front, s);
    var more := AttemptHappens(driver, Serial(driver, front, s), front, a);
    TraceConcat(driver, before, more, Initial(s), Idle(Serial(driver, front, s), front));
    SerialStep(driver, front, a, s);
    events := before + more;
  }

  /** Every run of attempts whose fates all decide a step is what some trace does: it leaves the same
      stores, with the same log. */
  lemma {:induction false} EveryRunHappens(driver: Driver, log: seq<Attempt>, s: Store) returns (events: seq<Event>)
    requires AllUsed(driver, log, s.file)
    ensures Trace(driver, events, Initial(s)) == Some(Idle(Serial(driver, log, s), log))
  {
    if log == [] {
      events := [];
    } else {
      var front, last := log[..|log| - 1], log[|log| - 1];
      var before := EveryRunHappens(driver, front, s);
      events := OneMoreHappens(driver, front, last, s, before);
      assert front + [last] == log;
    }
  }
}

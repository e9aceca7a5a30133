/** Any number of threads in one process, taking the mutex around each call, with the
    process dying and restarting at any point. */
module Concurrency {
  import opened Prelude
  import opened Claims
  import opened Disk
  import opened Lifecycle
  import opened Ledger
  import opened Directories
  import opened Paths
  import opened Safety
  import opened Sweeping

  /** A call in a thread: waiting for the mutex, holding it before the checkpoint is read,
      holding it with steps to go, or done. `place` is its place in the log. */
  datatype Thread =
    | Waiting(call: Call)
    | Locked(call: Call)
    | Running(call: Call, todo: seq<Op>, ending: Ending, failed: bool)
    | Finished(call: Call, place: nat, outcome: Outcome)

  /** `log` is a history variable: the calls in the order in which they took the mutex, each
      with what the environment has done to it so far. */
  datatype Machine = Machine(store: Store, mutex: Option<nat>, threads: map<nat, Thread>, log: seq<Attempt>)

  datatype Event =
    | Start(thread: nat, call: Call)
    | Acquire(thread: nat)
    | Read(thread: nat, ok: bool)
    | Advance(thread: nat, fate: bool)
    | Release(thread: nat)
    | Crash

  ghost predicate Enabled(m: Machine, e: Event) {
    match e
    case Start(t, _) => t !in m.threads
    case Acquire(t) => t in m.threads && m.threads[t].Waiting? && m.mutex.None?
    case Read(t, _) => t in m.threads && m.threads[t].Locked? && m.log != []
    case Advance(t, _) => t in m.threads && m.threads[t].Running? && !m.threads[t].failed && m.threads[t].todo != []
        && m.log != []
    case Release(t) => t in m.threads && m.threads[t].Running? && (m.threads[t].failed || m.threads[t].todo == [])
        && m.log != []
    case Crash => true
  }

  ghost function Next(driver: Driver, m: Machine, e: Event): Machine
    requires Enabled(m, e)
  {
    match e
    case Start(t, call) => m.(threads := m.threads[t := Waiting(call)])
    case Acquire(t) =>
      var call := m.threads[t].call;
      m.(mutex := Some(t), threads := m.threads[t := Locked(call)], log := m.log + [Attempt(call, true, [])])
    case Read(t, ok) =>
      var call := m.threads[t].call;
      var plan := PlanOf(driver, call, m.store.file, ok);
      m.(threads := m.threads[t := Running(call, Ops(plan), plan.ending, false)],
         log := m.log[|m.log| - 1 := m.log[|m.log| - 1].(readOk := ok)])
    case Advance(t, fate) =>
      var r, op, last := m.threads[t], m.threads[t].todo[0], m.log[|m.log| - 1];
      m.(store := if fate then Apply(op, m.store) else m.store,
         threads := m.threads[t := if fate || Tolerated(op) then r.(todo := r.todo[1..]) else r.(failed := true)],
         log := m.log[|m.log| - 1 := last.(fates := last.fates + [fate])])
    case Release(t) =>
      var r := m.threads[t];
      m.(mutex := None,
         threads := m.threads[t := Finished(r.call, |m.log| - 1,
             Conclude(if r.failed then Failed else Completed, r.ending))])
    case Crash => m.(mutex := None, threads := map[])
  }

  /** The machine after a trace; `None` if some event was not enabled. */
  ghost function Trace(driver: Driver, events: seq<Event>, m: Machine): Option<Machine> {
    if events == [] then Some(m)
    else
      var before := Trace(driver, events[..|events| - 1], m);
      var e := events[|events| - 1];
      if before.Some? && Enabled(before.value, e) then Some(Next(driver, before.value, e)) else None
  }

  function Initial(s: Store): Machine {
    Machine(s, None, map[], [])
  }

  // ---- the invariant ----

  ghost predicate Holding(t: Thread) {
    t.Locked? || t.Running?
  }

  /** How far the thread that holds the mutex has got with the last call of the log. */
  ghost predicate InProgress(driver: Driver, thread: Thread, a: Attempt, base: File) {
    && thread.call == a.call
    && (thread.Locked? ==> a.fates == [])
    && (thread.Running? ==>
          var plan := AttemptPlan(driver, a, base);
          thread.ending == plan.ending && Amid(Ops(plan), a.fates, thread.todo, thread.failed))
  }

  /** These fates leave these steps to do. */
  ghost predicate Amid(ops: seq<Op>, fates: seq<bool>, todo: seq<Op>, failed: bool) {
    if failed then StatusOf(ops, fates) == Failed
    else
      && |fates| <= |ops| && todo == ops[|fates|..]
      && StatusOf(ops, fates) == if todo == [] then Completed else Crashed
  }

  ghost predicate OnlyHolder(mutex: Option<nat>, threads: map<nat, Thread>) {
    forall t :: t in threads && Holding(threads[t]) ==> mutex == Some(t)
  }

  /** At most the thread with the mutex is in a call, and it is busy with the last one. */
  ghost predicate MutexHeld(driver: Driver, m: Machine, s: Store) {
    && OnlyHolder(m.mutex, m.threads)
    && (m.mutex.Some? ==>
          && m.mutex.value in m.threads && Holding(m.threads[m.mutex.value]) && m.log != []
          && InProgress(driver, m.threads[m.mutex.value], m.log[|m.log| - 1],
               Serial(driver, m.log[..|m.log| - 1], s).file))
  }

  /** A finished call returned what it returns in the serial run. */
  ghost predicate ReturnedSerially(driver: Driver, thread: Thread, log: seq<Attempt>, s: Store) {
    thread.Finished? ==>
      && thread.place < |log| && log[thread.place].call == thread.call
      && thread.outcome == OutcomeOf(driver, log[thread.place], Serial(driver, log[..thread.place], s).file)
  }

  ghost predicate AllReturned(driver: Driver, threads: map<nat, Thread>, log: seq<Attempt>, s: Store) {
    forall t :: t in threads ==> ReturnedSerially(driver, threads[t], log, s)
  }

  /** While the mutex is held, the last call of the log is not finished. */
  ghost predicate LastUnfinished(m: Machine) {
    m.mutex.Some? ==> forall t :: t in m.threads && m.threads[t].Finished? ==> m.threads[t].place < |m.log| - 1
  }

  ghost predicate Serialised(driver: Driver, m: Machine, s: Store) {
    && m.store == Serial(driver, m.log, s)
    && MutexHeld(driver, m, s)
    && LastUnfinished(m)
    && AllReturned(driver, m.threads, m.log, s)
  }

  // ---- each event keeps it ----

  lemma Unstarted(driver: Driver, call: Call, readOk: bool, s: Store)
    ensures Perform(driver, Attempt(call, readOk, []), s) == s
  {
  }

  /** Finished calls keep their place when the log changes behind it. */
  lemma PlacesKept(driver: Driver, thread: Thread, log: seq<Attempt>, log': seq<Attempt>, n: nat, s: Store)
    requires ReturnedSerially(driver, thread, log, s)
    requires n <= |log| && n <= |log'| && log[..n] == log'[..n] && (thread.Finished? ==> thread.place < n)
    ensures ReturnedSerially(driver, thread, log', s)
  {
    if thread.Finished? {
      assert log[thread.place] == log[..n][thread.place] && log'[thread.place] == log'[..n][thread.place];
      assert log[..thread.place] == log[..n][..thread.place] && log'[..thread.place] == log'[..n][..thread.place];
    }
  }

  lemma AcquireKeeps(driver: Driver, m: Machine, t: nat, s: Store)
    requires Serialised(driver, m, s) && Enabled(m, Acquire(t))
    ensures Serialised(driver, Next(driver, m, Acquire(t)), s)
  {
    var m', call := Next(driver, m, Acquire(t)), m.threads[t].call;
    SerialStep(driver, m.log, Attempt(call, true, []), s);
    Unstarted(driver, call, true, m.store);
    assert m'.log[..|m'.log| - 1] == m.log;
    forall u | u in m'.threads ensures ReturnedSerially(driver, m'.threads[u], m'.log, s) {
      if u != t {
        assert m.log[..|m.log|] == m'.log[..|m.log|];
        PlacesKept(driver, m.threads[u], m.log, m'.log, |m.log|, s);
      }
    }
  }

  /** Finished calls are not disturbed when the thread with the mutex moves on. */
  lemma OthersKept(driver: Driver, m: Machine, t: nat, thread: Thread, a: Attempt, s: Store)
    requires m.log != [] && m.mutex.Some? && LastUnfinished(m) && !thread.Finished?
    requires AllReturned(driver, m.threads, m.log, s)
    ensures AllReturned(driver, m.threads[t := thread], m.log[|m.log| - 1 := a], s)
  {
    var n, threads' := |m.log| - 1, m.threads[t := thread];
    assert m.log[n := a][..n] == m.log[..n];
    forall u | u in threads' ensures ReturnedSerially(driver, threads'[u], m.log[n := a], s) {
      if u != t {
        PlacesKept(driver, m.threads[u], m.log, m.log[n := a], n, s);
      }
    }
  }

  lemma MutexStays(driver: Driver, m: Machine, t: nat, thread: Thread, a: Attempt, store: Store, s: Store)
    requires MutexHeld(driver, m, s) && m.mutex == Some(t) && Holding(thread)
    requires InProgress(driver, thread, a, Serial(driver, m.log[..|m.log| - 1], s).file)
    ensures MutexHeld(driver, Machine(store, m.mutex, m.threads[t := thread], m.log[|m.log| - 1 := a]), s)
  {
    var n := |m.log| - 1;
    assert m.log[n := a][..n] == m.log[..n];
    StillOnlyHolder(m.mutex, m.threads, t, thread);
  }

  lemma StillOnlyHolder(mutex: Option<nat>, threads: map<nat, Thread>, t: nat, thread: Thread)
    requires OnlyHolder(mutex, threads) && (Holding(thread) ==> mutex == Some(t))
    ensures OnlyHolder(mutex, threads[t := thread])
  {
  }

  /** The thread with the mutex moves on, and the last call of the log with it. */
  lemma LastMoves(driver: Driver, m: Machine, t: nat, thread: Thread, a: Attempt, store: Store, s: Store)
    requires Serialised(driver, m, s) && m.mutex == Some(t) && Holding(thread)
    requires store == Perform(driver, a, Serial(driver, m.log[..|m.log| - 1], s))
    requires InProgress(driver, thread, a, Serial(driver, m.log[..|m.log| - 1], s).file)
    ensures Serialised(driver, Machine(store, m.mutex, m.threads[t := thread], m.log[|m.log| - 1 := a]), s)
  {
    MutexStays(driver, m, t, thread, a, store, s);
    OthersKept(driver, m, t, thread, a, s);
    LastStep(driver, m.log, a, s);
  }

  lemma LastStep(driver: Driver, log: seq<Attempt>, a: Attempt, s: Store)
    requires log != []
    ensures Serial(driver, log[|log| - 1 := a], s) == Perform(driver, a, Serial(driver, log[..|log| - 1], s))
  {
    var n := |log| - 1;
    assert log[n := a] == log[..n] + [a];
    SerialStep(driver, log[..n], a, s);
  }

  lemma Begins(driver: Driver, call: Call, ok: bool, base: File)
    ensures var plan := PlanOf(driver, call, base, ok);
            InProgress(driver, Running(call, Ops(plan), plan.ending, false), Attempt(call, ok, []), base)
  {
  }

  lemma ReadKeeps(driver: Driver, m: Machine, t: nat, ok: bool, s: Store)
    requires Serialised(driver, m, s) && Enabled(m, Read(t, ok))
    ensures Serialised(driver, Next(driver, m, Read(t, ok)), s)
  {
    assert Holding(m.threads[t]);
    var call, n := m.threads[t].call, |m.log| - 1;
    var base := Serial(driver, m.log[..n], s);
    assert m.log[n := m.log[n]] == m.log;
    LastStep(driver, m.log, m.log[n], s);
    Unstarted(driver, call, m.log[n].readOk, base);
    Unstarted(driver, call, ok, base);
    Begins(driver, call, ok, base.file);
    var plan := PlanOf(driver, call, m.store.file, ok);
    LastMoves(driver, m, t, Running(call, Ops(plan), plan.ending, false), Attempt(call, ok, []), base, s);
  }

  lemma AmidAdvances(ops: seq<Op>, fates: seq<bool>, todo: seq<Op>, fate: bool, s: Store)
    requires Amid(ops, fates, todo, false) && todo != []
    ensures Amid(ops, fates + [fate], if fate || Tolerated(todo[0]) then todo[1..]
        else todo, !fate && !Tolerated(todo[0]))
    ensures After(ops, fates + [fate], s) == if fate then Apply(todo[0], After(ops, fates, s)) else After(ops, fates, s)
  {
    RunOneMore(ops, fates, fate, s);
    assert todo[1..] == ops[|fates| + 1..];
  }

  /** One durable step of the thread that holds the mutex is one more step of its call. */
  lemma Advances(driver: Driver, r: Thread, a: Attempt, fate: bool, base: Store)
    requires InProgress(driver, r, a, base.file) && r.Running? && !r.failed && r.todo != []
    ensures var op, a', now := r.todo[0], a.(fates := a.fates + [fate]), Perform(driver, a, base);
            && InProgress(driver, if fate || Tolerated(op) then r.(todo := r.todo[1..])
                 else r.(failed := true), a', base.file)
            && Perform(driver, a', base) == (if fate then Apply(op, now) else now)
  {
    AmidAdvances(Ops(AttemptPlan(driver, a, base.file)), a.fates, r.todo, fate, base);
  }

  lemma AdvanceIs(driver: Driver, m: Machine, t: nat, fate: bool)
    requires Enabled(m, Advance(t, fate))
    ensures var r, last := m.threads[t], m.log[|m.log| - 1];
            var r' := if fate || Tolerated(r.todo[0]) then r.(todo := r.todo[1..]) else r.(failed := true);
            Next(driver, m, Advance(t, fate)) ==
              Machine(if fate then Apply(r.todo[0], m.store) else m.store, m.mutex, m.threads[t := r'],
                      m.log[|m.log| - 1 := last.(fates := last.fates + [fate])])
  {
  }

  lemma AdvanceKeeps(driver: Driver, m: Machine, t: nat, fate: bool, s: Store)
    requires Serialised(driver, m, s) && Enabled(m, Advance(t, fate))
    ensures Serialised(driver, Next(driver, m, Advance(t, fate)), s)
  {
    assert Holding(m.threads[t]);
    var n := |m.log| - 1;
    var r, a, base := m.threads[t], m.log[n], Serial(driver, m.log[..n], s);
    assert m.log[n := a] == m.log;
    LastStep(driver, m.log, a, s);
    Advances(driver, r, a, fate, base);
    var r' := if fate || Tolerated(r.todo[0]) then r.(todo := r.todo[1..]) else r.(failed := true);
    var store' := if fate then Apply(r.todo[0], m.store) else m.store;
    LastMoves(driver, m, t, r', a.(fates := a.fates + [fate]), store', s);
    AdvanceIs(driver, m, t, fate);
  }

  lemma ReleaseKeeps(driver: Driver, m: Machine, t: nat, s: Store)
    requires Serialised(driver, m, s) && Enabled(m, Release(t))
    ensures Serialised(driver, Next(driver, m, Release(t)), s)
  {
    assert Holding(m.threads[t]);
    Ends(driver, m.threads[t], m.log[|m.log| - 1], Serial(driver, m.log[..|m.log| - 1], s).file);
    var threads' := Next(driver, m, Release(t)).threads;
    forall u | u in threads' ensures ReturnedSerially(driver, threads'[u], m.log, s) {
      if u != t {
        assert threads'[u] == m.threads[u];
      }
    }
  }

  /** A call that has nothing left to do comes to what it comes to in the serial run. */
  lemma Ends(driver: Driver, r: Thread, a: Attempt, base: File)
    requires InProgress(driver, r, a, base) && r.Running? && (r.failed || r.todo == [])
    ensures Conclude(if r.failed then Failed else Completed, r.ending) == OutcomeOf(driver, a, base)
  {
  }

  lemma EventKeeps(driver: Driver, m: Machine, e: Event, s: Store)
    requires Serialised(driver, m, s) && Enabled(m, e)
    ensures Serialised(driver, Next(driver, m, e), s)
  {
    match e
    case Start(_, _) =>
    case Acquire(t) => AcquireKeeps(driver, m, t, s);
    case Read(t, ok) => ReadKeeps(driver, m, t, ok, s);
    case Advance(t, fate) => AdvanceKeeps(driver, m, t, fate, s);
    case Release(t) => ReleaseKeeps(driver, m, t, s);
    case Crash =>
  }

  /** Serialisability: after every trace of every number of threads, with any number of
      crashes, the stores are those of the calls run one by one in the order in which they
      took the mutex, and every finished call returned what it returns there. */
  lemma {:induction false} Serialisability(driver: Driver, events: seq<Event>, s: Store)
    requires Trace(driver, events, Initial(s)).Some?
    ensures Serialised(driver, Trace(driver, events, Initial(s)).value, s)
  {
    if events != [] {
      var front := events[..|events| - 1];
      Serialisability(driver, front, s);
      EventKeeps(driver, Trace(driver, front, Initial(s)).value, events[|events| - 1], s);
    }
  }

  /** Safety therefore holds in every state of every concurrent run: specifications and, per
      directory, what setup put there. */
  lemma SafeUnderConcurrency(driver: Driver, events: seq<Event>, s: Store)
    requires Trace(driver, events, Initial(s)).Some? && ReadOr(s.file) == []
    requires IsRun(driver, Trace(driver, events, Initial(s)).value.log, s.file)
    ensures var m := Trace(driver, events, Initial(s)).value;
            Safe(driver, History(driver, m.log, s.file), Dropped(driver, m.log, s.file), m.store)
  {
    Serialisability(driver, events, s);
    SafeAtEveryCut(driver, Trace(driver, events, Initial(s)).value.log, s);
  }

  lemma DirectoryUnderConcurrency(driver: Driver, events: seq<Event>, s: Store, claim: Claim, q: Path)
    requires Trace(driver, events, Initial(s)).Some? && ReadOr(s.file) == []
    requires IsRun(driver, Trace(driver, events, Initial(s)).value.log, s.file)
    requires Holds(ReadOr(Trace(driver, events, Initial(s)).value.store.file), claim.uid)
    requires var h := History(driver, Trace(driver, events, Initial(s)).value.log, s.file);
             claim.uid in h && h[claim.uid] == claim
    requires q in Metadata(claim.name, Own(driver, claim))
    requires !Refilled(driver, Trace(driver, events, Initial(s)).value.log, s.file, claim.uid, q)
    ensures var m := Trace(driver, events, Initial(s)).value;
            OnDisk(driver, claim, m.store.dirs, q) <==> !Swept(driver, m.log, s.file, claim.uid, q)
  {
    Serialisability(driver, events, s);
    DirectoryOnDiskIff(driver, Trace(driver, events, Initial(s)).value.log, s, claim, q);
  }
}

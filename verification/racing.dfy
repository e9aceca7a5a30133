/** Two calls without the mutex. */
module Racing {
  import opened Claims
  import opened Disk
  import opened Lifecycle
  import opened Ledger

  /** A thread in a call: the attempt as far as it has got, and the thread's own temporary files. */
  datatype Writer = Writer(attempt: Attempt, temps: seq<Content>)

  datatype Duo = Duo(s: Store, a: Writer, b: Writer)

  /** The first or the second thread takes a step, which succeeds or fails. */
  datatype Turn = Turn(first: bool, fate: bool)

  /** The steps of a thread that read the checkpoint file when it was `read`. */
  ghost function Todo(driver: Driver, read: File, w: Writer): seq<Op> {
    Ops(AttemptPlan(driver, w.attempt, read))
  }

  ghost predicate IsRunning(driver: Driver, read: File, w: Writer) {
    StatusOf(Todo(driver, read, w), w.attempt.fates) == Crashed && |w.attempt.fates| < |Todo(driver, read, w)|
  }

  ghost function NextStore(driver: Driver, read: File, s: Store, w: Writer, fate: bool): Store {
    if IsRunning(driver, read, w) && fate
    then Apply(Todo(driver, read, w)[|w.attempt.fates|], s.(temps := w.temps)).(temps := s.temps)
    else s
  }

  ghost function NextWriter(driver: Driver, read: File, s: Store, w: Writer, fate: bool): Writer {
    if !IsRunning(driver, read, w) then w
    else
      var next := w.attempt.(fates := w.attempt.fates + [fate]);
      var temps := if fate then Apply(Todo(driver, read, w)[|w.attempt.fates|], s.(temps := w.temps)).temps
          else w.temps;
      Writer(next, temps)
  }

  /** The stores and the threads after these turns, in any order. */
  ghost function Race(driver: Driver, read: File, d: Duo, turns: seq<Turn>): Duo {
    if turns == [] then d
    else
      var before, last := Race(driver, read, d, turns[..|turns| - 1]), turns[|turns| - 1];
      if last.first
      then Duo(NextStore(driver, read, before.s, before.a, last.fate),
          NextWriter(driver, read, before.s, before.a, last.fate), before.b)
      else Duo(NextStore(driver, read, before.s, before.b, last.fate), before.a,
          NextWriter(driver, read, before.s, before.b, last.fate))
  }

  /** The thread's steps so far, run alone from the checkpoint that it read. */
  ghost function Alone(driver: Driver, read: File, w: Writer): Store {
    After(Todo(driver, read, w), w.attempt.fates, Store(read, [], map[], map[]))
  }

  /** A step does to a thread's temporary files what it does alone, and leaves the checkpoint file as
      it is or as it leaves it alone. */
  lemma SameTemps(op: Op, s: Store, t: Store)
    requires s.temps == t.temps
    ensures Apply(op, s).temps == Apply(op, t).temps
    ensures Apply(op, s).file == Apply(op, t).file || (Apply(op, s).file == s.file && Apply(op, t).file == t.file)
  {
  }

  lemma TurnAlone(driver: Driver, read: File, s: Store, w: Writer, fate: bool)
    requires w.temps == Alone(driver, read, w).temps
    ensures var s', w' := NextStore(driver, read, s, w, fate), NextWriter(driver, read, s, w, fate);
            && w'.temps == Alone(driver, read, w').temps
            && w'.attempt.call == w.attempt.call && w'.attempt.readOk == w.attempt.readOk
            && (s'.file == Alone(driver, read, w').file
                || (s'.file == s.file && Alone(driver, read, w').file == Alone(driver, read, w).file))
  {
    if IsRunning(driver, read, w) {
      var ops := Todo(driver, read, w);
      RunOneMore(ops, w.attempt.fates, fate, Store(read, [], map[], map[]));
      SameTemps(ops[|w.attempt.fates|], s.(temps := w.temps), Alone(driver, read, w));
    }
  }

  /** The checkpoint file is the one that one of the two threads leaves alone. */
  ghost predicate OneHasWritten(driver: Driver, read: File, d: Duo) {
    && d.a.temps == Alone(driver, read, d.a).temps && d.b.temps == Alone(driver, read, d.b).temps
    && (d.s.file == Alone(driver, read, d.a).file || d.s.file == Alone(driver, read, d.b).file)
  }

  ghost predicate SameCalls(d: Duo, d': Duo) {
    && d.a.attempt.call == d'.a.attempt.call && d.a.attempt.readOk == d'.a.attempt.readOk
    && d.b.attempt.call == d'.b.attempt.call && d.b.attempt.readOk == d'.b.attempt.readOk
  }

  lemma {:induction false} RaceKeeps(driver: Driver, read: File, d: Duo, turns: seq<Turn>)
    requires OneHasWritten(driver, read, d)
    ensures OneHasWritten(driver, read, Race(driver, read, d, turns)) && SameCalls(d, Race(driver, read, d, turns))
  {
    if turns != [] {
      var front, last := turns[..|turns| - 1], turns[|turns| - 1];
      RaceKeeps(driver, read, d, front);
      var before := Race(driver, read, d, front);
      TurnAlone(driver, read, before.s, if last.first then before.a else before.b, last.fate);
    }
  }

  /** A first Prepare that returns writes the entries that it read and its own. */
  lemma WritesWhatItRead(driver: Driver, read: File, w: Writer)
    requires w.attempt.call.Prepare? && !Holds(ReadOr(read), w.attempt.call.claim.uid)
    requires OutcomeOf(driver, w.attempt, read).Returned?
    ensures Alone(driver, read, w).file == Present(Whole(ReadOr(read) + [EntryOf(w.attempt.call.claim)]))
  {
    FirstReturnReplaces(driver, w.attempt, read);
    FirstPrepareAppends(driver, w.attempt, read);
    PlanFile(driver, w.attempt, read, Store(read, [], map[], map[]));
  }

  lemma HoldsOne(entries: seq<Entry>, x: Entry, uid: UID)
    requires !Holds(entries, uid) && !Holds(entries, x.uid) && x.uid != uid
    ensures Holds(entries + [x], x.uid) && !Holds(entries + [x], uid)
  {
    HoldsAppend(entries, x, uid);
    HoldsAppend(entries, x, x.uid);
  }

  /** Two threads that have both read the checkpoint file `read`. */
  function Begin(s: Store, a: Call, b: Call): Duo {
    Duo(s, Writer(Attempt(a, true, []), []), Writer(Attempt(b, true, []), []))
  }

  /** Without the mutex an update is lost: when the first Prepares of two claims read the same
      checkpoint, then in whatever order their steps interleave, once both have reported success
      exactly one of the two claims is in the checkpoint. */
  lemma WithoutMutexUpdatesAreLost(driver: Driver, a: Call, b: Call, s: Store, turns: seq<Turn>)
    requires a.Prepare? && b.Prepare? && a.claim.uid != b.claim.uid
    requires !Holds(ReadOr(s.file), a.claim.uid) && !Holds(ReadOr(s.file), b.claim.uid)
    requires var end := Race(driver, s.file, Begin(s, a, b), turns);
             OutcomeOf(driver, end.a.attempt, s.file).Returned? && OutcomeOf(driver, end.b.attempt, s.file).Returned?
    ensures var end := Race(driver, s.file, Begin(s, a, b), turns);
            Holds(ReadOr(end.s.file), a.claim.uid) <==> !Holds(ReadOr(end.s.file), b.claim.uid)
  {
    RaceKeeps(driver, s.file, Begin(s, a, b), turns);
    OneIsLost(driver, s.file, Race(driver, s.file, Begin(s, a, b), turns), a.claim, b.claim);
  }

  lemma OneIsLost(driver: Driver, read: File, d: Duo, a: Claim, b: Claim)
    requires OneHasWritten(driver, read, d) && a.uid != b.uid
    requires d.a.attempt.call.Prepare? && d.a.attempt.call.claim == a && !Holds(ReadOr(read), a.uid)
    requires d.b.attempt.call.Prepare? && d.b.attempt.call.claim == b && !Holds(ReadOr(read), b.uid)
    requires OutcomeOf(driver, d.a.attempt, read).Returned? && OutcomeOf(driver, d.b.attempt, read).Returned?
    ensures Holds(ReadOr(d.s.file), a.uid) <==> !Holds(ReadOr(d.s.file), b.uid)
  {
    WritesWhatItRead(driver, read, d.a);
    WritesWhatItRead(driver, read, d.b);
    EitherFile(ReadOr(read), EntryOf(a), EntryOf(b), d.s.file);
  }

  lemma EitherFile(entries: seq<Entry>, x: Entry, y: Entry, file: File)
    requires x.uid != y.uid && !Holds(entries, x.uid) && !Holds(entries, y.uid)
    requires file == Present(Whole(entries + [x])) || file == Present(Whole(entries + [y]))
    ensures Holds(ReadOr(file), x.uid) <==> !Holds(ReadOr(file), y.uid)
  {
    HoldsOne(entries, x, y.uid);
    HoldsOne(entries, y, x.uid);
  }
}

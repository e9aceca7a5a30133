/** The driver's durable state and the steps that change it. A call is a list of steps;
    the environment decides how far it gets and which steps fail. */
module Disk {
  import opened Prelude
  import opened Claims
  import opened Paths
  import opened Cdi

  /** One prepared claim in the checkpoint. */
  datatype Entry = Entry(uid: UID, name: string, devices: seq<string>, deviceRequests: map<string, string>)

  /** A checkpoint file's text: a whole encoding, or anything that does not decode. */
  datatype Content = Torn | Whole(entries: seq<Entry>)

  datatype File = Missing | Present(content: Content)

  /** The checkpoint file, temporary checkpoint files (the newest last), the CDI
      specifications by claim, and the claim directories with the device named in their
      `device.json` (`None` while that file is absent or incomplete). */
  datatype Store = Store(file: File, temps: seq<Content>, specs: map<UID, Spec>, dirs: map<Path, Option<string>>)

  /** What readCheckpoint finds; a missing file is an empty checkpoint. */
  function ReadEntries(file: File): Option<seq<Entry>> {
    match file
    case Missing => Some([])
    case Present(Whole(entries)) => Some(entries)
    case Present(Torn) => None
  }

  datatype Op =
    | MakeDir(path: Path)
    | Label(path: Path)
    | TruncateMeta(path: Path)
    | FillMeta(path: Path, device: string)
    | StripTree(path: Path)
    | RemoveTree(path: Path)
    | PutSpec(uid: UID, spec: Spec)
    | DropSpec(uid: UID)
    | CreateTemp
    | EncodeTemp(entries: seq<Entry>)
    | SyncTemp
    | RenameTemp
    | CloseTemp

  function Apply(op: Op, s: Store): Store {
    match op
    case MakeDir(p) => if p in s.dirs then s else s.(dirs := s.dirs[p := None])
    case Label(_) => s
    case TruncateMeta(p) => s.(dirs := s.dirs[p := None])
    case FillMeta(p, device) => s.(dirs := s.dirs[p := Some(device)])
    case StripTree(p) => s.(dirs := map q | q in s.dirs :: if p <= q then None else s.dirs[q])
    case RemoveTree(p) => s.(dirs := map q | q in s.dirs && !(p <= q) :: s.dirs[q])
    case PutSpec(uid, spec) => s.(specs := s.specs[uid := spec])
    case DropSpec(uid) => s.(specs := s.specs - {uid})
    case CreateTemp => s.(temps := s.temps + [Torn])
    case EncodeTemp(entries) => if s.temps == [] then s else s.(temps := s.temps[|s.temps| - 1 := Whole(entries)])
    case SyncTemp => s
    case RenameTemp => if s.temps == [] then s
        else s.(file := Present(s.temps[|s.temps| - 1]), temps := s.temps[..|s.temps| - 1])
    case CloseTemp => s
  }

  /** Steps whose failure is logged and ignored. */
  predicate Tolerated(op: Op) {
    op.StripTree? || op.RemoveTree?
  }

  datatype Status = Completed | Failed | Crashed

  // `fates` says of each step in turn whether it succeeds. A failed step changes nothing and
  // ends the call, unless its failure is tolerated. When the fates run out the process dies.

  function After(ops: seq<Op>, fates: seq<bool>, s: Store): Store {
    if ops == [] || fates == [] then s
    else if fates[0] then After(ops[1..], fates[1..], Apply(ops[0], s))
    else if Tolerated(ops[0]) then After(ops[1..], fates[1..], s)
    else s
  }

  function StatusOf(ops: seq<Op>, fates: seq<bool>): Status {
    if ops == [] then Completed
    else if fates == [] then Crashed
    else if fates[0] || Tolerated(ops[0]) then StatusOf(ops[1..], fates[1..])
    else Failed
  }

  /** The fates that the steps leave over. */
  function Rest(ops: seq<Op>, fates: seq<bool>): seq<bool> {
    if ops == [] || fates == [] then fates
    else if fates[0] || Tolerated(ops[0]) then Rest(ops[1..], fates[1..])
    else fates[1..]
  }

  /** Running one list of steps after another. */
  lemma {:induction false} RunConcat(a: seq<Op>, b: seq<Op>, fates: seq<bool>, s: Store)
    ensures var done := StatusOf(a, fates) == Completed;
            && StatusOf(a + b, fates) == (if done then StatusOf(b, Rest(a, fates)) else StatusOf(a, fates))
            && Rest(a + b, fates) == (if done then Rest(b, Rest(a, fates)) else Rest(a, fates))
            && After(a + b, fates, s)
                 == (if done then After(b, Rest(a, fates), After(a, fates, s)) else After(a, fates, s))
  {
    if a == [] {
      assert a + b == b;
    } else {
      assert (a + b)[0] == a[0] && (a + b)[1..] == a[1..] + b;
      if fates != [] {
        RunConcat(a[1..], b, fates[1..], if fates[0] then Apply(a[0], s) else s);
      }
    }
  }

  /** One more fate carries out one more step, as long as the call has not ended. */
  lemma {:induction false} RunOneMore(ops: seq<Op>, fates: seq<bool>, fate: bool, s: Store)
    requires StatusOf(ops, fates) == Crashed
    ensures |fates| < |ops|
    ensures var op := ops[|fates|];
            && After(ops, fates + [fate], s) == (if fate then Apply(op, After(ops, fates, s)) else After(ops, fates, s))
            && StatusOf(ops, fates + [fate])
                 == (if !fate && !Tolerated(op) then Failed else if |fates| + 1 == |ops| then Completed else Crashed)
  {
    if fates == [] {
      assert fates + [fate] == [fate];
      assert [fate][1..] == [];
    } else {
      assert (fates + [fate])[1..] == fates[1..] + [fate];
      RunOneMore(ops[1..], fates[1..], fate, if fates[0] then Apply(ops[0], s) else s);
    }
  }

  // ---- what a list of steps leaves alone ----

  predicate TouchesDir(op: Op, q: Path) {
    match op
    case MakeDir(p) => p == q
    case TruncateMeta(p) => p == q
    case FillMeta(p, _) => p == q
    case StripTree(p) => p <= q
    case RemoveTree(p) => p <= q
    case _ => false
  }

  predicate TouchesSpec(op: Op, uid: UID) {
    (op.PutSpec? && op.uid == uid) || (op.DropSpec? && op.uid == uid)
  }

  predicate TouchesFile(op: Op) {
    op.CreateTemp? || op.EncodeTemp? || op.SyncTemp? || op.RenameTemp? || op.CloseTemp?
  }

  lemma {:induction false} DirUntouched(ops: seq<Op>, fates: seq<bool>, s: Store, q: Path)
    requires forall op :: op in ops ==> !TouchesDir(op, q)
    ensures q in After(ops, fates, s).dirs <==> q in s.dirs
    ensures q in s.dirs ==> After(ops, fates, s).dirs[q] == s.dirs[q]
  {
    if ops != [] && fates != [] {
      assert forall op :: op in ops[1..] ==> op in ops;
      assert !TouchesDir(ops[0], q);
      DirUntouched(ops[1..], fates[1..], if fates[0] then Apply(ops[0], s) else s, q);
    }
  }

  lemma {:induction false} SpecUntouched(ops: seq<Op>, fates: seq<bool>, s: Store, uid: UID)
    requires forall op :: op in ops ==> !TouchesSpec(op, uid)
    ensures uid in After(ops, fates, s).specs <==> uid in s.specs
    ensures uid in s.specs ==> After(ops, fates, s).specs[uid] == s.specs[uid]
  {
    if ops != [] && fates != [] {
      assert forall op :: op in ops[1..] ==> op in ops;
      assert !TouchesSpec(ops[0], uid);
      SpecUntouched(ops[1..], fates[1..], if fates[0] then Apply(ops[0], s) else s, uid);
    }
  }

  lemma {:induction false} FileUntouched(ops: seq<Op>, fates: seq<bool>, s: Store)
    requires forall op :: op in ops ==> !TouchesFile(op)
    ensures After(ops, fates, s).file == s.file && After(ops, fates, s).temps == s.temps
  {
    if ops != [] && fates != [] {
      assert forall op :: op in ops[1..] ==> op in ops;
      assert !TouchesFile(ops[0]);
      FileUntouched(ops[1..], fates[1..], if fates[0] then Apply(ops[0], s) else s);
    }
  }

  // ---- replacing the checkpoint ----

  function WriteOps(entries: seq<Entry>): seq<Op> {
    [CreateTemp, EncodeTemp(entries), SyncTemp, RenameTemp, CloseTemp]
  }

  /** The rename is reached and succeeds. */
  predicate WriteReplaces(fates: seq<bool>) {
    |fates| >= 4 && fates[0] && fates[1] && fates[2] && fates[3]
  }

  /** Running the first step. */
  lemma RunFirst(ops: seq<Op>, fates: seq<bool>, s: Store)
    requires ops != [] && fates != [] && !Tolerated(ops[0])
    ensures After(ops, fates, s) == if fates[0] then After(ops[1..], fates[1..], Apply(ops[0], s)) else s
    ensures StatusOf(ops, fates) == if fates[0] then StatusOf(ops[1..], fates[1..]) else Failed
  {
  }

  /** Replacing the checkpoint is atomic: at every cut and after every failure the file is the
      old one or the new one, and it is the new one exactly when the rename succeeded. */
  lemma WriteIsAtomic(entries: seq<Entry>, fates: seq<bool>, s: Store)
    ensures var after := After(WriteOps(entries), fates, s);
            && after.file == (if WriteReplaces(fates) then Present(Whole(entries)) else s.file)
            && after.specs == s.specs && after.dirs == s.dirs
    ensures StatusOf(WriteOps(entries), fates) == Completed <==> WriteReplaces(fates) && |fates| >= 5 && fates[4]
  {
    var ops := WriteOps(entries);
    var made := Apply(CreateTemp, s);
    var encoded := Apply(EncodeTemp(entries), made);
    if |fates| >= 1 && fates[0] {
      RunFirst(ops, fates, s);
      var ops1, fates1 := ops[1..], fates[1..];
      if |fates| >= 2 && fates[1] {
        RunFirst(ops1, fates1, made);
        assert ops1[1..] == [SyncTemp, RenameTemp, CloseTemp];
        WriteTail(entries, fates1[1..], encoded);
      }
    }
  }

  lemma WriteTail(entries: seq<Entry>, fates: seq<bool>, s: Store)
    requires s.temps != [] && s.temps[|s.temps| - 1] == Whole(entries)
    ensures var after := After([SyncTemp, RenameTemp, CloseTemp], fates, s);
            && after.file == (if |fates| >= 2 && fates[0] && fates[1] then Present(Whole(entries)) else s.file)
            && after.specs == s.specs && after.dirs == s.dirs
    ensures StatusOf([SyncTemp, RenameTemp, CloseTemp], fates) == Completed
        <==> |fates| >= 3 && fates[0] && fates[1] && fates[2]
  {
    var ops := [SyncTemp, RenameTemp, CloseTemp];
    if |fates| >= 1 && fates[0] {
      RunFirst(ops, fates, s);
      var ops1, fates1 := ops[1..], fates[1..];
      assert ops1 == [RenameTemp, CloseTemp];
      if |fates| >= 2 && fates[1] {
        RunFirst(ops1, fates1, s);
        assert ops1[1..] == [CloseTemp];
        if |fates| >= 3 {
          RunFirst([CloseTemp], fates1[1..], Apply(RenameTemp, s));
        }
      }
    }
  }
}

/**
 Processing a batch of events against a tree that stands still.

 `Wanted` is what the table should hold afterwards: the regular files that were loaded
 before or match the pattern.  The main result says exactly which batches leave just that,
 whatever the order of their operations; what they leave is again a table of that kind, so
 that batches can follow each other.
 */
module WatcherConvergence {
  import opened Paths
  import opened WatcherSpec
  import opened WatcherRuns
  import opened WatcherTrees

  // ---------------------------------------------------------------- a single removal

  lemma RemoveKeys(w: Watch, r: Path)
    requires ValidPath(r) && forall p :: p in w.loaded ==> ValidPath(p)
    ensures forall q :: q in Remove(w, r).loaded
              <==> q in w.loaded && !(if r in w.loaded then q == r else r <= q || ImmediateParent(q, r))
  {
    hide Remove, IsSubpath, ImmediateParent, ValidPath, InOrder, Below;
    RemoveTraceGrows(w, r);
    RemovalIsExact(w, r, Remove(w, r).trace[|w.trace|..]);
    forall q | q in w.loaded ensures IsSubpath(r, q) <==> r <= q || ImmediateParent(q, r) {
      IsSubpathExactly(r, q);
    }
  }

  lemma RemoveTraceGrows(w: Watch, r: Path)
    ensures w.trace <= Remove(w, r).trace
  {
    if r !in w.loaded {
      DropAllTrace(w, InOrder(Below(w, r)));
    }
  }

  /**
   What the subpath test costs: removing an unloaded path that is gone drops a file that
   still exists exactly when the path's immediate parent is such a file.
   */
  lemma RemovalDropsExistingFileIff(w: Watch, fs: Node, r: Path)
    requires ValidPath(r) && (forall p :: p in w.loaded ==> ValidPath(p))
    requires Lookup(fs, r).None?
    ensures (exists q :: q in w.loaded && q !in Remove(w, r).loaded && IsFile(fs, q))
            <==> r !in w.loaded && r != [] && r[..|r| - 1] in w.loaded && IsFile(fs, r[..|r| - 1])
  {
    hide Remove, IsFile;
    RemoveKeys(w, r);
    forall q | r <= q ensures !IsFile(fs, q) {
      NothingBelow(fs, r, q);
      NoFileAtNothing(fs, q);
    }
    if r != [] && r[..|r| - 1] in w.loaded {
      assert ImmediateParent(r[..|r| - 1], r);
    }
  }

  /** In particular a removal reported directly below a loaded file, of a path not loaded, loses that file. */
  lemma RemovalBelowFileLosesIt(w: Watch, fs: Node, p: Path, name: string, rx: Pattern)
    requires forall q :: q in w.loaded ==> ValidPath(q)
    requires p in w.loaded && IsFile(fs, p) && ValidComponent(name) && p + [name] !in w.loaded
    ensures Lookup(fs, p + [name]).None?
    ensures p !in Process(w, fs, Op(Removal, p + [name]), rx).loaded
    ensures IsFile(fs, p) && p in w.loaded
  {
    hide Remove;
    var r := p + [name];
    assert r[..|r| - 1] == p;
    LookupConcat(fs, p, [name]);
    RemoveKeys(w, r);
  }

  lemma NoFileAtNothing(fs: Node, q: Path)
    ensures Lookup(fs, q).None? ==> !IsFile(fs, q)
  {
  }

  // ---------------------------------------------------------------- batches

  /** What the table should hold in the end. */
  ghost predicate Wanted(w: Watch, fs: Node, rx: Pattern, p: Path) {
    IsFile(fs, p) && (p in w.loaded || rx(Base(p)))
  }

  /** Names are proper file names throughout the tree. */
  ghost predicate TreeProper(fs: Node) {
    forall p :: IsFile(fs, p) ==> ValidPath(p)
  }

  ghost predicate OpsProper(ops: seq<Op>) {
    forall op :: op in ops ==> ValidPath(op.path)
  }

  /** No loaded path lies below another, and all are proper. */
  ghost predicate Healthy(w: Watch) {
    && (forall p :: p in w.loaded ==> ValidPath(p))
    && (forall p, q :: p in w.loaded && q in w.loaded && p <= q ==> p == q)
  }

  /** Removals name only paths that are gone. */
  ghost predicate RemovalsVanished(fs: Node, ops: seq<Op>) {
    forall op :: op in ops && op.typ == Removal ==> Lookup(fs, op.path).None?
  }

  /** Every loaded path that is no longer a file has a removal on itself or an ancestor. */
  ghost predicate RemovalsComplete(w: Watch, fs: Node, ops: seq<Op>) {
    forall p :: p in w.loaded && !IsFile(fs, p) ==> exists op :: op in ops && op.typ == Removal && op.path <= p
  }

  /** Every matching file not yet loaded has a change on itself or an ancestor. */
  ghost predicate ChangesComplete(w: Watch, fs: Node, ops: seq<Op>, rx: Pattern) {
    forall p :: IsFile(fs, p) && rx(Base(p)) && p !in w.loaded ==>
      exists op :: op in ops && op.typ == Change && op.path <= p
  }

  /** The operations account for the difference between table and tree. */
  ghost predicate Accounts(w: Watch, fs: Node, ops: seq<Op>, rx: Pattern) {
    && Readable(fs) && WellFormed(fs) && TreeProper(fs) && OpsProper(ops)
    && RemovalsVanished(fs, ops) && RemovalsComplete(w, fs, ops) && ChangesComplete(w, fs, ops, rx)
  }

  /** A removal directly below a file that is to stay. */
  ghost predicate Risky(w: Watch, fs: Node, rx: Pattern, op: Op) {
    op.typ == Removal && op.path != [] && Wanted(w, fs, rx, op.path[..|op.path| - 1])
  }

  /** Whatever comes first, the removed path is still in the table when the removal's turn comes. */
  ghost predicate Harmless(w: Watch, ops: seq<Op>, op: Op) {
    && op.path in w.loaded
    && multiset(ops)[op] == 1
    && forall other :: other in ops && other.typ == Removal ==> !ImmediateParent(op.path, other.path)
  }

  ghost predicate RemovalsHarmless(w: Watch, fs: Node, ops: seq<Op>, rx: Pattern) {
    forall op :: op in ops && Risky(w, fs, rx, op) ==> Harmless(w, ops, op)
  }

  ghost predicate Converges(w: Watch, fs: Node, ops: seq<Op>, rx: Pattern) {
    forall p :: p in ProcessAll(w, fs, ops, rx).loaded <==> Wanted(w, fs, rx, p)
  }

  ghost predicate ConvergesInAnyOrder(w: Watch, fs: Node, ops: seq<Op>, rx: Pattern) {
    forall others :: multiset(others) == multiset(ops) ==> Converges(w, fs, others, rx)
  }

  // ---------------------------------------------------------------- progress

  /** Where processing stands after some operations: nothing wanted is lost, nothing unwanted is added. */
  ghost predicate Between(w0: Watch, fs: Node, rx: Pattern, w: Watch) {
    && (forall p :: p in w.loaded ==> p in w0.loaded || Wanted(w0, fs, rx, p))
    && (forall p :: p in w0.loaded && IsFile(fs, p) ==> p in w.loaded)
  }

  /** What an operation was for is done. */
  ghost predicate Done(w0: Watch, fs: Node, rx: Pattern, w: Watch, op: Op) {
    forall p :: op.path <= p ==>
      && (op.typ == Change && Wanted(w0, fs, rx, p) ==> p in w.loaded)
      && (op.typ == Removal && p in w0.loaded && !IsFile(fs, p) ==> p !in w.loaded)
  }

  /** Directly below a file, and named neither by a removal nor as the parent of one. */
  ghost predicate Spared(fs: Node, ops: seq<Op>, r: Path) {
    && r != [] && IsFile(fs, r[..|r| - 1])
    && forall op :: op in ops && op.typ == Removal ==> op.path != r && !ImmediateParent(r, op.path)
  }

  ghost predicate SparedStay(w0: Watch, fs: Node, ops: seq<Op>, w: Watch) {
    forall r :: r in w0.loaded && Spared(fs, ops, r) ==> r in w.loaded
  }

  lemma ChangeStep(w0: Watch, fs: Node, rx: Pattern, w: Watch, p: Path)
    requires Readable(fs) && WellFormed(fs) && Between(w0, fs, rx, w)
    ensures Between(w0, fs, rx, Process(w, fs, Op(Change, p), rx))
    ensures Done(w0, fs, rx, Process(w, fs, Op(Change, p), rx), Op(Change, p))
    ensures forall op :: Done(w0, fs, rx, w, op) ==> Done(w0, fs, rx, Process(w, fs, Op(Change, p), rx), op)
    ensures forall q :: q in w.loaded ==> q in Process(w, fs, Op(Change, p), rx).loaded
  {
    hide Process, IsFile, Readable, WellFormed;
    ChangeAdds(w, fs, p, rx);
  }

  lemma RemovalStep(w0: Watch, fs: Node, rx: Pattern, w: Watch, r: Path)
    requires Between(w0, fs, rx, w) && Healthy(w0) && Lookup(fs, r).None?
    requires ValidPath(r) && forall p :: p in w.loaded ==> ValidPath(p)
    requires Risky(w0, fs, rx, Op(Removal, r)) ==> r in w.loaded
    ensures Between(w0, fs, rx, Remove(w, r))
    ensures Done(w0, fs, rx, Remove(w, r), Op(Removal, r))
    ensures forall op :: Done(w0, fs, rx, w, op) ==> Done(w0, fs, rx, Remove(w, r), op)
  {
    RemovalDropsUnwanted(w0, fs, rx, w, r);
    hide Remove, IsFile, Lookup, ValidPath, Healthy, Risky;
  }

  /** A harmless removal drops nothing wanted, and everything loaded at first and gone at or below its path. */
  lemma RemovalDropsUnwanted(w0: Watch, fs: Node, rx: Pattern, w: Watch, r: Path)
    requires Between(w0, fs, rx, w) && Healthy(w0) && Lookup(fs, r).None?
    requires ValidPath(r) && forall p :: p in w.loaded ==> ValidPath(p)
    requires Risky(w0, fs, rx, Op(Removal, r)) ==> r in w.loaded
    ensures forall q :: q in Remove(w, r).loaded ==> q in w.loaded
    ensures forall q :: q in w.loaded && Wanted(w0, fs, rx, q) ==> q in Remove(w, r).loaded
    ensures forall q :: r <= q && q in w0.loaded ==> q !in Remove(w, r).loaded
  {
    hide Remove, IsFile, ValidPath;
    RemoveKeys(w, r);
    FilesBelow(fs, r);
  }

  /** A removal on a path that is gone drops a path directly below a file only by its own name or as a parent. */
  lemma RemovalSpares(fs: Node, w: Watch, r: Path, q: Path)
    requires Lookup(fs, r).None? && ValidPath(r) && forall p :: p in w.loaded ==> ValidPath(p)
    requires q in w.loaded && q != [] && IsFile(fs, q[..|q| - 1])
    requires q != r && !ImmediateParent(q, r)
    ensures q in Remove(w, r).loaded
  {
    hide Remove, IsFile, ValidPath;
    RemoveKeys(w, r);
    assert r <= q ==> r <= q[..|q| - 1];
    FilesBelow(fs, r);
  }

  lemma {:induction false} Progress(w0: Watch, fs: Node, ops: seq<Op>, rx: Pattern)
    requires Readable(fs) && WellFormed(fs) && TreeProper(fs) && OpsProper(ops) && Healthy(w0)
    requires RemovalsVanished(fs, ops) && RemovalsHarmless(w0, fs, ops, rx)
    ensures Between(w0, fs, rx, ProcessAll(w0, fs, ops, rx))
    ensures forall op :: op in ops ==> Done(w0, fs, rx, ProcessAll(w0, fs, ops, rx), op)
    ensures SparedStay(w0, fs, ops, ProcessAll(w0, fs, ops, rx))
  {
    hide Readable, WellFormed, IsFile, Process, Done, ImmediateParent, ValidPath, Risky, Harmless, Spared;
    if ops != [] {
      var front, last := ops[..|ops| - 1], ops[|ops| - 1];
      assert ops == front + [last] && last in ops;
      assert forall op :: op in front ==> op in ops;
      FrontHarmless(w0, fs, front, last, rx);
      Progress(w0, fs, front, rx);
      var w := ProcessAll(w0, fs, front, rx);
      match last.typ
      case Change =>
        ChangeStep(w0, fs, rx, w, last.path);
        SparedMore(fs, front, last);
      case Removal =>
        RemovalStep(w0, fs, rx, w, last.path);
        ProcessRemoval(w, fs, last.path, rx);
        SparedMore(fs, front, last);
        forall r | r in w0.loaded && Spared(fs, ops, r) ensures r in Remove(w, last.path).loaded {
          SparedMeans(fs, front, last, r);
          RemovalSpares(fs, w, last.path, r);
        }
    }
  }

  lemma ProcessRemoval(w: Watch, fs: Node, r: Path, rx: Pattern)
    ensures Process(w, fs, Op(Removal, r), rx) == Remove(w, r)
  {
  }

  lemma SparedMore(fs: Node, front: seq<Op>, last: Op)
    ensures forall r :: Spared(fs, front + [last], r) ==> Spared(fs, front, r)
  {
    hide ImmediateParent, IsFile;
  }

  lemma SparedMeans(fs: Node, front: seq<Op>, last: Op, r: Path)
    requires Spared(fs, front + [last], r) && last.typ == Removal
    ensures r != [] && IsFile(fs, r[..|r| - 1]) && r != last.path && !ImmediateParent(r, last.path)
  {
    assert last in front + [last];
  }

  /** Harmless removals stay harmless in a shorter batch, and a harmless last one finds its path in the table. */
  lemma FrontHarmless(w: Watch, fs: Node, front: seq<Op>, last: Op, rx: Pattern)
    requires RemovalsHarmless(w, fs, front + [last], rx)
    ensures RemovalsHarmless(w, fs, front, rx)
    ensures Risky(w, fs, rx, last) ==> last.path in w.loaded && Spared(fs, front, last.path)
  {
    hide IsFile, ImmediateParent;
    var ops := front + [last];
    forall op | op in front && Risky(w, fs, rx, op) ensures Harmless(w, front, op) {
      assert op in ops;
      assert multiset(ops)[op] == multiset(front)[op] + multiset{last}[op];
    }
    if Risky(w, fs, rx, last) {
      assert last in ops;
      assert multiset(ops)[last] == multiset(front)[last] + 1;
      assert last !in front;
      forall op | op in front && op.typ == Removal ensures op.path != last.path {
        assert op.path == last.path ==> op == last;
      }
    }
  }

  // ---------------------------------------------------------------- convergence

  /**
   Convergence: a batch that accounts for the difference between table and tree, and whose
   removals are harmless, leaves exactly the files that were loaded before or match.
   */
  lemma BatchConverges(w: Watch, fs: Node, ops: seq<Op>, rx: Pattern)
    requires Healthy(w) && Accounts(w, fs, ops, rx) && RemovalsHarmless(w, fs, ops, rx)
    ensures Converges(w, fs, ops, rx)
  {
    hide Readable, WellFormed, IsFile, ProcessAll, Healthy, RemovalsHarmless;
    Progress(w, fs, ops, rx);
    var v := ProcessAll(w, fs, ops, rx);
    forall p | p in w.loaded && !IsFile(fs, p) ensures p !in v.loaded {
      var op :| op in ops && op.typ == Removal && op.path <= p;
      assert Done(w, fs, rx, v, op);
    }
    forall p ensures p in v.loaded <==> Wanted(w, fs, rx, p) {
      if Wanted(w, fs, rx, p) && p !in w.loaded {
        var op :| op in ops && op.typ == Change && op.path <= p;
        assert Done(w, fs, rx, v, op);
      }
    }
  }

  lemma Reordered(w: Watch, fs: Node, ops: seq<Op>, others: seq<Op>, rx: Pattern)
    requires multiset(ops) == multiset(others)
    ensures Accounts(w, fs, ops, rx) ==> Accounts(w, fs, others, rx)
    ensures RemovalsHarmless(w, fs, ops, rx) ==> RemovalsHarmless(w, fs, others, rx)
  {
    hide Readable, WellFormed, TreeProper, IsFile, ImmediateParent, ValidPath, Risky;
    forall op ensures op in ops <==> op in others {
      assert op in ops <==> op in multiset(ops);
    }
  }

  /** Nothing gets into the table but files of the tree. */
  lemma {:induction false} OnlyFilesAppear(w: Watch, fs: Node, ops: seq<Op>, rx: Pattern)
    requires Readable(fs) && WellFormed(fs) && TreeProper(fs) && OpsProper(ops)
    requires forall p :: p in w.loaded ==> ValidPath(p)
    ensures forall p :: p in ProcessAll(w, fs, ops, rx).loaded ==> p in w.loaded || IsFile(fs, p)
    ensures forall p :: p in ProcessAll(w, fs, ops, rx).loaded ==> ValidPath(p)
  {
    hide Readable, WellFormed, IsFile, Process, ValidPath, ImmediateParent;
    if ops != [] {
      var front, last := ops[..|ops| - 1], ops[|ops| - 1];
      assert last in ops && forall op :: op in front ==> op in ops;
      OnlyFilesAppear(w, fs, front, rx);
      var v := ProcessAll(w, fs, front, rx);
      match last.typ
      case Change => ChangeAdds(v, fs, last.path, rx);
      case Removal =>
        RemoveKeys(v, last.path);
        ProcessRemoval(v, fs, last.path, rx);
    }
  }

  lemma MoveLast(ops: seq<Op>, op: Op) returns (front: seq<Op>)
    requires op in ops
    ensures multiset(front + [op]) == multiset(ops)
  {
    var i :| 0 <= i < |ops| && ops[i] == op;
    front := ops[..i] + ops[i + 1..];
    assert ops == ops[..i] + [op] + ops[i + 1..];
  }

  /** A removal whose path is not loaded when its turn comes, as the last one, takes the parent with it. */
  lemma LateRemovalLosesParent(w: Watch, fs: Node, front: seq<Op>, r: Path, rx: Pattern)
    requires Readable(fs) && WellFormed(fs) && TreeProper(fs) && OpsProper(front + [Op(Removal, r)])
    requires forall p :: p in w.loaded ==> ValidPath(p)
    requires r != [] && r !in ProcessAll(w, fs, front, rx).loaded
    ensures r[..|r| - 1] !in ProcessAll(w, fs, front + [Op(Removal, r)], rx).loaded
  {
    hide ValidPath, Readable, WellFormed, TreeProper, ProcessAll;
    var ops := front + [Op(Removal, r)];
    assert Op(Removal, r) in ops && forall op :: op in front ==> op in ops;
    OnlyFilesAppear(w, fs, front, rx);
    RemoveKeys(ProcessAll(w, fs, front, rx), r);
    ProcessMore(w, fs, front, Op(Removal, r), rx);
  }

  lemma ProcessMore(w: Watch, fs: Node, front: seq<Op>, last: Op, rx: Pattern)
    ensures ProcessAll(w, fs, front + [last], rx) == Process(ProcessAll(w, fs, front, rx), fs, last, rx)
    ensures last.typ == Removal ==> Process(ProcessAll(w, fs, front, rx), fs, last, rx)
                                    == Remove(ProcessAll(w, fs, front, rx), last.path)
  {
    hide Remove, DoLoad;
    assert (front + [last])[..|front|] == front;
  }

  /** After a removal of a path, or of one directly below it that is not loaded, the path is not loaded. */
  lemma EarlierRemovalUnloads(w: Watch, fs: Node, front: seq<Op>, s: Path, r: Path, rx: Pattern)
    requires Readable(fs) && WellFormed(fs) && TreeProper(fs) && OpsProper(front + [Op(Removal, s)])
    requires Healthy(w) && Lookup(fs, s).None?
    requires s == r || (ImmediateParent(r, s) && r in w.loaded)
    ensures r !in ProcessAll(w, fs, front + [Op(Removal, s)], rx).loaded
  {
    hide ValidPath, Readable, WellFormed, TreeProper, ProcessAll;
    var ops := front + [Op(Removal, s)];
    assert Op(Removal, s) in ops && forall op :: op in front ==> op in ops;
    OnlyFilesAppear(w, fs, front, rx);
    RemoveKeys(ProcessAll(w, fs, front, rx), s);
    ProcessMore(w, fs, front, Op(Removal, s), rx);
  }

  /** A risky removal of a path that is not loaded loses the file above it when it comes last. */
  lemma UnloadedDoesHarm(w: Watch, fs: Node, ops: seq<Op>, rx: Pattern, op: Op)
    requires Healthy(w) && Accounts(w, fs, ops, rx)
    requires op in ops && Risky(w, fs, rx, op) && op.path !in w.loaded
    ensures !ConvergesInAnyOrder(w, fs, ops, rx)
  {
    hide ProcessAll, Readable, WellFormed, TreeProper, ValidPath, RemovalsComplete, ChangesComplete;
    var front := MoveLast(ops, op);
    SameMembers(ops, front + [op]);
    OnlyFilesAppear(w, fs, front, rx);
    LateRemovalLosesParent(w, fs, front, op.path, rx);
    assert !Converges(w, fs, front + [op], rx);
  }

  /** So does one whose path another removal has taken out of the table before. */
  lemma TwoDoHarm(w: Watch, fs: Node, ops: seq<Op>, rx: Pattern, op: Op, other: Op, front: seq<Op>)
    requires Healthy(w) && Accounts(w, fs, ops, rx)
    requires multiset(front + [op]) == multiset(ops) && other in front && other.typ == Removal
    requires Risky(w, fs, rx, op) && op.path in w.loaded
    requires other == op || ImmediateParent(op.path, other.path)
    ensures !ConvergesInAnyOrder(w, fs, ops, rx)
  {
    hide ProcessAll, Readable, WellFormed, TreeProper, ValidPath, RemovalsComplete, ChangesComplete;
    var rest := MoveLast(front, other);
    SameMembers(ops, rest + [other] + [op]);
    EarlierRemovalUnloads(w, fs, rest, other.path, op.path, rx);
    LateRemovalLosesParent(w, fs, rest + [other], op.path, rx);
    assert !Converges(w, fs, rest + [other] + [op], rx);
  }

  /** If a risky removal is not harmless, some order of the batch loses the file above it. */
  lemma HarmCanBeDone(w: Watch, fs: Node, ops: seq<Op>, rx: Pattern, op: Op)
    requires Healthy(w) && Accounts(w, fs, ops, rx)
    requires op in ops && Risky(w, fs, rx, op) && !Harmless(w, ops, op)
    ensures !ConvergesInAnyOrder(w, fs, ops, rx)
  {
    hide Healthy, Accounts, ConvergesInAnyOrder;
    if op.path in w.loaded {
      var front := MoveLast(ops, op);
      var other :| other in ops && other.typ == Removal
                   && (if multiset(ops)[op] == 1 then ImmediateParent(op.path, other.path) else other == op);
      assert other in multiset(front + [op]);
      TwoDoHarm(w, fs, ops, rx, op, other, front);
    } else {
      UnloadedDoesHarm(w, fs, ops, rx, op);
    }
  }

  lemma SameMembers(ops: seq<Op>, others: seq<Op>)
    requires multiset(ops) == multiset(others)
    ensures forall op :: op in ops <==> op in others
  {
    forall op ensures op in ops <==> op in others {
      assert op in ops <==> op in multiset(ops);
    }
  }

  /**
   The batches that converge: one that accounts for the difference between table and tree
   leaves exactly what is wanted, in whatever order its operations come, if and only if
   each removal directly below a wanted file is of a loaded path, comes once, and has no
   other removal directly below it.
   */
  lemma ConvergesInAnyOrderIff(w: Watch, fs: Node, ops: seq<Op>, rx: Pattern)
    requires Healthy(w) && Accounts(w, fs, ops, rx)
    ensures ConvergesInAnyOrder(w, fs, ops, rx) <==> RemovalsHarmless(w, fs, ops, rx)
  {
    hide Healthy, Accounts, Risky, Harmless, Converges;
    if RemovalsHarmless(w, fs, ops, rx) {
      forall others | multiset(others) == multiset(ops) ensures Converges(w, fs, others, rx) {
        Reordered(w, fs, ops, others, rx);
        BatchConverges(w, fs, others, rx);
      }
    } else {
      var op :| op in ops && Risky(w, fs, rx, op) && !Harmless(w, ops, op);
      HarmCanBeDone(w, fs, ops, rx, op);
    }
  }

  /** The outcome does not depend on the order of the operations. */
  lemma OrderIsIrrelevant(w: Watch, fs: Node, ops: seq<Op>, others: seq<Op>, rx: Pattern)
    requires Healthy(w) && Accounts(w, fs, ops, rx) && RemovalsHarmless(w, fs, ops, rx)
    requires multiset(ops) == multiset(others)
    ensures ProcessAll(w, fs, ops, rx).loaded.Keys == ProcessAll(w, fs, others, rx).loaded.Keys
  {
    hide Healthy, Accounts, RemovalsHarmless, ProcessAll, Wanted;
    ConvergesInAnyOrderIff(w, fs, ops, rx);
    assert Converges(w, fs, ops, rx) && Converges(w, fs, others, rx);
  }

  // ---------------------------------------------------------------- one batch after another

  datatype Batch = Batch(fs: Node, ops: seq<Op>)

  ghost function ProcessBatches(w: Watch, bs: seq<Batch>, rx: Pattern): Watch {
    if bs == [] then w
    else
      var last := bs[|bs| - 1];
      ProcessAll(ProcessBatches(w, bs[..|bs| - 1], rx), last.fs, last.ops, rx)
  }

  /** A table that has converged has no path below another, and only proper ones. */
  lemma ConvergedIsHealthy(w: Watch, fs: Node, ops: seq<Op>, rx: Pattern)
    requires TreeProper(fs) && Converges(w, fs, ops, rx)
    ensures Healthy(ProcessAll(w, fs, ops, rx))
  {
    hide ProcessAll, IsFile, ValidPath;
    var v := ProcessAll(w, fs, ops, rx);
    forall p, q | p in v.loaded && q in v.loaded && p <= q ensures p == q {
      NothingBelow(fs, p, q);
    }
  }

  /** A regular file in the tree of every batch. */
  ghost predicate Stayed(bs: seq<Batch>, p: Path) {
    forall b :: b in bs ==> IsFile(b.fs, p)
  }

  /** A file of the last tree that matches, or that was loaded at the start and has been there ever since. */
  ghost predicate Remains(w: Watch, bs: seq<Batch>, rx: Pattern, p: Path)
    requires bs != []
  {
    IsFile(bs[|bs| - 1].fs, p) && (rx(Base(p)) || (p in w.loaded && Stayed(bs, p)))
  }

  /** Each batch accounts for the difference between its tree and the table it finds. */
  ghost predicate AllAccounted(w: Watch, bs: seq<Batch>, rx: Pattern) {
    forall k :: 0 <= k < |bs| ==>
      && Accounts(ProcessBatches(w, bs[..k], rx), bs[k].fs, bs[k].ops, rx)
      && RemovalsHarmless(ProcessBatches(w, bs[..k], rx), bs[k].fs, bs[k].ops, rx)
  }

  lemma AllButLastAccounted(w: Watch, bs: seq<Batch>, rx: Pattern)
    requires AllAccounted(w, bs, rx) && bs != []
    ensures AllAccounted(w, bs[..|bs| - 1], rx)
  {
    hide Accounts, RemovalsHarmless, ProcessBatches;
    var front := bs[..|bs| - 1];
    forall k | 0 <= k < |front|
      ensures Accounts(ProcessBatches(w, front[..k], rx), front[k].fs, front[k].ops, rx)
      ensures RemovalsHarmless(ProcessBatches(w, front[..k], rx), front[k].fs, front[k].ops, rx)
    {
      assert front[..k] == bs[..k] && front[k] == bs[k];
    }
  }

  /**
   Over any sequence of batches on changing trees the table holds, after each, the regular
   files of its tree that match the pattern, or that were loaded at the start and have been
   there ever since.
   */
  lemma {:induction false} BatchesConverge(w: Watch, bs: seq<Batch>, rx: Pattern)
    requires Healthy(w) && AllAccounted(w, bs, rx)
    ensures Healthy(ProcessBatches(w, bs, rx))
    ensures bs != [] ==> forall p :: p in ProcessBatches(w, bs, rx).loaded <==> Remains(w, bs, rx, p)
  {
    if bs != [] {
      hide Healthy, RemovalsHarmless, IsFile, ProcessAll, Stayed;
      var front, last := bs[..|bs| - 1], bs[|bs| - 1];
      AllButLastAccounted(w, bs, rx);
      BatchesConverge(w, front, rx);
      var v := ProcessBatches(w, front, rx);
      BatchConverges(v, last.fs, last.ops, rx);
      ConvergedIsHealthy(v, last.fs, last.ops, rx);
      hide Accounts, AllAccounted, Remains;
      forall p ensures p in ProcessBatches(w, bs, rx).loaded <==> Remains(w, bs, rx, p) {
        assert bs == front + [last];
        RemainsMore(w, front, last, rx, v, p);
      }
    }
  }

  lemma RemainsMore(w: Watch, front: seq<Batch>, last: Batch, rx: Pattern, v: Watch, p: Path)
    requires if front == [] then v == w else (p in v.loaded <==> Remains(w, front, rx, p))
    ensures Remains(w, front + [last], rx, p) <==> Wanted(v, last.fs, rx, p)
  {
    hide IsFile;
    StayedMore(front, last, p);
    if front != [] {
      assert front[|front| - 1] in front;
    }
  }

  lemma StayedMore(front: seq<Batch>, last: Batch, p: Path)
    ensures Stayed(front + [last], p) <==> Stayed(front, p) && IsFile(last.fs, p)
  {
    hide IsFile;
    assert last in front + [last];
    forall b ensures b in front + [last] <==> b in front || b == last {
    }
  }
}

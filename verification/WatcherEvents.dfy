/**
 Batches told by the events they were made from: what counts is the last event on each
 path, and of that only whether its mask is exactly a removal or exactly a renaming.
 */
module WatcherEvents {
  import opened Paths
  import opened WatcherSpec
  import opened WatcherTrees
  import opened WatcherConvergence

  /** No later event is on the same path. */
  ghost predicate LastOn(evs: seq<FsEvent>, i: int) {
    0 <= i < |evs| && forall j :: i < j < |evs| ==> evs[j].path != evs[i].path
  }

  /** The last event on the path is fsnotify's Remove (4) or Rename (8), with no other bit. */
  ghost predicate EndsRemoved(evs: seq<FsEvent>, p: Path) {
    exists i :: LastOn(evs, i) && evs[i].path == p && (evs[i].bits == 4 || evs[i].bits == 8)
  }

  /** The last event on the path is any other. */
  ghost predicate EndsChanged(evs: seq<FsEvent>, p: Path) {
    exists i :: LastOn(evs, i) && evs[i].path == p && evs[i].bits != 4 && evs[i].bits != 8
  }

  lemma {:induction false} LastTypeOfLast(evs: seq<FsEvent>, i: int)
    requires LastOn(evs, i)
    ensures LastType(evs, evs[i].path) == Removal <==> evs[i].bits == 4 || evs[i].bits == 8
  {
    if i < |evs| - 1 {
      var front := evs[..|evs| - 1];
      assert LastOn(front, i);
      LastTypeOfLast(front, i);
    }
  }

  lemma {:induction false} SomeLast(evs: seq<FsEvent>, k: nat) returns (i: int)
    requires k < |evs|
    ensures LastOn(evs, i) && evs[i].path == evs[k].path
    decreases |evs| - k
  {
    if LastOn(evs, k) {
      i := k;
    } else {
      var j :| k < j < |evs| && evs[j].path == evs[k].path;
      i := SomeLast(evs, j);
    }
  }

  /** A pending operation is a removal exactly when its path's last event has mask 4 or 8, and a change otherwise. */
  lemma PendingByLastEvent(evs: seq<FsEvent>, p: Path)
    ensures Op(Removal, p) in Coalesced(evs) <==> EndsRemoved(evs, p)
    ensures Op(Change, p) in Coalesced(evs) <==> EndsChanged(evs, p)
    ensures !(EndsRemoved(evs, p) && EndsChanged(evs, p))
  {
    hide LastType;
    var ps := FirstOccurrences(evs);
    FirstOccurrencesAreThePaths(evs);
    hide FirstOccurrences;
    forall j | LastOn(evs, j) && evs[j].path == p ensures p in ps {
    }
    if p in ps {
      var k :| 0 <= k < |evs| && evs[k].path == p;
      var i := SomeLast(evs, k);
      LastTypeOfLast(evs, i);
      var n :| 0 <= n < |ps| && ps[n] == p;
      assert Coalesced(evs)[n] == Op(LastType(evs, p), p);
      forall j | LastOn(evs, j) && evs[j].path == p ensures j == i {
      }
    }
    forall op | op in Coalesced(evs) ensures op.path in ps && op.typ == LastType(evs, op.path) {
    }
  }

  /** Each path is pending once. */
  lemma PendingOnce(evs: seq<FsEvent>, op: Op)
    requires op in Coalesced(evs)
    ensures multiset(Coalesced(evs))[op] == 1
  {
    hide LastType, FirstOccurrences;
    FirstOccurrencesAreThePaths(evs);
    var ops := Coalesced(evs);
    var i :| 0 <= i < |ops| && ops[i] == op;
    assert ops == ops[..i] + [op] + ops[i + 1..];
    forall j | 0 <= j < |ops| && j != i ensures ops[j] != op {
      assert ops[j].path == FirstOccurrences(evs)[j];
    }
    assert op !in ops[..i] && op !in ops[i + 1..];
  }

  // ---------------------------------------------------------------- convergence

  /** The last events account for the difference between table and tree. */
  ghost predicate EventsAccount(w: Watch, fs: Node, evs: seq<FsEvent>, rx: Pattern) {
    && Readable(fs) && WellFormed(fs) && TreeProper(fs)
    && (forall i :: 0 <= i < |evs| ==> ValidPath(evs[i].path))
    && (forall p :: EndsRemoved(evs, p) ==> Lookup(fs, p).None?)
    && (forall p :: p in w.loaded && !IsFile(fs, p) ==> exists r :: r <= p && EndsRemoved(evs, r))
    && (forall p :: IsFile(fs, p) && rx(Base(p)) && p !in w.loaded ==> exists r :: r <= p && EndsChanged(evs, r))
  }

  /** A removal directly below a wanted file is of a loaded path, and no other removal is directly below it. */
  ghost predicate EventsHarmless(w: Watch, fs: Node, evs: seq<FsEvent>, rx: Pattern) {
    forall p :: EndsRemoved(evs, p) && p != [] && Wanted(w, fs, rx, p[..|p| - 1]) ==>
      p in w.loaded && forall r :: EndsRemoved(evs, r) ==> !ImmediateParent(p, r)
  }

  lemma EventsAsOps(w: Watch, fs: Node, evs: seq<FsEvent>, rx: Pattern)
    ensures EventsAccount(w, fs, evs, rx) ==> Accounts(w, fs, Coalesced(evs), rx)
    ensures EventsHarmless(w, fs, evs, rx) <==> RemovalsHarmless(w, fs, Coalesced(evs), rx)
  {
    var ops := Coalesced(evs);
    forall p
      ensures Op(Removal, p) in ops <==> EndsRemoved(evs, p)
      ensures Op(Change, p) in ops <==> EndsChanged(evs, p)
    {
      PendingByLastEvent(evs, p);
    }
    forall op | op in ops ensures op == Op(op.typ, op.path) && multiset(ops)[op] == 1 {
      PendingOnce(evs, op);
    }
    hide Coalesced, EndsRemoved, EndsChanged, ImmediateParent, Wanted;
    HarmlessAsOps(w, fs, evs, rx);
    if EventsAccount(w, fs, evs, rx) {
      AccountedAsOps(w, fs, evs, rx);
    }
  }

  lemma HarmlessAsOps(w: Watch, fs: Node, evs: seq<FsEvent>, rx: Pattern)
    requires forall p :: Op(Removal, p) in Coalesced(evs) <==> EndsRemoved(evs, p)
    requires forall op :: op in Coalesced(evs) ==> multiset(Coalesced(evs))[op] == 1
    ensures EventsHarmless(w, fs, evs, rx) <==> RemovalsHarmless(w, fs, Coalesced(evs), rx)
  {
    hide Coalesced, EndsRemoved, ImmediateParent, Wanted;
    var ops := Coalesced(evs);
    if EventsHarmless(w, fs, evs, rx) {
      forall op | op in ops && Risky(w, fs, rx, op) ensures Harmless(w, ops, op) {
        assert op == Op(Removal, op.path);
        forall other | other in ops && other.typ == Removal ensures !ImmediateParent(op.path, other.path) {
          assert other == Op(Removal, other.path);
        }
      }
    }
    if RemovalsHarmless(w, fs, ops, rx) {
      forall p | EndsRemoved(evs, p) && p != [] && Wanted(w, fs, rx, p[..|p| - 1])
        ensures p in w.loaded && forall r :: EndsRemoved(evs, r) ==> !ImmediateParent(p, r)
      {
        assert Risky(w, fs, rx, Op(Removal, p)) && Harmless(w, ops, Op(Removal, p));
        forall r | EndsRemoved(evs, r) ensures !ImmediateParent(p, r) {
          assert Op(Removal, r) in ops;
        }
      }
    }
  }

  lemma AccountedAsOps(w: Watch, fs: Node, evs: seq<FsEvent>, rx: Pattern)
    requires EventsAccount(w, fs, evs, rx)
    requires forall p :: Op(Removal, p) in Coalesced(evs) <==> EndsRemoved(evs, p)
    requires forall p :: Op(Change, p) in Coalesced(evs) <==> EndsChanged(evs, p)
    ensures Accounts(w, fs, Coalesced(evs), rx)
  {
    hide Readable, WellFormed, TreeProper, IsFile, ValidPath, LastOn;
    var ops := Coalesced(evs);
    forall op | op in ops
      ensures ValidPath(op.path)
      ensures op.typ == Removal ==> Lookup(fs, op.path).None?
    {
      assert op == Op(op.typ, op.path);
      PendingIsAnEvent(evs, op);
    }
    hide Coalesced, EndsRemoved, EndsChanged;
    forall p | p in w.loaded && !IsFile(fs, p) ensures exists op :: op in ops && op.typ == Removal && op.path <= p {
      var r :| r <= p && EndsRemoved(evs, r);
      assert Op(Removal, r) in ops;
    }
    forall p | IsFile(fs, p) && rx(Base(p)) && p !in w.loaded
      ensures exists op :: op in ops && op.typ == Change && op.path <= p
    {
      var r :| r <= p && EndsChanged(evs, r);
      assert Op(Change, r) in ops;
    }
  }

  lemma PendingIsAnEvent(evs: seq<FsEvent>, op: Op)
    requires op in Coalesced(evs)
    ensures exists i :: 0 <= i < |evs| && evs[i].path == op.path
  {
    hide LastType;
    FirstOccurrencesAreThePaths(evs);
    assert op.path in FirstOccurrences(evs);
  }

  /**
   Convergence of an event log: when the last events account for the difference between
   table and tree, processing what is pending leaves exactly the files that were loaded
   before or match, whatever the order, if and only if the removals are harmless.
   */
  lemma EventsConvergeIff(w: Watch, fs: Node, evs: seq<FsEvent>, rx: Pattern)
    requires Healthy(w) && EventsAccount(w, fs, evs, rx)
    ensures ConvergesInAnyOrder(w, fs, Coalesced(evs), rx) <==> EventsHarmless(w, fs, evs, rx)
    ensures EventsHarmless(w, fs, evs, rx) ==>
              forall p :: p in ProcessAll(w, fs, Coalesced(evs), rx).loaded
                          <==> IsFile(fs, p) && (p in w.loaded || rx(Base(p)))
  {
    hide Healthy, EventsAccount, EventsHarmless, RemovalsHarmless, Accounts, Coalesced, IsFile, ProcessAll;
    EventsAsOps(w, fs, evs, rx);
    ConvergesInAnyOrderIff(w, fs, Coalesced(evs), rx);
    if EventsHarmless(w, fs, evs, rx) {
      BatchConverges(w, fs, Coalesced(evs), rx);
    }
  }

  lemma EventsConverge(w: Watch, fs: Node, evs: seq<FsEvent>, rx: Pattern)
    ensures Healthy(w) && EventsAccount(w, fs, evs, rx) && EventsHarmless(w, fs, evs, rx) ==>
              forall p :: p in ProcessAll(w, fs, Coalesced(evs), rx).loaded
                          <==> IsFile(fs, p) && (p in w.loaded || rx(Base(p)))
  {
    hide *;
    if Healthy(w) && EventsAccount(w, fs, evs, rx) {
      EventsConvergeIff(w, fs, evs, rx);
    }
  }

  /** A change event on a loaded regular file reloads it and drops nothing. */
  lemma ChangeEventReloads(w: Watch, fs: Node, ev: FsEvent, rx: Pattern)
    requires ev.bits != 4 && ev.bits != 8 && IsFile(fs, ev.path)
    requires ev.path in w.loaded && (w.loaded[ev.path] || rx(Base(ev.path)))
    ensures ProcessAll(w, fs, Coalesced([ev]), rx) == Watch(w.loaded, w.trace + [LiveLoadFile(ev.path)])
  {
    assert LastOn([ev], 0);
    var p := ev.path;
    assert Coalesced([ev]) == [Op(Change, p)] by {
      assert [ev][..0] == [];
      assert FirstOccurrences([]) == [];
      assert FirstOccurrences([ev]) == [p];
      LastTypeOfLast([ev], 0);
    }
    assert [Op(Change, p)][..0] == [];
    assert ProcessAll(w, fs, [], rx) == w;
    assert w.loaded[p := w.loaded[p]] == w.loaded;
  }
}

/**
 The directory watcher as it is written: pending operations are objects shared between a
 list and a map by path, and the table of loaded files is updated in place.
 */
module WatcherObject {
  import opened Messages
  import opened Paths
  import opened WatcherSpec
  import opened WatcherRuns
  import opened WatcherConvergence
  import opened WatcherEvents

  class PendingOp {
    var typ: OpType
    const path: Path

    constructor (typ: OpType, path: Path)
      ensures this.typ == typ && this.path == path
    {
      this.typ, this.path := typ, path;
    }
  }

  class DirWatcher {
    const rx: Pattern
    var loaded: map<Path, bool>
    var opsByPath: map<Path, PendingOp>
    var opList: seq<PendingOp>
    var trace: seq<ClientCall>
    /** The events registered since the pending operations were last reset. */
    ghost var events: seq<FsEvent>

    function View(): Watch
      reads this
    {
      Watch(loaded, trace)
    }

    /** The map and the list hold the same objects, one for each path. */
    ghost predicate Shared()
      reads `opsByPath, `opList, opList
    {
      && (forall p :: p in opsByPath ==> opsByPath[p] in opList && opsByPath[p].path == p)
      && (forall i :: 0 <= i < |opList| ==> opList[i].path in opsByPath && opsByPath[opList[i].path] == opList[i])
      && NoDuplicates(opList)
    }

    ghost function Ops(): seq<Op>
      reads `opList, opList
    {
      var ops := opList;
      seq(|ops|, i requires 0 <= i < |ops| reads ops => Op(ops[i].typ, ops[i].path))
    }

    /** The pending operations are the coalesced event log. */
    ghost predicate Valid()
      reads this, opList
    {
      Shared() && Ops() == Coalesced(events)
    }

    constructor (rx: Pattern)
      ensures Valid() && View() == Watch(map[], []) && events == [] && this.rx == rx
    {
      this.rx := rx;
      loaded, opsByPath, opList, trace := map[], map[], [], [];
      events := [];
    }

    // -------------------------------------------------------------- events

    method ResetOps()
      modifies `opsByPath, `opList, `events
      ensures Valid() && events == []
    {
      opsByPath, opList, events := map[], [], [];
    }

    lemma PathsOfOps()
      requires Valid()
      ensures forall p :: p in opsByPath <==> p in FirstOccurrences(events)
    {
      hide LastType;
      forall i | 0 <= i < |opList| ensures opList[i].path == FirstOccurrences(events)[i] {
        assert Ops()[i] == Coalesced(events)[i];
      }
      assert |Ops()| == |Coalesced(events)|;
      forall p ensures p in opsByPath <==> p in FirstOccurrences(events) {
        if p in opsByPath {
          var i :| 0 <= i < |opList| && opList[i] == opsByPath[p];
          assert FirstOccurrences(events)[i] == p;
        }
        if p in FirstOccurrences(events) {
          var i :| 0 <= i < |opList| && FirstOccurrences(events)[i] == p;
          assert opList[i].path == p;
        }
      }
    }

    method RetypeOp(path: Path, opType: OpType)
      requires Shared() && path in opsByPath
      modifies opsByPath[path]
      ensures Shared() && |Ops()| == |old(Ops())|
      ensures forall i :: 0 <= i < |opList| ==>
        Ops()[i] == if old(Ops()[i]).path == path then Op(opType, path) else old(Ops()[i])
    {
      opsByPath[path].typ := opType;
    }

    method AppendOp(path: Path, opType: OpType)
      requires Shared() && path !in opsByPath
      modifies `opsByPath, `opList
      ensures Shared() && Ops() == old(Ops()) + [Op(opType, path)]
      ensures |opList| == |old(opList)| + 1 && fresh(opList[|old(opList)|]) && opList[..|old(opList)|] == old(opList)
      ensures path !in old(opsByPath)
    {
      var op := new PendingOp(opType, path);
      opsByPath := opsByPath[path := op];
      opList := opList + [op];
    }

    /** An event on a path already pending rewrites the type of its one object, seen through list and map alike. */
    method RegisterFSEvent(ev: FsEvent)
      requires Valid()
      modifies `opsByPath, `opList, `events, opList
      ensures Valid() && events == old(events) + [ev]
      ensures ev.path in old(opsByPath) ==> opList == old(opList) && opsByPath == old(opsByPath)
      ensures ev.path !in old(opsByPath) ==> |opList| == |old(opList)| + 1 && fresh(opList[|old(opList)|])
    {
      hide Shared, Coalesced, FirstOccurrences;
      PathsOfOps();
      CoalescedStep(events, ev);
      var opType := if ev.bits == REMOVE_BIT || ev.bits == RENAME_BIT then Removal else Change;
      if ev.path in opsByPath {
        PendingIsListed(ev.path);
        RetypeOp(ev.path, opType);
      } else {
        NotPending(ev.path);
        AppendOp(ev.path, opType);
      }
      ghost var ops := Ops();
      events := events + [ev];
      assert Ops() == ops == Coalesced(events);
    }

    lemma PendingIsListed(path: Path)
      requires Shared() && path in opsByPath
      ensures opsByPath[path] in opList
    {
    }

    lemma NotPending(path: Path)
      requires Shared() && path !in opsByPath
      ensures forall i :: 0 <= i < |opList| ==> Ops()[i].path != path
    {
    }

    // -------------------------------------------------------------- loading

    method LoadFile(path: Path, reloaded: bool, explicit: bool)
      modifies `loaded, `trace
      ensures View() == Enter(old(View()), path, reloaded, explicit)
    {
      loaded := loaded[path := explicit];
      if reloaded {
        trace := trace + [LiveLoadFile(path)];
      } else {
        trace := trace + [ClientCall.LoadFile(path)];
      }
    }

    /** `node` is what the listing of `path` gives. */
    method LoadDir(node: Node, path: Path, reloaded: bool)
      requires node.Dir?
      modifies `loaded, `trace
      ensures View() == EnterDir(old(View()), node, path, reloaded, rx)
      decreases node
    {
      if !node.readable {
        return;
      }
      var entries := node.entries;
      assert entries[..0] == [];
      for i := 0 to |entries|
        invariant View() == EnterEntries(old(View()), entries[..i], path, reloaded, rx)
      {
        assert entries[..i + 1][..i] == entries[..i];
        var fullPath := path + [entries[i].name];
        if entries[i].node.Dir? {
          LoadDir(entries[i].node, fullPath, reloaded);
        } else if rx(entries[i].name) {
          LoadFile(fullPath, reloaded, false);
        }
      }
      assert entries[..|entries|] == entries;
    }

    method DoLoad(fs: Node, path: Path, explicit: bool, reloaded: bool)
      modifies `loaded, `trace
      ensures View() == WatcherSpec.DoLoad(old(View()), fs, path, explicit, reloaded, rx)
    {
      hide EnterDir, Enter;
      var found := Lookup(fs, path);
      if found.None? {
        return;
      }
      if found.value.Dir? {
        LoadDir(found.value, path, reloaded);
      } else if explicit {
        LoadFile(path, reloaded, explicit);
      } else if rx(Base(path)) {
        LoadFile(path, reloaded, explicit);
      }
    }

    /** An explicit load, as the watcher's user asks for. */
    method Load(fs: Node, path: Path)
      modifies `loaded, `trace
      ensures View() == Serve(old(View()), Request.Load(fs, path), rx)
    {
      hide WatcherSpec.DoLoad;
      DoLoad(fs, path, true, false);
    }

    // -------------------------------------------------------------- removal

    /**
     The recursive calls, one for each loaded subpath in order, always find their path
     loaded; so the recursion is one level deep.
     */
    method RemovePath(path: Path)
      requires forall p :: p in loaded ==> ValidPath(p)
      modifies `loaded, `trace
      ensures View() == Remove(old(View()), path)
      decreases if path in loaded then 0 else 1
    {
      hide IsSubpath, ValidPath, Sorted, SortPaths, InOrder, Enumerates;
      if path in loaded {
        trace := trace + [LiveRemoveFile(path)];
        loaded := loaded - {path};
        return;
      }
      var pathList := Subpaths(path);
      ghost var w0 := View();
      SortedBelow(w0, path, pathList);
      pathList := SortPaths(pathList);
      assert pathList[..0] == [];
      for i := 0 to |pathList|
        invariant View() == DropAll(w0, pathList[..i])
        invariant forall p :: p in loaded ==> p in w0.loaded
      {
        assert pathList[..i + 1][..i] == pathList[..i];
        DropAllKeys(w0, pathList[..i]);
        assert pathList[i] in pathList && pathList[i] !in pathList[..i];
        RemovePath(pathList[i]);
      }
      assert pathList[..|pathList|] == pathList;
    }

    /** Sorting what lies below a path, in whatever order it was found, gives the one order there is. */
    static lemma SortedBelow(w: Watch, path: Path, found: seq<Path>)
      requires multiset(found) == multiset(Below(w, path))
      requires forall p :: p in w.loaded ==> ValidPath(p)
      ensures SortPaths(found) == InOrder(Below(w, path))
      ensures NoDuplicates(SortPaths(found))
      ensures forall p :: p in SortPaths(found) ==> p in w.loaded
    {
      var order := InOrder(Below(w, path));
      hide IsSubpath, ValidPath, SortPaths;
      EnumerationFacts(order, Below(w, path));
      SortPathsSorts(found);
      SortedIsUnique(order, SortPaths(found));
    }

    /** The loaded subpaths of a path, in whatever order the map is visited. */
    method Subpaths(path: Path) returns (pathList: seq<Path>)
      ensures multiset(pathList) == multiset(Below(View(), path))
    {
      hide IsSubpath;
      pathList := [];
      var rest := loaded.Keys;
      while rest != {}
        invariant rest <= loaded.Keys
        invariant multiset(pathList) == multiset(set p | p in loaded && p !in rest && IsSubpath(path, p))
        decreases |rest|
      {
        var p :| p in rest;
        ghost var was := set q | q in loaded && q !in rest && IsSubpath(path, q);
        ghost var now := set q | q in loaded && q !in rest - {p} && IsSubpath(path, q);
        if IsSubpath(path, p) {
          assert now == was + {p};
          pathList := pathList + [p];
        } else {
          assert now == was;
        }
        rest := rest - {p};
      }
      assert (set p | p in loaded && p !in rest && IsSubpath(path, p)) == Below(View(), path);
    }

    // -------------------------------------------------------------- processing

    method ProcessOp(fs: Node, op: PendingOp)
      requires forall p :: p in loaded ==> ValidPath(p)
      modifies `loaded, `trace
      ensures View() == Process(old(View()), fs, Op(op.typ, op.path), rx)
    {
      hide WatcherSpec.DoLoad, Remove, ValidPath;
      match op.typ {
        case Change =>
          var explicit := false;
          if op.path in loaded {
            explicit := loaded[op.path];
          }
          DoLoad(fs, op.path, explicit, true);
        case Removal =>
          RemovePath(op.path);
      }
    }

    /** Processing the batch is processing the coalesced log of all events since the last reset. */
    method ProcessEvents(fs: Node)
      requires Valid()
      requires ProperTree(fs) && forall p :: p in loaded ==> ValidPath(p)
      requires forall ev :: ev in events ==> ValidPath(ev.path)
      modifies `loaded, `trace, `opsByPath, `opList, `events
      ensures View() == ProcessAll(old(View()), fs, Coalesced(old(events)), rx)
      ensures Valid() && events == []
      ensures Healthy(old(View())) && EventsAccount(old(View()), fs, old(events), rx)
              && EventsHarmless(old(View()), fs, old(events), rx) ==>
                forall p :: p in loaded <==> IsFile(fs, p) && (p in old(loaded) || rx(Base(p)))
    {
      hide Process, ValidPath, ProperTree, Shared, Coalesced, Healthy, EventsAccount, EventsHarmless, IsFile;
      ghost var ops := Ops();
      OpPathsProper(events);
      assert ops[..0] == [];
      for i := 0 to |opList|
        modifies `loaded, `trace
        invariant View() == ProcessAll(old(View()), fs, ops[..i], rx)
        invariant forall p :: p in loaded ==> ValidPath(p)
      {
        assert ops[..i + 1][..i] == ops[..i];
        assert ops[i] in ops;
        ghost var w := View();
        ProcessOp(fs, opList[i]);
        StaysProper(w, fs, Op(opList[i].typ, opList[i].path), rx);
      }
      assert ops[..|opList|] == ops;
      ResetOps();
      EventsConverge(old(View()), fs, old(events), rx);
    }
  }

  // ---------------------------------------------------------------- paths stay proper

  /** Entry names are proper file names. */
  predicate ProperTree(n: Node)
    decreases n, 0
  {
    n.File? || ProperEntries(n.entries)
  }

  predicate ProperEntries(es: seq<Entry>)
    decreases es, 0
  {
    es == [] || (ProperEntries(es[..|es| - 1]) && ValidComponent(es[|es| - 1].name) && ProperTree(es[|es| - 1].node))
  }

  ghost predicate ProperTable(w: Watch) {
    forall p :: p in w.loaded ==> ValidPath(p)
  }

  lemma OpPathsProper(evs: seq<FsEvent>)
    requires forall ev :: ev in evs ==> ValidPath(ev.path)
    ensures forall op :: op in Coalesced(evs) ==> ValidPath(op.path)
  {
    hide ValidPath, LastType;
    FirstOccurrencesAreThePaths(evs);
    forall op | op in Coalesced(evs) ensures ValidPath(op.path) {
      assert op.path in FirstOccurrences(evs);
      var i :| 0 <= i < |evs| && evs[i].path == op.path;
      assert evs[i] in evs;
    }
  }

  lemma {:induction false} EnterEntriesProper(w: Watch, es: seq<Entry>, dir: Path, reloaded: bool, rx: Pattern)
    requires ProperTable(w) && ProperEntries(es) && ValidPath(dir)
    ensures ProperTable(EnterEntries(w, es, dir, reloaded, rx))
    decreases es, 0
  {
    if es != [] {
      var v := EnterEntries(w, es[..|es| - 1], dir, reloaded, rx);
      EnterEntriesProper(w, es[..|es| - 1], dir, reloaded, rx);
      var last := es[|es| - 1];
      assert ValidPath(dir + [last.name]);
      if last.node.Dir? {
        EnterDirProper(v, last.node, dir + [last.name], reloaded, rx);
      }
    }
  }

  lemma {:induction false} EnterDirProper(w: Watch, node: Node, dir: Path, reloaded: bool, rx: Pattern)
    requires node.Dir? && ProperTable(w) && ProperTree(node) && ValidPath(dir)
    ensures ProperTable(EnterDir(w, node, dir, reloaded, rx))
    decreases node, 0
  {
    if node.readable {
      EnterEntriesProper(w, node.entries, dir, reloaded, rx);
    }
  }

  lemma {:induction false} SubtreeProper(fs: Node, p: Path)
    requires ProperTree(fs) && Lookup(fs, p).Some?
    ensures ProperTree(Lookup(fs, p).value)
    decreases |p|
  {
    if p != [] {
      ChildProper(fs.entries, p[0]);
      SubtreeProper(Child(fs.entries, p[0]).value, p[1..]);
    }
  }

  lemma {:induction false} ChildProper(es: seq<Entry>, name: string)
    requires ProperEntries(es) && Child(es, name).Some?
    ensures ProperTree(Child(es, name).value)
  {
    if es[|es| - 1].name != name {
      ChildProper(es[..|es| - 1], name);
    }
  }

  lemma StaysProper(w: Watch, fs: Node, op: Op, rx: Pattern)
    requires ProperTable(w) && ProperTree(fs) && ValidPath(op.path)
    ensures ProperTable(Process(w, fs, op, rx))
  {
    hide ValidPath, IsSubpath, ProperTree;
    if op.typ == Removal {
      DropAllKeys(w, InOrder(Below(w, op.path)));
    } else if Lookup(fs, op.path).Some? && Lookup(fs, op.path).value.Dir? {
      SubtreeProper(fs, op.path);
      EnterDirProper(w, Lookup(fs, op.path).value, op.path, true, rx);
    }
  }
}

/**
 What the watcher keeps over whole runs: its table of loaded files is exactly what its
 client has been told, and processing a batch of events brings it in line with the tree.
 */
module WatcherRuns {
  import opened Messages
  import opened Paths
  import opened WatcherSpec

  // ---------------------------------------------------------------- the client's view

  /** Whether the last call about a path left it loaded. */
  predicate LoadedBy(trace: seq<ClientCall>, p: Path) {
    if trace == [] then false
    else
      var last := trace[|trace| - 1];
      if last.path == p then !last.LiveRemoveFile? else LoadedBy(trace[..|trace| - 1], p)
  }

  /** A file is only ever removed while the client has it loaded. */
  predicate RemovesLoaded(trace: seq<ClientCall>) {
    forall i :: 0 <= i < |trace| && trace[i].LiveRemoveFile? ==> LoadedBy(trace[..i], trace[i].path)
  }

  /** The table is the client's view; every entry matches the pattern or was named explicitly. */
  ghost predicate Agrees(w: Watch, rx: Pattern) {
    && (forall p :: p in w.loaded <==> LoadedBy(w.trace, p))
    && RemovesLoaded(w.trace)
    && (forall p :: p in w.loaded ==> w.loaded[p] || rx(Base(p)))
  }

  lemma CallAppended(trace: seq<ClientCall>, c: ClientCall, p: Path)
    ensures LoadedBy(trace + [c], p) == if c.path == p then !c.LiveRemoveFile? else LoadedBy(trace, p)
  {
    assert (trace + [c])[..|trace|] == trace;
  }

  lemma RemovesAppended(trace: seq<ClientCall>, c: ClientCall)
    requires RemovesLoaded(trace) && (c.LiveRemoveFile? ==> LoadedBy(trace, c.path))
    ensures RemovesLoaded(trace + [c])
  {
    var t := trace + [c];
    forall i | 0 <= i < |t| && t[i].LiveRemoveFile? ensures LoadedBy(t[..i], t[i].path) {
      assert t[..i] == trace[..i];
      if i == |trace| {
        assert trace[..i] == trace;
      }
    }
  }

  lemma EnterAgrees(w: Watch, p: Path, reloaded: bool, explicit: bool, rx: Pattern)
    requires Agrees(w, rx) && (explicit || rx(Base(p)))
    ensures Agrees(Enter(w, p, reloaded, explicit), rx)
  {
    hide LoadedBy, RemovesLoaded;
    var c := if reloaded then LiveLoadFile(p) else LoadFile(p);
    forall q ensures q in Enter(w, p, reloaded, explicit).loaded <==> LoadedBy(w.trace + [c], q) {
      CallAppended(w.trace, c, q);
    }
    RemovesAppended(w.trace, c);
  }

  lemma DropAgrees(w: Watch, p: Path, rx: Pattern)
    requires Agrees(w, rx) && p in w.loaded
    ensures Agrees(Drop(w, p), rx)
  {
    hide LoadedBy, RemovesLoaded;
    forall q ensures q in Drop(w, p).loaded <==> LoadedBy(w.trace + [LiveRemoveFile(p)], q) {
      CallAppended(w.trace, LiveRemoveFile(p), q);
    }
    RemovesAppended(w.trace, LiveRemoveFile(p));
  }

  lemma {:induction false} EnterEntryAgrees(w: Watch, e: Entry, dir: Path, reloaded: bool, rx: Pattern)
    requires Agrees(w, rx)
    ensures Agrees(EnterEntry(w, e, dir, reloaded, rx), rx)
    decreases e, 1
  {
    hide Agrees;
    if e.node.Dir? {
      EnterDirAgrees(w, e.node, dir + [e.name], reloaded, rx);
    } else if rx(e.name) {
      EnterAgrees(w, dir + [e.name], reloaded, false, rx);
    }
  }

  lemma {:induction false} EnterEntriesAgrees(w: Watch, entries: seq<Entry>, dir: Path, reloaded: bool, rx: Pattern)
    requires Agrees(w, rx)
    ensures Agrees(EnterEntries(w, entries, dir, reloaded, rx), rx)
    decreases entries, 0
  {
    hide Agrees;
    if entries != [] {
      EnterEntriesAgrees(w, entries[..|entries| - 1], dir, reloaded, rx);
      EnterEntryAgrees(EnterEntries(w, entries[..|entries| - 1], dir, reloaded, rx), entries[|entries| - 1], dir,
                       reloaded, rx);
    }
  }

  lemma {:induction false} EnterDirAgrees(w: Watch, node: Node, dir: Path, reloaded: bool, rx: Pattern)
    requires node.Dir? && Agrees(w, rx)
    ensures Agrees(EnterDir(w, node, dir, reloaded, rx), rx)
    decreases node, 0
  {
    if node.readable {
      EnterEntriesAgrees(w, node.entries, dir, reloaded, rx);
    }
  }

  lemma DoLoadAgrees(w: Watch, fs: Node, p: Path, explicit: bool, reloaded: bool, rx: Pattern)
    requires Agrees(w, rx)
    ensures Agrees(DoLoad(w, fs, p, explicit, reloaded, rx), rx)
  {
    hide Agrees;
    match Lookup(fs, p)
    case None =>
    case Some(Dir(_, _)) => EnterDirAgrees(w, Lookup(fs, p).value, p, reloaded, rx);
    case Some(File) =>
      if explicit || rx(Base(p)) {
        EnterAgrees(w, p, reloaded, explicit, rx);
      }
  }

  lemma {:induction false} DropAllKeys(w: Watch, paths: seq<Path>)
    ensures forall p :: p in DropAll(w, paths).loaded <==> p in w.loaded && p !in paths
    ensures forall p :: p in DropAll(w, paths).loaded ==> DropAll(w, paths).loaded[p] == w.loaded[p]
  {
    if paths != [] {
      DropAllKeys(w, paths[..|paths| - 1]);
      assert paths == paths[..|paths| - 1] + [paths[|paths| - 1]];
    }
  }

  lemma {:induction false} DropAllAgrees(w: Watch, paths: seq<Path>, rx: Pattern)
    requires Agrees(w, rx) && NoDuplicates(paths) && forall p :: p in paths ==> p in w.loaded
    ensures Agrees(DropAll(w, paths), rx)
  {
    hide Agrees;
    if paths != [] {
      var front, last := paths[..|paths| - 1], paths[|paths| - 1];
      DropAllAgrees(w, front, rx);
      DropAllKeys(w, front);
      assert last !in front by {
        assert forall i :: 0 <= i < |front| ==> front[i] == paths[i] && paths[i] != last;
      }
      DropAgrees(DropAll(w, front), last, rx);
    }
  }

  lemma EnumerationFacts(paths: seq<Path>, s: set<Path>)
    requires Enumerates(paths, s)
    ensures NoDuplicates(paths)
    ensures forall p :: p in paths <==> p in s
  {
    hide Sorted;
    forall p ensures p in paths <==> p in s {
      assert p in paths <==> p in multiset(paths);
    }
    forall i, j | 0 <= i < j < |paths| ensures paths[i] != paths[j] {
      assert multiset(s)[paths[i]] <= 1;
      if paths[i] == paths[j] {
        TwiceInMultiset(paths, i, j);
      }
    }
  }

  lemma TwiceInMultiset(paths: seq<Path>, i: nat, j: nat)
    requires i < j < |paths| && paths[i] == paths[j]
    ensures multiset(paths)[paths[i]] >= 2
  {
    var a, b := paths[..j], paths[j..];
    assert paths == a + b;
    assert a[i] in multiset(a) && b[0] in multiset(b);
  }

  lemma RemoveAgrees(w: Watch, p: Path, rx: Pattern)
    requires Agrees(w, rx)
    ensures Agrees(Remove(w, p), rx)
  {
    hide Agrees, IsSubpath;
    if p in w.loaded {
      DropAgrees(w, p, rx);
    } else {
      EnumerationFacts(InOrder(Below(w, p)), Below(w, p));
      DropAllAgrees(w, InOrder(Below(w, p)), rx);
    }
  }

  /** Something the watcher is asked to do, with the tree it finds at that moment. */
  datatype Request = Load(fs: Node, path: Path) | Pending(fs: Node, op: Op)

  ghost function Serve(w: Watch, r: Request, rx: Pattern): Watch {
    match r
    case Load(fs, p) => DoLoad(w, fs, p, true, false, rx)
    case Pending(fs, op) => Process(w, fs, op, rx)
  }

  ghost function ServeAll(w: Watch, rs: seq<Request>, rx: Pattern): Watch {
    if rs == [] then w else Serve(ServeAll(w, rs[..|rs| - 1], rx), rs[|rs| - 1], rx)
  }

  /**
   Over every run, on trees that may change between any two operations, a path is in the
   table exactly when the last call about it loaded it, a removal is only reported for a
   path then loaded, and every entry matches the pattern or was named explicitly.
   */
  lemma {:induction false} TableIsClientView(rs: seq<Request>, rx: Pattern)
    ensures Agrees(ServeAll(Watch(map[], []), rs, rx), rx)
  {
    if rs != [] {
      hide Agrees;
      var w := ServeAll(Watch(map[], []), rs[..|rs| - 1], rx);
      TableIsClientView(rs[..|rs| - 1], rx);
      match rs[|rs| - 1]
      case Load(fs, p) => DoLoadAgrees(w, fs, p, true, false, rx);
      case Pending(fs, op) =>
        match op.typ
        case Change => DoLoadAgrees(w, fs, op.path, op.path in w.loaded && w.loaded[op.path], true, rx);
        case Removal => RemoveAgrees(w, op.path, rx);
    }
  }

  /** A change to a loaded path that is still a regular file reloads it and leaves the table alone. */
  lemma LoadedFileIsReloaded(rs: seq<Request>, fs: Node, p: Path, rx: Pattern)
    requires p in ServeAll(Watch(map[], []), rs, rx).loaded && IsFile(fs, p)
    ensures var w := ServeAll(Watch(map[], []), rs, rx);
            Process(w, fs, Op(Change, p), rx) == Watch(w.loaded, w.trace + [LiveLoadFile(p)])
  {
    hide ServeAll;
    TableIsClientView(rs, rx);
    var w := ServeAll(Watch(map[], []), rs, rx);
    assert w.loaded[p := w.loaded[p]] == w.loaded;
  }

  // ---------------------------------------------------------------- removal

  /**
   Removing an unloaded path reports each loaded path the subpath test accepts, once
   each, in path order, and nothing else; removing a loaded path reports just that one.
   */
  lemma RemovalIsExact(w: Watch, p: Path, calls: seq<ClientCall>)
    requires Remove(w, p).trace == w.trace + calls
    ensures forall q :: q in Remove(w, p).loaded
                        <==> q in w.loaded && !(if p in w.loaded then q == p else IsSubpath(p, q))
    ensures p in w.loaded ==> calls == [LiveRemoveFile(p)]
    ensures p !in w.loaded ==>
              var paths := InOrder(Below(w, p));
              && Sorted(paths) && NoDuplicates(paths)
              && (forall q :: q in paths <==> q in w.loaded && IsSubpath(p, q))
              && calls == seq(|paths|, i requires 0 <= i < |paths| => LiveRemoveFile(paths[i]))
  {
    hide IsSubpath;
    if p !in w.loaded {
      var paths := InOrder(Below(w, p));
      EnumerationFacts(paths, Below(w, p));
      DropAllKeys(w, paths);
      DropAllTrace(w, paths);
      assert calls == Remove(w, p).trace[|w.trace|..];
    } else {
      assert calls == Remove(w, p).trace[|w.trace|..];
    }
  }

  lemma {:induction false} DropAllTrace(w: Watch, paths: seq<Path>)
    ensures DropAll(w, paths).trace == w.trace + seq(|paths|, i requires 0 <= i < |paths| => LiveRemoveFile(paths[i]))
  {
    if paths != [] {
      DropAllTrace(w, paths[..|paths| - 1]);
    }
  }
}

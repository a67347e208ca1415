/** What the watcher tells its client when it loads from a tree. */
module WatcherLoads {
  import opened Paths
  import opened WatcherSpec
  import opened WatcherTrees
  import opened WatcherRuns

  /** The client's call for a file: live when the watcher reacts to an event, plain when the user asked. */
  function CallFor(live: bool, p: Path): ClientCall {
    if live then LiveLoadFile(p) else LoadFile(p)
  }

  function PathsIn(calls: seq<ClientCall>): set<Path> {
    set c | c in calls :: c.path
  }

  /** Between the two states the client was told to load some files, each once. */
  ghost predicate Tells(w: Watch, v: Watch, live: bool) {
    && w.trace <= v.trace
    && (forall i :: |w.trace| <= i < |v.trace| ==> v.trace[i] == CallFor(live, v.trace[i].path))
    && (forall i, j :: |w.trace| <= i < j < |v.trace| ==> v.trace[i].path != v.trace[j].path)
  }

  ghost function Told(w: Watch, v: Watch): set<Path>
    requires w.trace <= v.trace
  {
    PathsIn(v.trace[|w.trace|..])
  }

  lemma ToldIsThere(w: Watch, v: Watch, i: nat)
    requires w.trace <= v.trace && |w.trace| <= i < |v.trace|
    ensures v.trace[i].path in Told(w, v)
  {
    assert v.trace[i] == v.trace[|w.trace|..][i - |w.trace|];
  }

  lemma TellsOn(w: Watch, v: Watch, u: Watch, live: bool)
    requires Tells(w, v, live) && Tells(v, u, live) && Told(w, v) !! Told(v, u)
    ensures Tells(w, u, live) && Told(w, u) == Told(w, v) + Told(v, u)
  {
    forall i, j | |w.trace| <= i < j < |u.trace| ensures u.trace[i].path != u.trace[j].path {
      if i < |v.trace| <= j {
        assert u.trace[i] == v.trace[i];
        ToldIsThere(w, v, i);
        ToldIsThere(v, u, j);
      } else if j < |v.trace| {
        assert u.trace[i] == v.trace[i] && u.trace[j] == v.trace[j];
      }
    }
    assert u.trace[|w.trace|..] == v.trace[|w.trace|..] + u.trace[|v.trace|..];
  }

  lemma TellsNothing(w: Watch, live: bool)
    ensures Tells(w, w, live) && Told(w, w) == {}
  {
  }

  lemma EnterTells(w: Watch, p: Path, live: bool, explicit: bool)
    ensures Tells(w, Enter(w, p, live, explicit), live) && Told(w, Enter(w, p, live, explicit)) == {p}
  {
    var v := Enter(w, p, live, explicit);
    assert v.trace[|w.trace|..] == [CallFor(live, p)];
  }

  lemma {:induction false} EntryTells(w: Watch, e: Entry, dir: Path, live: bool, rx: Pattern)
    requires Readable(e.node) && WellFormed(e.node)
    ensures Tells(w, EnterEntry(w, e, dir, live, rx), live)
    ensures forall q :: q in Told(w, EnterEntry(w, e, dir, live, rx)) <==> MatchesAmong([e], dir, rx, q)
    decreases e, 1
  {
    forall q ensures MatchesAmong([e], dir, rx, q) <==> MatchesUnder(e.node, dir + [e.name], rx, q) {
      EntryPaths(e, dir, rx, q);
    }
    if e.node.Dir? {
      DirTells(w, e.node, dir + [e.name], live, rx);
    } else {
      TellsNothing(w, live);
      EnterTells(w, dir + [e.name], live, false);
      forall q ensures MatchesUnder(e.node, dir + [e.name], rx, q) <==> q == dir + [e.name] && rx(e.name) {
        if dir + [e.name] <= q && q[|dir| + 1..] == [] {
          assert q == dir + [e.name];
        }
        if q == dir + [e.name] {
          assert q[|dir| + 1..] == [];
        }
      }
    }
  }

  lemma {:induction false} EntriesTell(w: Watch, es: seq<Entry>, dir: Path, live: bool, rx: Pattern)
    requires AllReadable(es) && AllWellFormed(es) && DistinctNames(es)
    ensures Tells(w, EnterEntries(w, es, dir, live, rx), live)
    ensures forall q :: q in Told(w, EnterEntries(w, es, dir, live, rx)) <==> MatchesAmong(es, dir, rx, q)
    decreases es, 0
  {
    if es == [] {
      TellsNothing(w, live);
    } else {
      var front, last := es[..|es| - 1], es[|es| - 1];
      var v := EnterEntries(w, front, dir, live, rx);
      EntriesTell(w, front, dir, live, rx);
      EntryTells(v, last, dir, live, rx);
      hide Tells, Told, Readable, WellFormed;
      forall q
        ensures MatchesAmong(es, dir, rx, q) <==> MatchesAmong(front, dir, rx, q) || MatchesAmong([last], dir, rx, q)
        ensures !(MatchesAmong(front, dir, rx, q) && MatchesAmong([last], dir, rx, q))
      {
        AmongSplits(es, dir, rx, q);
        AmongOnce(es, dir, rx, q);
      }
      hide MatchesAmong;
      TellsOn(w, v, EnterEntry(v, last, dir, live, rx), live);
    }
  }

  /** No path is at or below two entries of a directory. */
  lemma AmongOnce(es: seq<Entry>, dir: Path, rx: Pattern, q: Path)
    requires es != [] && DistinctNames(es)
    ensures !(MatchesAmong(es[..|es| - 1], dir, rx, q) && MatchesAmong([es[|es| - 1]], dir, rx, q))
  {
    hide IsFile;
  }

  lemma {:induction false} DirTells(w: Watch, node: Node, dir: Path, live: bool, rx: Pattern)
    requires node.Dir? && Readable(node) && WellFormed(node)
    ensures Tells(w, EnterDir(w, node, dir, live, rx), live)
    ensures forall q :: q in Told(w, EnterDir(w, node, dir, live, rx)) <==> MatchesUnder(node, dir, rx, q)
    decreases node, 0
  {
    EntriesTell(w, node.entries, dir, live, rx);
    forall q ensures MatchesUnder(node, dir, rx, q) <==> MatchesAmong(node.entries, dir, rx, q) {
      DirPaths(node, dir, rx, q);
    }
  }

  /** Loading a path tells the client of each file there is to load at or below it, once, and of nothing else. */
  lemma LoadTells(w: Watch, fs: Node, p: Path, explicit: bool, live: bool, rx: Pattern)
    requires Readable(fs) && WellFormed(fs)
    ensures Tells(w, DoLoad(w, fs, p, explicit, live, rx), live)
    ensures forall q :: q in Told(w, DoLoad(w, fs, p, explicit, live, rx))
                        <==> p <= q && IsFile(fs, q) && (rx(Base(q)) || (explicit && q == p))
  {
    TellsNothing(w, live);
    EnterTells(w, p, live, explicit);
    FilesBelow(fs, p);
    match Lookup(fs, p)
    case None =>
    case Some(File) =>
    case Some(Dir(_, _)) =>
      var node := Lookup(fs, p).value;
      SubtreeIsSound(fs, p);
      DirTells(w, node, p, live, rx);
      forall q
        ensures MatchesUnder(node, p, rx, q) <==> p < q && IsFile(fs, q) && rx(Base(q))
        ensures IsFile(fs, q) ==> q != p
      {
        FilesUnder(fs, p, rx, q);
      }
      assert DoLoad(w, fs, p, explicit, live, rx) == EnterDir(w, node, p, live, rx);
      hide IsFile, MatchesUnder, EnterDir, DoLoad, Tells, Told;
  }

  /**
   A load asked for by the user tells the client LoadFile, once for each regular file at or
   below the path that matches or is the path itself, and marks that one as explicit; a
   change tells it LiveLoadFile, the path itself counting as asked for if it was before.
   */
  lemma RequestTells(w: Watch, fs: Node, p: Path, rx: Pattern)
    requires Readable(fs) && WellFormed(fs)
    ensures var v := Serve(w, Load(fs, p), rx);
            && Tells(w, v, false)
            && (forall q :: q in Told(w, v) <==> p <= q && IsFile(fs, q) && (rx(Base(q)) || q == p))
            && (IsFile(fs, p) ==> Marked(v, p))
    ensures var v := Serve(w, Pending(fs, Op(Change, p)), rx);
            && Tells(w, v, true)
            && (forall q :: q in Told(w, v) <==> p <= q && IsFile(fs, q) && (rx(Base(q)) || (q == p && Marked(w, p))))
  {
    LoadTells(w, fs, p, true, false, rx);
    LoadTells(w, fs, p, Marked(w, p), true, rx);
    hide Tells, Told, IsFile, EnterDir;
    if IsFile(fs, p) {
      NamedFileIsMarked(w, fs, p, rx);
    }
  }

  lemma NamedFileIsMarked(w: Watch, fs: Node, p: Path, rx: Pattern)
    requires IsFile(fs, p)
    ensures Serve(w, Load(fs, p), rx) == Watch(w.loaded[p := true], w.trace + [LoadFile(p)])
  {
  }
}

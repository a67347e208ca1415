/** File trees, and what loading from them adds to the table. */
module WatcherTrees {
  import opened Messages
  import opened Paths
  import opened WatcherSpec

  // ---------------------------------------------------------------- trees

  predicate Readable(n: Node)
    decreases n, 0
  {
    n.File? || (n.readable && AllReadable(n.entries))
  }

  predicate AllReadable(es: seq<Entry>)
    decreases es, 0
  {
    es == [] || (AllReadable(es[..|es| - 1]) && Readable(es[|es| - 1].node))
  }

  predicate DistinctNames(es: seq<Entry>) {
    forall i, j :: 0 <= i < j < |es| ==> es[i].name != es[j].name
  }

  predicate WellFormed(n: Node)
    decreases n, 0
  {
    n.File? || (DistinctNames(n.entries) && AllWellFormed(n.entries))
  }

  predicate AllWellFormed(es: seq<Entry>)
    decreases es, 0
  {
    es == [] || (AllWellFormed(es[..|es| - 1]) && WellFormed(es[|es| - 1].node))
  }

  lemma {:induction false} ChildIsEntry(es: seq<Entry>, name: string)
    requires DistinctNames(es)
    ensures forall i :: 0 <= i < |es| && es[i].name == name ==> Child(es, name) == Some(es[i].node)
    ensures Child(es, name).Some? ==> exists i :: 0 <= i < |es| && es[i].name == name
  {
    if es != [] {
      ChildIsEntry(es[..|es| - 1], name);
      if es[|es| - 1].name != name && Child(es[..|es| - 1], name).Some? {
        var i :| 0 <= i < |es[..|es| - 1]| && es[..|es| - 1][i].name == name;
        assert es[i].name == name;
      }
    }
  }

  lemma {:induction false} LookupConcat(fs: Node, p: Path, q: Path)
    ensures Lookup(fs, p + q) == match Lookup(fs, p) case None => None case Some(n) => Lookup(n, q)
    decreases |p|
  {
    if p == [] {
      assert p + q == q;
    } else if fs.Dir? {
      assert (p + q)[0] == p[0] && (p + q)[1..] == p[1..] + q;
      match Child(fs.entries, p[0])
      case None =>
      case Some(n) => LookupConcat(n, p[1..], q);
    }
  }

  /** Nothing exists below a path that does not exist, nor strictly below a regular file. */
  lemma NothingBelow(fs: Node, p: Path, q: Path)
    requires p <= q
    ensures Lookup(fs, p).None? ==> Lookup(fs, q).None?
    ensures IsFile(fs, p) && IsFile(fs, q) ==> p == q
  {
    var rest := q[|p|..];
    assert q == p + rest;
    LookupConcat(fs, p, rest);
    if rest == [] {
      assert q == p;
    }
  }

  // ---------------------------------------------------------------- loading a directory

  /** A matching regular file at `dir` plus a path below the node. */
  ghost predicate MatchesUnder(n: Node, dir: Path, rx: Pattern, q: Path) {
    dir <= q && IsFile(n, q[|dir|..]) && rx(Base(q))
  }

  ghost predicate MatchesAmong(es: seq<Entry>, dir: Path, rx: Pattern, q: Path) {
    dir < q && rx(Base(q))
    && exists i :: 0 <= i < |es| && es[i].name == q[|dir|] && IsFile(es[i].node, q[|dir| + 1..])
  }

  /** Loaded because it was named explicitly. */
  predicate Marked(w: Watch, q: Path) {
    q in w.loaded && w.loaded[q]
  }

  lemma {:induction false} EnterEntryAdds(w: Watch, e: Entry, dir: Path, reloaded: bool, rx: Pattern)
    requires Readable(e.node) && WellFormed(e.node)
    ensures forall q :: q in EnterEntry(w, e, dir, reloaded, rx).loaded
                        <==> q in w.loaded || MatchesAmong([e], dir, rx, q)
    ensures forall q :: q in EnterEntry(w, e, dir, reloaded, rx).loaded ==>
              EnterEntry(w, e, dir, reloaded, rx).loaded[q] == (Marked(w, q) && !MatchesAmong([e], dir, rx, q))
    decreases e, 1
  {
    forall q ensures MatchesAmong([e], dir, rx, q) <==> MatchesUnder(e.node, dir + [e.name], rx, q) {
      EntryPaths(e, dir, rx, q);
    }
    if e.node.Dir? {
      EnterDirAdds(w, e.node, dir + [e.name], reloaded, rx);
    } else {
      forall q ensures MatchesUnder(e.node, dir + [e.name], rx, q) <==> q == dir + [e.name] && rx(e.name) {
        if dir + [e.name] <= q && q[|dir| + 1..] == [] {
          assert q == dir + [e.name];
        }
        if q == dir + [e.name] {
          assert q[|dir| + 1..] == [];
        }
      }
    }
  }

  lemma EntryPaths(e: Entry, dir: Path, rx: Pattern, q: Path)
    ensures MatchesAmong([e], dir, rx, q) <==> MatchesUnder(e.node, dir + [e.name], rx, q)
  {
    var d := dir + [e.name];
    if MatchesAmong([e], dir, rx, q) {
      assert q[..|d|] == dir + [q[|dir|]];
    }
    if MatchesUnder(e.node, d, rx, q) {
      assert q[..|dir|] == d[..|dir|] == dir;
      assert q[|dir|] == d[|dir|] == e.name;
      assert [e][0].name == q[|dir|];
    }
  }

  lemma {:induction false} EnterEntriesAdds(w: Watch, es: seq<Entry>, dir: Path, reloaded: bool, rx: Pattern)
    requires AllReadable(es) && AllWellFormed(es)
    ensures forall q :: q in EnterEntries(w, es, dir, reloaded, rx).loaded
                        <==> q in w.loaded || MatchesAmong(es, dir, rx, q)
    ensures forall q :: q in EnterEntries(w, es, dir, reloaded, rx).loaded ==>
              EnterEntries(w, es, dir, reloaded, rx).loaded[q] == (Marked(w, q) && !MatchesAmong(es, dir, rx, q))
    decreases es, 0
  {
    if es != [] {
      var front, last := es[..|es| - 1], es[|es| - 1];
      EnterEntriesAdds(w, front, dir, reloaded, rx);
      EnterEntryAdds(EnterEntries(w, front, dir, reloaded, rx), last, dir, reloaded, rx);
      forall q
        ensures MatchesAmong(es, dir, rx, q) <==> MatchesAmong(front, dir, rx, q) || MatchesAmong([last], dir, rx, q)
      {
        AmongSplits(es, dir, rx, q);
      }
    }
  }

  lemma AmongSplits(es: seq<Entry>, dir: Path, rx: Pattern, q: Path)
    requires es != []
    ensures MatchesAmong(es, dir, rx, q)
            <==> MatchesAmong(es[..|es| - 1], dir, rx, q) || MatchesAmong([es[|es| - 1]], dir, rx, q)
  {
    hide IsFile;
    var front, last := es[..|es| - 1], es[|es| - 1];
    if MatchesAmong(es, dir, rx, q) {
      var i :| 0 <= i < |es| && es[i].name == q[|dir|] && IsFile(es[i].node, q[|dir| + 1..]);
      if i < |front| {
        assert front[i] == es[i];
      } else {
        assert [last][0] == es[i];
      }
    }
    if MatchesAmong(front, dir, rx, q) {
      var i :| 0 <= i < |front| && front[i].name == q[|dir|] && IsFile(front[i].node, q[|dir| + 1..]);
      assert es[i] == front[i];
    }
    if MatchesAmong([last], dir, rx, q) {
      assert es[|es| - 1] == [last][0];
    }
  }

  /** Loading a readable directory adds exactly the matching regular files below it, without the explicit mark. */
  lemma {:induction false} EnterDirAdds(w: Watch, node: Node, dir: Path, reloaded: bool, rx: Pattern)
    requires node.Dir? && Readable(node) && WellFormed(node)
    ensures forall q :: q in EnterDir(w, node, dir, reloaded, rx).loaded
                        <==> q in w.loaded || MatchesUnder(node, dir, rx, q)
    ensures forall q :: q in EnterDir(w, node, dir, reloaded, rx).loaded ==>
              EnterDir(w, node, dir, reloaded, rx).loaded[q] == (Marked(w, q) && !MatchesUnder(node, dir, rx, q))
    decreases node, 0
  {
    EnterEntriesAdds(w, node.entries, dir, reloaded, rx);
    forall q ensures MatchesUnder(node, dir, rx, q) <==> MatchesAmong(node.entries, dir, rx, q) {
      DirPaths(node, dir, rx, q);
    }
  }

  lemma DirPaths(node: Node, dir: Path, rx: Pattern, q: Path)
    requires node.Dir? && DistinctNames(node.entries)
    ensures MatchesUnder(node, dir, rx, q) <==> MatchesAmong(node.entries, dir, rx, q)
  {
    var es := node.entries;
    if dir < q {
      var rest := q[|dir|..];
      assert rest[0] == q[|dir|] && rest[1..] == q[|dir| + 1..];
      ChildIsEntry(es, q[|dir|]);
      if MatchesUnder(node, dir, rx, q) {
        var i :| 0 <= i < |es| && es[i].name == q[|dir|];
        assert IsFile(es[i].node, q[|dir| + 1..]);
      }
      if MatchesAmong(es, dir, rx, q) {
        var i :| 0 <= i < |es| && es[i].name == q[|dir|] && IsFile(es[i].node, q[|dir| + 1..]);
        assert Child(es, q[|dir|]) == Some(es[i].node);
      }
    } else if dir <= q {
      assert q[|dir|..] == [];
    }
  }

  lemma {:induction false} SubtreeIsSound(fs: Node, p: Path)
    requires Readable(fs) && WellFormed(fs) && Lookup(fs, p).Some?
    ensures Readable(Lookup(fs, p).value) && WellFormed(Lookup(fs, p).value)
    decreases |p|
  {
    if p != [] {
      ChildIsSound(fs.entries, p[0]);
      SubtreeIsSound(Child(fs.entries, p[0]).value, p[1..]);
    }
  }

  lemma {:induction false} ChildIsSound(es: seq<Entry>, name: string)
    requires AllReadable(es) && AllWellFormed(es) && Child(es, name).Some?
    ensures Readable(Child(es, name).value) && WellFormed(Child(es, name).value)
  {
    if es[|es| - 1].name != name {
      ChildIsSound(es[..|es| - 1], name);
    }
  }

  /**
   A change to a path makes the watcher load every matching file at or below it, and
   nothing that is not a file.
   */
  lemma ChangeAdds(w: Watch, fs: Node, p: Path, rx: Pattern)
    requires Readable(fs) && WellFormed(fs)
    ensures forall q :: q in Process(w, fs, Op(Change, p), rx).loaded
                        <==> q in w.loaded || (p <= q && IsFile(fs, q) && rx(Base(q)))
    ensures forall q :: q in Process(w, fs, Op(Change, p), rx).loaded ==>
              Process(w, fs, Op(Change, p), rx).loaded[q]
              == (Marked(w, q) && !(p < q && IsFile(fs, q) && rx(Base(q))))
  {
    var v := Process(w, fs, Op(Change, p), rx);
    match Lookup(fs, p)
    case None => FilesBelow(fs, p);
    case Some(File) => FilesBelow(fs, p);
    case Some(Dir(_, _)) =>
      var node := Lookup(fs, p).value;
      SubtreeIsSound(fs, p);
      EnterDirAdds(w, node, p, true, rx);
      assert v == EnterDir(w, node, p, true, rx);
      forall q
        ensures MatchesUnder(node, p, rx, q) <==> p < q && IsFile(fs, q) && rx(Base(q))
        ensures IsFile(fs, q) ==> q != p
      {
        FilesUnder(fs, p, rx, q);
      }
      hide IsFile, MatchesUnder, EnterDir, Process;
  }

  /** No file lies below a path that does not exist, nor strictly below a regular file. */
  lemma FilesBelow(fs: Node, p: Path)
    ensures Lookup(fs, p).None? ==> forall q :: p <= q ==> !IsFile(fs, q)
    ensures IsFile(fs, p) ==> forall q :: p <= q && IsFile(fs, q) ==> p == q
  {
    forall q | p <= q
      ensures Lookup(fs, p).None? ==> !IsFile(fs, q)
      ensures IsFile(fs, p) && IsFile(fs, q) ==> p == q
    {
      NothingBelow(fs, p, q);
    }
  }

  lemma FilesUnder(fs: Node, p: Path, rx: Pattern, q: Path)
    requires Lookup(fs, p).Some? && Lookup(fs, p).value.Dir?
    ensures MatchesUnder(Lookup(fs, p).value, p, rx, q) <==> p < q && IsFile(fs, q) && rx(Base(q))
  {
    if p <= q {
      assert q == p + q[|p|..];
      LookupConcat(fs, p, q[|p|..]);
      if q == p {
        assert q[|p|..] == [];
      }
    }
  }

  /**
   An explicit mark survives a change unless the file is loaded again through a directory
   above it; that only happens to files the pattern accepts, which need no mark.
   */
  lemma MarkIsLostIff(w: Watch, fs: Node, p: Path, q: Path, rx: Pattern)
    requires Readable(fs) && WellFormed(fs) && Marked(w, q)
    ensures var v := Process(w, fs, Op(Change, p), rx);
            && q in v.loaded
            && (!Marked(v, q) <==> p < q && IsFile(fs, q) && rx(Base(q)))
  {
    ChangeAdds(w, fs, p, rx);
  }
}

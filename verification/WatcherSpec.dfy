/**
 The directory watcher's table of loaded files and the calls it makes to its client.

 A file tree is a value: a directory holds its entries sorted by name, as ReadDir gives
 them.  `rx` is the loader pattern applied to a file name.  Client errors change nothing
 in the table, so they do not appear.
 */
module WatcherSpec {
  import opened Messages
  import opened Paths

  // ---------------------------------------------------------------- the file system

  /** An unreadable directory is one whose listing fails. */
  datatype Node = File | Dir(readable: bool, entries: seq<Entry>)

  datatype Entry = Entry(name: string, node: Node)

  function Child(entries: seq<Entry>, name: string): Option<Node> {
    if entries == [] then None
    else if entries[|entries| - 1].name == name then Some(entries[|entries| - 1].node)
    else Child(entries[..|entries| - 1], name)
  }

  /** What stat finds at a path. */
  function Lookup(fs: Node, p: Path): Option<Node>
    decreases |p|
  {
    if p == [] then Some(fs)
    else if fs.File? then None
    else
      match Child(fs.entries, p[0])
      case None => None
      case Some(n) => Lookup(n, p[1..])
  }

  predicate IsFile(fs: Node, p: Path) {
    Lookup(fs, p) == Some(File)
  }

  // ---------------------------------------------------------------- the watcher

  datatype ClientCall = LoadFile(path: Path) | LiveLoadFile(path: Path) | LiveRemoveFile(path: Path)

  /** `loaded` maps each loaded path to whether it was named explicitly. */
  datatype Watch = Watch(loaded: map<Path, bool>, trace: seq<ClientCall>)

  type Pattern = string -> bool

  function Enter(w: Watch, p: Path, reloaded: bool, explicit: bool): Watch {
    Watch(w.loaded[p := explicit], w.trace + [if reloaded then LiveLoadFile(p) else LoadFile(p)])
  }

  function EnterEntry(w: Watch, e: Entry, dir: Path, reloaded: bool, rx: Pattern): Watch
    decreases e, 1
  {
    if e.node.Dir? then EnterDir(w, e.node, dir + [e.name], reloaded, rx)
    else if rx(e.name) then Enter(w, dir + [e.name], reloaded, false)
    else w
  }

  function EnterEntries(w: Watch, entries: seq<Entry>, dir: Path, reloaded: bool, rx: Pattern): Watch
    decreases entries, 0
  {
    if entries == [] then w
    else
      EnterEntry(EnterEntries(w, entries[..|entries| - 1], dir, reloaded, rx), entries[|entries| - 1], dir, reloaded,
                 rx)
  }

  function EnterDir(w: Watch, node: Node, dir: Path, reloaded: bool, rx: Pattern): Watch
    requires node.Dir?
    decreases node, 0
  {
    if node.readable then EnterEntries(w, node.entries, dir, reloaded, rx) else w
  }

  function DoLoad(w: Watch, fs: Node, p: Path, explicit: bool, reloaded: bool, rx: Pattern): Watch {
    match Lookup(fs, p)
    case None => w
    case Some(Dir(_, _)) => EnterDir(w, Lookup(fs, p).value, p, reloaded, rx)
    case Some(File) => if explicit || rx(Base(p)) then Enter(w, p, reloaded, explicit) else w
  }

  function Drop(w: Watch, p: Path): Watch {
    Watch(w.loaded - {p}, w.trace + [LiveRemoveFile(p)])
  }

  function DropAll(w: Watch, paths: seq<Path>): Watch {
    if paths == [] then w else Drop(DropAll(w, paths[..|paths| - 1]), paths[|paths| - 1])
  }

  function Below(w: Watch, p: Path): set<Path> {
    set q | q in w.loaded && IsSubpath(p, q)
  }

  /** The elements of a set, each once, in path order. */
  ghost predicate Enumerates(paths: seq<Path>, s: set<Path>) {
    Sorted(paths) && multiset(paths) == multiset(s)
  }

  ghost function InOrder(s: set<Path>): (paths: seq<Path>)
    ensures Enumerates(paths, s)
    decreases s
  {
    if s == {} then []
    else
      var p :| p in s;
      var rest := InOrder(s - {p});
      InsertPathSorts(rest, p);
      assert s == (s - {p}) + {p};
      InsertPath(rest, p)
  }

  ghost function Remove(w: Watch, p: Path): Watch {
    if p in w.loaded then Drop(w, p) else DropAll(w, InOrder(Below(w, p)))
  }

  // ---------------------------------------------------------------- events

  datatype OpType = Change | Removal

  datatype Op = Op(typ: OpType, path: Path)

  ghost function Process(w: Watch, fs: Node, op: Op, rx: Pattern): Watch {
    match op.typ
    case Change => DoLoad(w, fs, op.path, op.path in w.loaded && w.loaded[op.path], true, rx)
    case Removal => Remove(w, op.path)
  }

  ghost function ProcessAll(w: Watch, fs: Node, ops: seq<Op>, rx: Pattern): Watch {
    if ops == [] then w else Process(ProcessAll(w, fs, ops[..|ops| - 1], rx), fs, ops[|ops| - 1], rx)
  }

  // ---------------------------------------------------------------- coalescing

  /** A file-system event: `bits` is fsnotify's operation mask. */
  datatype FsEvent = FsEvent(bits: nat, path: Path)

  const REMOVE_BIT: nat := 4
  const RENAME_BIT: nat := 8

  /** Only an event that is exactly a removal or exactly a renaming counts as a removal. */
  function TypeOf(ev: FsEvent): OpType {
    if ev.bits == REMOVE_BIT || ev.bits == RENAME_BIT then Removal else Change
  }

  /** The paths of an event log in order of first occurrence. */
  function FirstOccurrences(evs: seq<FsEvent>): seq<Path> {
    if evs == [] then []
    else
      var before, p := FirstOccurrences(evs[..|evs| - 1]), evs[|evs| - 1].path;
      if p in before then before else before + [p]
  }

  /** The type of the last event on a path. */
  function LastType(evs: seq<FsEvent>, p: Path): OpType {
    if evs == [] then Change
    else if evs[|evs| - 1].path == p then TypeOf(evs[|evs| - 1])
    else LastType(evs[..|evs| - 1], p)
  }

  /** What the pending operations should be: each path once, where it first occurred, typed by its last event. */
  function Coalesced(evs: seq<FsEvent>): seq<Op> {
    var paths := FirstOccurrences(evs);
    seq(|paths|, i requires 0 <= i < |paths| => Op(LastType(evs, paths[i]), paths[i]))
  }

  /** One more event retypes the operation on its path, or appends a new one. */
  lemma CoalescedStep(evs: seq<FsEvent>, ev: FsEvent)
    ensures var before, after := Coalesced(evs), Coalesced(evs + [ev]);
            && |before| <= |after|
            && (forall i :: 0 <= i < |before| ==>
                  after[i] == if before[i].path == ev.path then Op(TypeOf(ev), ev.path) else before[i])
            && (if ev.path in FirstOccurrences(evs) then |after| == |before|
                else |after| == |before| + 1 && after[|before|] == Op(TypeOf(ev), ev.path))
  {
    hide TypeOf;
    assert (evs + [ev])[..|evs|] == evs;
  }

  lemma {:induction false} FirstOccurrencesAreThePaths(evs: seq<FsEvent>)
    ensures NoDuplicates(FirstOccurrences(evs))
    ensures forall p :: p in FirstOccurrences(evs) <==> exists i :: 0 <= i < |evs| && evs[i].path == p
  {
    if evs != [] {
      var front, last := evs[..|evs| - 1], evs[|evs| - 1];
      FirstOccurrencesAreThePaths(front);
      forall p ensures p in FirstOccurrences(evs) <==> exists i :: 0 <= i < |evs| && evs[i].path == p {
        if p in FirstOccurrences(front) {
          var i :| 0 <= i < |front| && front[i].path == p;
          assert evs[i].path == p;
        } else if p == last.path {
          assert evs[|evs| - 1].path == p;
        } else {
          assert forall i :: 0 <= i < |evs| && evs[i].path == p ==> i < |front| && front[i].path == p;
        }
      }
    }
  }
}

/**
  The files of a compiler bundle as a status shows them: inodes with times, directories that name inodes,
  and paths that lead from the root of the bundle to an inode. Whatever is written, created, removed, moved
  or linked changes the time of an inode on the way; a file or a directory that is moved keeps its own times
  and everything below it.
 */
module BundleFiles {
  import opened Basics

  type Ino = nat
  type Name = string
  type Path = seq<Name>
  type Content = nat

  datatype Body = File(content: Content) | Directory(children: map<Name, Ino>)

  /** `time` is the newest of the times of the inode, and `rest` stands for all else that a status shows. */
  datatype Node = Node(body: Body, time: nat, rest: nat)

  datatype Files = Files(root: Option<Ino>, nodes: map<Ino, Node>)

  datatype Status = Missing | Present(ino: Ino, time: nat, rest: nat)

  /** The clock of the file system and of the processes: `stamp` is the time that a change at a moment gets. */
  datatype Clocks = Clocks(stamp: nat -> nat, racy: nat)

  /** A change gets a time that is less than the window behind. */
  ghost predicate Fine(clocks: Clocks) {
    forall t: nat :: t < clocks.stamp(t) + clocks.racy
  }

  // ----- paths -----

  function Child(fs: Files, directory: Ino, name: Name): (r: Option<Ino>)
    requires directory in fs.nodes
    ensures r.Some? ==> r.value in fs.nodes
  {
    var body := fs.nodes[directory].body;
    if body.Directory? && name in body.children && body.children[name] in fs.nodes then Some(body.children[name])
    else None
  }

  function Lookup(fs: Files, path: Path): (r: Option<Ino>)
    ensures r.Some? ==> r.value in fs.nodes
  {
    if path == [] then (if fs.root.Some? && fs.root.value in fs.nodes then fs.root else None)
    else
      var last := |path| - 1;
      match Lookup(fs, path[..last])
      case None => None
      case Some(directory) => Child(fs, directory, path[last])
  }

  predicate IsDirectory(fs: Files, path: Path) {
    Lookup(fs, path).Some? && fs.nodes[Lookup(fs, path).value].body.Directory?
  }

  function StatusOf(fs: Files, ino: Ino): Status
    requires ino in fs.nodes
  {
    Present(ino, fs.nodes[ino].time, fs.nodes[ino].rest)
  }

  function StatusAt(fs: Files, path: Path): Status {
    match Lookup(fs, path)
    case None => Missing
    case Some(ino) => StatusOf(fs, ino)
  }

  // ----- changes -----

  datatype Change =
    /** The inode gets another body of its kind: a write, or names that are added, removed or moved. Or the body
        stays, and only times change. A time of modification can be any; the other one cannot. */
    | Set(ino: Ino, body: Body, modified: nat, rest: nat)
    /** A new inode. Its number may have been in use, but nothing leads to it any more. */
    | New(ino: Ino, body: Body, modified: nat, rest: nat)
    /** A directory is moved to the path of the root, or the root is moved away. */
    | Place(root: Option<Ino>, modified: nat, rest: nat)

  function Max(a: nat, b: nat): nat {
    if a < b then b else a
  }

  predicate Linked(fs: Files, ino: Ino) {
    || fs.root == Some(ino)
    || exists d | d in fs.nodes :: fs.nodes[d].body.Directory? && ino in fs.nodes[d].body.children.Values
  }

  function Stamped(clocks: Clocks, now: nat, body: Body, modified: nat, rest: nat): Node {
    Node(body, Max(modified, clocks.stamp(now)), rest)
  }

  function Changed(clocks: Clocks, now: nat, fs: Files, change: Change): Files {
    match change
    case Set(ino, body, modified, rest) =>
      if ino !in fs.nodes || fs.nodes[ino].body.Directory? != body.Directory? then fs
      else fs.(nodes := fs.nodes[ino := Stamped(clocks, now, body, modified, rest)])
    case New(ino, body, modified, rest) =>
      if Linked(fs, ino) then fs else fs.(nodes := fs.nodes[ino := Stamped(clocks, now, body, modified, rest)])
    case Place(None, _, _) => fs.(root := None)
    case Place(Some(ino), modified, rest) =>
      if ino !in fs.nodes then fs
      else Files(Some(ino), fs.nodes[ino := Stamped(clocks, now, fs.nodes[ino].body, modified, rest)])
  }

  /** All that the proofs know of changes. What is not the same has a time of the present; a number that
      something leads to stays with its inode, and so does its kind; and a new root has a time of the present. */
  ghost predicate Later(clocks: Clocks, now: nat, fs: Files, fs': Files) {
    && (forall i | i in fs'.nodes ::
          (i in fs.nodes && fs'.nodes[i] == fs.nodes[i]) || fs'.nodes[i].time >= clocks.stamp(now))
    && fs.nodes.Keys <= fs'.nodes.Keys
    && (forall i | i in fs'.nodes && Linked(fs, i) ::
          i in fs.nodes && fs'.nodes[i].body.Directory? == fs.nodes[i].body.Directory?)
    && (fs'.root == fs.root || fs'.root.None?
        || (fs'.root.value in fs'.nodes && fs'.nodes[fs'.root.value].time >= clocks.stamp(now)))
  }

  lemma ChangedLater(clocks: Clocks, now: nat, fs: Files, change: Change)
    ensures Later(clocks, now, fs, Changed(clocks, now, fs, change))
  {
  }

  // ----- what has not changed since -----

  /** The times of the inode are older than the window before `clock`. */
  ghost predicate Old(clocks: Clocks, clock: nat, fs: Files, ino: Ino) {
    ino in fs.nodes && fs.nodes[ino].time + clocks.racy <= clock
  }

  /** The first `k` directories on the path are old. */
  ghost predicate Calm(clocks: Clocks, clock: nat, fs: Files, path: Path, k: nat)
    requires k <= |path|
  {
    forall j | 0 <= j < k :: Lookup(fs, path[..j]).Some? && Old(clocks, clock, fs, Lookup(fs, path[..j]).value)
  }

  /** What is old now was there before, and was the same. */
  lemma OldBefore(clocks: Clocks, clock: nat, now: nat, fs: Files, fs': Files, ino: Ino)
    requires Fine(clocks) && clock <= now && Later(clocks, now, fs, fs') && Old(clocks, clock, fs', ino)
    ensures ino in fs.nodes && fs'.nodes[ino] == fs.nodes[ino] && Old(clocks, clock, fs, ino)
    ensures fs'.root == Some(ino) ==> fs.root == Some(ino)
  {
    assert now < clocks.stamp(now) + clocks.racy;
  }

  lemma ChildLinked(fs: Files, directory: Ino, name: Name)
    requires directory in fs.nodes && fs.nodes[directory].body.Directory?
    requires name in fs.nodes[directory].body.children
    ensures Linked(fs, fs.nodes[directory].body.children[name])
  {
    var children := fs.nodes[directory].body.children;
    assert children[name] in children.Values;
  }

  /** Where the path is calm now, it led to the same inodes before: through old directories, and one step further. */
  lemma {:induction false} CalmBefore(
    clocks: Clocks, clock: nat, now: nat, fs: Files, fs': Files, path: Path, k: nat)
    requires Fine(clocks) && clock <= now && Later(clocks, now, fs, fs')
    requires 0 < k <= |path| && Calm(clocks, clock, fs', path, k)
    ensures Calm(clocks, clock, fs, path, k) && Lookup(fs', path[..k]) == Lookup(fs, path[..k])
    ensures IsDirectory(fs', path[..k]) == IsDirectory(fs, path[..k])
  {
    hide Linked;
    if k > 1 {
      assert Calm(clocks, clock, fs', path, k - 1);
      CalmBefore(clocks, clock, now, fs, fs', path, k - 1);
    }
    var directory := Lookup(fs', path[..k - 1]).value;
    OldBefore(clocks, clock, now, fs, fs', directory);
    assert path[..k][..k - 1] == path[..k - 1] && path[..k][k - 1] == path[k - 1];
    var body := fs.nodes[directory].body;
    if body.Directory? && path[k - 1] in body.children {
      ChildLinked(fs, directory, path[k - 1]);
    }
  }

  // ----- what the signature covers -----

  const MANIFEST: Path := ["manifest.json"]
  const RUNTIME: Path := ["share", "runtime"]

  predicate Skipped(compiler: Path, path: Path) {
    path == compiler || RUNTIME <= path || path == MANIFEST
  }

  /** A path in the signature, and whether it was found as a directory. */
  datatype Member = Member(directory: bool, path: Path)

  /** The directory can be listed, and so can everything in it that is not skipped. */
  predicate Readable(compiler: Path, fs: Files, path: Path) {
    && IsDirectory(fs, path)
    && forall name | name in fs.nodes[Lookup(fs, path).value].body.children ::
      Skipped(compiler, path + [name]) || Lookup(fs, path + [name]).Some?
  }

  /** Files count at the top and in three directories. */
  predicate WithFiles(path: Path) {
    path == [] || path == ["bin"] || path == ["lib"] || path == ["zig"]
  }

  /** What a listing of the directory adds to the members. */
  function Found(compiler: Path, fs: Files, path: Path): set<Member>
    requires IsDirectory(fs, path)
  {
    set name | name in fs.nodes[Lookup(fs, path).value].body.children
               && !Skipped(compiler, path + [name])
               && (IsDirectory(fs, path + [name]) || WithFiles(path)) ::
      Member(IsDirectory(fs, path + [name]), path + [name])
  }

  /** The directory is in the signature of every bundle in which it exists. */
  predicate Coverable(compiler: Path, path: Path) {
    path == [] || path == MANIFEST || (|path| <= 2 && forall k | 0 < k <= |path| :: !Skipped(compiler, path[..k]))
  }

  /** So are all the directories on the way to the path. */
  predicate Visible(compiler: Path, path: Path) {
    path != [] && forall k | 0 < k < |path| :: Coverable(compiler, path[..k])
  }
}

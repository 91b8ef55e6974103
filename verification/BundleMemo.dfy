/**
  The remembered identity of a compiler bundle. A memo holds the status of the bundle's directories and of
  some of its files, and the digests of its tools; it is trusted while every status is the one it holds. Files
  may change at any moment, also between the steps of a process that lists the bundle, takes a signature,
  hashes the tools or checks a memo.
 */
module BundleMemo {
  import opened Basics
  import opened BundleFiles

  type Digest = nat

  /** What does not change in a run: how contents are hashed, the clocks, and what the memo is asked for. */
  datatype World = World(hash: Content -> Digest, clocks: Clocks, compiler: Path, tools: set<Path>)

  type Signature = map<Member, Status>

  datatype Memo = Memo(signature: Signature, digests: map<Path, Digest>)

  datatype Task =
    /** `paths` are the directories that are still to be listed. */
    | Listing(clock: nat, paths: set<Path>, members: set<Member>)
    | Signing(clock: nat, todo: set<Member>, entries: Signature, newest: nat)
    | Hashing(clock: nat, paths: set<Path>, entries: Signature, newest: nat, digests: map<Path, Digest>)
    | Comparing(clock: nat, todo: set<Member>, entries: Signature, newest: nat, digests: map<Path, Digest>)
    /** `seen` is what the files held when their status was checked. */
    | Recalling(memo: Memo, todo: set<Member>, seen: map<Path, Content>)
    | Recalled(memo: Memo, seen: map<Path, Content>)
    | Ended

  datatype State = State(now: nat, fs: Files, memo: Option<Memo>, tasks: map<nat, Task>)

  datatype Action =
    | Wait(until: nat)
    | Alter(change: Change)
    | StartHash(process: nat)
    | StartRecall(process: nat)
    | Step(process: nat, pick: Member)
    | Stop(process: nat)

  function Trusts(clocks: Clocks, clock: nat, newest: nat): bool {
    (if clock < newest then 0 else clock - newest) >= clocks.racy
  }

  function TimeOf(status: Status): nat {
    if status.Present? then status.time else 0
  }

  function Put(s: State, process: nat, task: Task): State {
    s.(tasks := s.tasks[process := task])
  }

  const TOP := Member(true, [])

  /** The members that every signature has from the start. */
  const FIRST: set<Member> := {TOP, Member(false, MANIFEST)}

  function ToolMembers(w: World): set<Member> {
    set tool | tool in w.tools && !Skipped(w.compiler, tool) :: Member(false, tool)
  }

  /** The directories at the top are listed after the top. */
  function Inner(path: Path, found: set<Member>): set<Path> {
    if path == [] then set m | m in found && m.directory :: m.path else {}
  }

  /** A member that was found as a directory must still be there. */
  predicate Lost(fs: Files, m: Member) {
    m.directory && StatusAt(fs, m.path).Missing?
  }

  /** The bundle is listed, the status of each member is taken, each tool is hashed, and then each status is
      taken again. */
  function Advance(w: World, s: State, process: nat, pick: Member): State
    requires process in s.tasks
  {
    match s.tasks[process]
    case Listing(clock, todo, members) =>
      if todo == {} then Put(s, process, Signing(clock, members + ToolMembers(w), map[], 0))
      else if pick.path !in todo then s
      else if !Readable(w.compiler, s.fs, pick.path) then Put(s, process, Ended)
      else
        var found := Found(w.compiler, s.fs, pick.path);
        Put(s, process, Listing(clock, todo - {pick.path} + Inner(pick.path, found), members + found))
    case Signing(clock, todo, entries, newest) =>
      if todo == {} then Put(s, process, Hashing(clock, w.tools, entries, newest, map[]))
      else if pick !in todo then s
      else if Lost(s.fs, pick) then Put(s, process, Ended)
      else
        var status := StatusAt(s.fs, pick.path);
        Put(s, process, Signing(clock, todo - {pick}, entries[pick := status], Max(newest, TimeOf(status))))
    case Hashing(clock, todo, entries, newest, digests) =>
      if todo == {} then Put(s, process, Comparing(clock, entries.Keys, entries, newest, digests))
      else if pick.path !in todo then s
      else
        match Lookup(s.fs, pick.path) {
          case None => Put(s, process, Ended)
          case Some(ino) =>
            match s.fs.nodes[ino].body
            case Directory(_) => Put(s, process, Ended)
            case File(content) =>
              Put(s, process,
                  Hashing(clock, todo - {pick.path}, entries, newest, digests[pick.path := w.hash(content)]))
        }
    case Comparing(clock, todo, entries, newest, digests) =>
      if todo == {} then
        Put(if Trusts(w.clocks, clock, newest) then s.(memo := Some(Memo(entries, digests))) else s, process, Ended)
      else if pick !in todo || pick !in entries then s
      else if Lost(s.fs, pick) || StatusAt(s.fs, pick.path) != entries[pick] then Put(s, process, Ended)
      else Put(s, process, Comparing(clock, todo - {pick}, entries, newest, digests))
    case Recalling(memo, todo, seen) =>
      if todo == {} then Put(s, process, Recalled(memo, seen))
      else if pick !in todo || pick !in memo.signature then s
      else if Lost(s.fs, pick) || StatusAt(s.fs, pick.path) != memo.signature[pick] then Put(s, process, Ended)
      else Put(s, process, Recalling(memo, todo - {pick}, Look(s.fs, pick, seen)))
    case Recalled(_, _) => s
    case Ended => s
  }

  function Look(fs: Files, m: Member, seen: map<Path, Content>): map<Path, Content> {
    match Lookup(fs, m.path)
    case None => seen
    case Some(ino) =>
      var body := fs.nodes[ino].body;
      if body.File? && !m.directory then seen[m.path := body.content] else seen
  }

  function Perform(w: World, s: State, action: Action): State {
    match action
    case Wait(until) => s.(now := Max(s.now, until))
    case Alter(change) => s.(fs := Changed(w.clocks, s.now, s.fs, change))
    case StartHash(process) => if process in s.tasks then s else Put(s, process, Listing(s.now, {[]}, FIRST))
    case StartRecall(process) =>
      if process in s.tasks || s.memo.None? then s
      else Put(s, process, Recalling(s.memo.value, s.memo.value.signature.Keys, map[]))
    case Step(process, pick) => if process in s.tasks then Advance(w, s, process, pick) else s
    case Stop(process) => s.(tasks := s.tasks - {process})
  }

  const EMPTY := State(0, Files(None, map[]), None, map[])

  function After(w: World, s: State, actions: seq<Action>): State {
    if actions == [] then s
    else Perform(w, After(w, s, actions[..|actions| - 1]), actions[|actions| - 1])
  }

  /** The state after a run, from an empty disk. */
  function Run(w: World, actions: seq<Action>): State {
    After(w, EMPTY, actions)
  }

  // ----- what every run keeps, for one tool -----

  /** The member that stands for the first `k` steps of the path in a signature. */
  function Mark(path: Path, k: nat): Member
    requires k <= |path|
  {
    Member(k < |path| && path[..k] != MANIFEST, path[..k])
  }

  function ToolMark(path: Path): Member {
    Member(false, path)
  }

  /** A directory to which the path calmly leads is a member, or one before it is still to be listed. */
  ghost predicate Listed(w: World, clock: nat, fs: Files, tool: Path, todo: set<Path>, members: set<Member>) {
    && FIRST <= members
    && (forall k | 0 < k < |tool| && Calm(w.clocks, clock, fs, tool, k) && IsDirectory(fs, tool[..k]) ::
          Mark(tool, k) in members || exists j | 0 <= j < k :: tool[..j] in todo)
  }

  function InoOf(status: Status): Option<Ino> {
    if status.Present? then Some(status.ino) else None
  }

  /** What the path calmly leads to is what was signed. */
  ghost predicate Signed(w: World, clock: nat, fs: Files, tool: Path, entries: Signature) {
    && (forall k | 0 < k <= |tool| && Calm(w.clocks, clock, fs, tool, k) && Mark(tool, k) in entries ::
          InoOf(entries[Mark(tool, k)]) == Lookup(fs, tool[..k]))
    && (forall m | m in entries && m.directory :: entries[m].Present?)
  }

  ghost predicate Newest(entries: Signature, newest: nat) {
    forall m | m in entries :: TimeOf(entries[m]) <= newest
  }

  /** The inode of the status shows it, if there is one. */
  ghost predicate Kept(fs: Files, status: Status) {
    status.Present? ==> status.ino in fs.nodes && StatusOf(fs, status.ino) == status
  }

  /** As far as statuses are still to be compared, the comparison would succeed on the way to the tool. */
  ghost predicate Holds(fs: Files, tool: Path, entries: Signature, todo: set<Member>) {
    && TOP in entries && entries[TOP].Present?
    && (TOP in todo ==> fs.root == Some(entries[TOP].ino))
    && (forall k | 0 <= k < |tool| && Mark(tool, k) in entries && Mark(tool, k) in todo ::
          Kept(fs, entries[Mark(tool, k)]))
  }

  /** The digest is that of the file which the status belongs to, as long as the file shows it. */
  ghost predicate Genuine(w: World, fs: Files, status: Status, digest: Digest) {
    && status.Present?
    && (Kept(fs, status) ==>
          var body := fs.nodes[status.ino].body;
          body.File? && w.hash(body.content) == digest)
  }

  ghost predicate Hashed(
    w: World, fs: Files, tool: Path, entries: Signature, todo: set<Member>, digests: map<Path, Digest>)
  {
    tool in digests && ToolMark(tool) in entries && Holds(fs, tool, entries, todo) ==>
      Genuine(w, fs, entries[ToolMark(tool)], digests[tool])
  }

  ghost predicate MemoOk(w: World, now: nat, fs: Files, tool: Path, memo: Memo) {
    tool in memo.digests && ToolMark(tool) in memo.signature ==>
      && Genuine(w, fs, memo.signature[ToolMark(tool)], memo.digests[tool])
      && TimeOf(memo.signature[ToolMark(tool)]) + w.clocks.racy <= now
  }

  ghost predicate SeenOk(w: World, tool: Path, memo: Memo, todo: set<Member>, seen: map<Path, Content>) {
    tool in memo.digests && ToolMark(tool) in memo.signature && ToolMark(tool) !in todo ==>
      tool in seen && w.hash(seen[tool]) == memo.digests[tool]
  }

  ghost predicate TaskOk(w: World, now: nat, fs: Files, tool: Path, task: Task) {
    match task
    case Listing(clock, todo, members) =>
      clock <= now && Listed(w, clock, fs, tool, todo, members)
    case Signing(clock, todo, entries, newest) =>
      && clock <= now && Newest(entries, newest)
      && Listed(w, clock, fs, tool, {}, todo + entries.Keys) && Signed(w, clock, fs, tool, entries)
    case Hashing(clock, _, entries, newest, digests) =>
      && clock <= now && Newest(entries, newest)
      && Listed(w, clock, fs, tool, {}, entries.Keys) && Signed(w, clock, fs, tool, entries)
      && (Trusts(w.clocks, clock, newest) ==> Hashed(w, fs, tool, entries, entries.Keys, digests))
    case Comparing(clock, todo, entries, newest, digests) =>
      && clock <= now && Newest(entries, newest)
      && TOP in entries && entries[TOP].Present?
      && (Trusts(w.clocks, clock, newest) ==> Hashed(w, fs, tool, entries, todo, digests))
    case Recalling(memo, todo, seen) => MemoOk(w, now, fs, tool, memo) && SeenOk(w, tool, memo, todo, seen)
    case Recalled(memo, seen) => MemoOk(w, now, fs, tool, memo) && SeenOk(w, tool, memo, {}, seen)
    case Ended => true
  }

  ghost predicate Inv(w: World, s: State, tool: Path) {
    && (s.memo.Some? ==> MemoOk(w, s.now, s.fs, tool, s.memo.value))
    && (forall p | p in s.tasks :: TaskOk(w, s.now, s.fs, tool, s.tasks[p]))
  }

  /** What the results are about: changes get times less than the window behind, and the directories on the way
      to the tool are in the signature wherever they exist. */
  ghost predicate Watched(w: World, tool: Path) {
    Fine(w.clocks) && w.clocks.racy > 0 && Visible(w.compiler, tool)
  }

  // ----- while files change -----

  lemma ListedLater(
    w: World, clock: nat, now: nat, fs: Files, fs': Files, tool: Path, todo: set<Path>, members: set<Member>)
    requires Fine(w.clocks) && clock <= now && Later(w.clocks, now, fs, fs')
    requires Listed(w, clock, fs, tool, todo, members)
    ensures Listed(w, clock, fs', tool, todo, members)
  {
    hide Later, Calm;
    forall k | 0 < k < |tool| && Calm(w.clocks, clock, fs', tool, k) && IsDirectory(fs', tool[..k])
      ensures Mark(tool, k) in members || exists j | 0 <= j < k :: tool[..j] in todo
    {
      CalmBefore(w.clocks, clock, now, fs, fs', tool, k);
    }
  }

  lemma SignedLater(w: World, clock: nat, now: nat, fs: Files, fs': Files, tool: Path, entries: Signature)
    requires Fine(w.clocks) && clock <= now && Later(w.clocks, now, fs, fs') && Signed(w, clock, fs, tool, entries)
    ensures Signed(w, clock, fs', tool, entries)
  {
    hide Later, Calm;
    forall k | 0 < k <= |tool| && Calm(w.clocks, clock, fs', tool, k) && Mark(tool, k) in entries
      ensures InoOf(entries[Mark(tool, k)]) == Lookup(fs', tool[..k])
    {
      CalmBefore(w.clocks, clock, now, fs, fs', tool, k);
    }
  }

  /** A status that is old is kept now only if it was kept before. */
  lemma KeptBefore(w: World, clock: nat, now: nat, fs: Files, fs': Files, status: Status)
    requires Fine(w.clocks) && clock <= now && Later(w.clocks, now, fs, fs')
    requires TimeOf(status) + w.clocks.racy <= clock && Kept(fs', status)
    ensures Kept(fs, status)
    ensures status.Present? ==>
              && fs'.nodes[status.ino] == fs.nodes[status.ino]
              && (fs'.root == Some(status.ino) ==> fs.root == Some(status.ino))
  {
    if status.Present? {
      OldBefore(w.clocks, clock, now, fs, fs', status.ino);
    }
  }

  lemma GenuineLater(w: World, clock: nat, now: nat, fs: Files, fs': Files, status: Status, digest: Digest)
    requires Fine(w.clocks) && clock <= now && Later(w.clocks, now, fs, fs')
    requires TimeOf(status) + w.clocks.racy <= clock && Genuine(w, fs, status, digest)
    ensures Genuine(w, fs', status, digest)
  {
    if Kept(fs', status) {
      KeptBefore(w, clock, now, fs, fs', status);
    }
  }

  /** A signature that is trusted is old. */
  lemma TrustedOld(w: World, clock: nat, entries: Signature, newest: nat, m: Member)
    requires Newest(entries, newest) && Trusts(w.clocks, clock, newest) && w.clocks.racy > 0 && m in entries
    ensures TimeOf(entries[m]) + w.clocks.racy <= clock
  {
  }

  lemma HoldsBefore(
    w: World, clock: nat, now: nat, fs: Files, fs': Files, tool: Path, entries: Signature, newest: nat,
    todo: set<Member>)
    requires Fine(w.clocks) && w.clocks.racy > 0 && clock <= now && Later(w.clocks, now, fs, fs')
    requires Newest(entries, newest) && Trusts(w.clocks, clock, newest) && tool != []
    requires Holds(fs', tool, entries, todo)
    ensures Holds(fs, tool, entries, todo)
  {
    hide Later, Newest;
    forall k | 0 <= k < |tool| && Mark(tool, k) in entries && Mark(tool, k) in todo
      ensures Kept(fs, entries[Mark(tool, k)])
    {
      TrustedOld(w, clock, entries, newest, Mark(tool, k));
      KeptBefore(w, clock, now, fs, fs', entries[Mark(tool, k)]);
    }
    if TOP in todo {
      assert Mark(tool, 0) == TOP;
      TrustedOld(w, clock, entries, newest, TOP);
      KeptBefore(w, clock, now, fs, fs', entries[TOP]);
    }
  }

  lemma HashedLater(
    w: World, clock: nat, now: nat, fs: Files, fs': Files, tool: Path, entries: Signature, newest: nat,
    todo: set<Member>, digests: map<Path, Digest>)
    requires Watched(w, tool) && clock <= now && Later(w.clocks, now, fs, fs')
    requires Newest(entries, newest) && Trusts(w.clocks, clock, newest) && Hashed(w, fs, tool, entries, todo, digests)
    ensures Hashed(w, fs', tool, entries, todo, digests)
  {
    hide Later, Newest, Holds, Genuine;
    if tool in digests && ToolMark(tool) in entries && Holds(fs', tool, entries, todo) {
      HoldsBefore(w, clock, now, fs, fs', tool, entries, newest, todo);
      TrustedOld(w, clock, entries, newest, ToolMark(tool));
      GenuineLater(w, clock, now, fs, fs', entries[ToolMark(tool)], digests[tool]);
    }
  }

  lemma MemoLater(w: World, now: nat, fs: Files, fs': Files, tool: Path, memo: Memo)
    requires Fine(w.clocks) && Later(w.clocks, now, fs, fs') && MemoOk(w, now, fs, tool, memo)
    ensures MemoOk(w, now, fs', tool, memo)
  {
    hide Later, Genuine;
    if tool in memo.digests && ToolMark(tool) in memo.signature {
      GenuineLater(w, now, now, fs, fs', memo.signature[ToolMark(tool)], memo.digests[tool]);
    }
  }

  lemma TaskLater(w: World, now: nat, fs: Files, fs': Files, tool: Path, task: Task)
    requires Watched(w, tool) && Later(w.clocks, now, fs, fs') && TaskOk(w, now, fs, tool, task)
    ensures TaskOk(w, now, fs', tool, task)
  {
    hide Later, Listed, Signed, Newest, Hashed, MemoOk, Visible;
    match task
    case Listing(clock, todo, members) => ListedLater(w, clock, now, fs, fs', tool, todo, members);
    case Signing(clock, todo, entries, _) =>
      ListedLater(w, clock, now, fs, fs', tool, {}, todo + entries.Keys);
      SignedLater(w, clock, now, fs, fs', tool, entries);
    case Hashing(clock, _, entries, newest, digests) =>
      ListedLater(w, clock, now, fs, fs', tool, {}, entries.Keys);
      SignedLater(w, clock, now, fs, fs', tool, entries);
      if Trusts(w.clocks, clock, newest) {
        HashedLater(w, clock, now, fs, fs', tool, entries, newest, entries.Keys, digests);
      }
    case Comparing(clock, todo, entries, newest, digests) =>
      if Trusts(w.clocks, clock, newest) {
        HashedLater(w, clock, now, fs, fs', tool, entries, newest, todo, digests);
      }
    case Recalling(memo, _, _) => MemoLater(w, now, fs, fs', tool, memo);
    case Recalled(memo, _) => MemoLater(w, now, fs, fs', tool, memo);
    case Ended =>
  }

  // ----- the steps of a process -----

  /** A listing finds the next directory on the way. */
  lemma FoundNext(compiler: Path, fs: Files, tool: Path, k: nat)
    requires 0 < k < |tool| && Coverable(compiler, tool[..k]) && tool[..k] != MANIFEST
    requires IsDirectory(fs, tool[..k])
    ensures k <= 2 && IsDirectory(fs, tool[..k - 1]) && Mark(tool, k) in Found(compiler, fs, tool[..k - 1])
  {
    var path := tool[..k];
    assert path[..k - 1] == tool[..k - 1] && path[k - 1] == tool[k - 1] && path == tool[..k - 1] + [tool[k - 1]];
    assert !Skipped(compiler, path[..k]);
    assert path[..k] == path;
  }

  lemma ListStep(w: World, clock: nat, fs: Files, tool: Path, todo: set<Path>, members: set<Member>, path: Path)
    requires Visible(w.compiler, tool) && Listed(w, clock, fs, tool, todo, members)
    requires path in todo && IsDirectory(fs, path)
    ensures var found := Found(w.compiler, fs, path);
            Listed(w, clock, fs, tool, todo - {path} + Inner(path, found), members + found)
  {
    hide Calm, Found, Coverable;
    var found := Found(w.compiler, fs, path);
    var todo' := todo - {path} + Inner(path, found);
    forall k | 0 < k < |tool| && Calm(w.clocks, clock, fs, tool, k) && IsDirectory(fs, tool[..k])
      ensures Mark(tool, k) in members + found || exists j | 0 <= j < k :: tool[..j] in todo'
    {
      assert tool[..k] == MANIFEST ==> Mark(tool, k) in FIRST;
      if Mark(tool, k) !in members {
        var j :| 0 <= j < k && tool[..j] in todo;
        NextListed(w, fs, tool, todo, path, j, k);
      }
    }
  }

  lemma NextListed(w: World, fs: Files, tool: Path, todo: set<Path>, path: Path, j: nat, k: nat)
    requires Visible(w.compiler, tool) && 0 <= j < k < |tool| && tool[..k] != MANIFEST
    requires path in todo && tool[..j] in todo && IsDirectory(fs, path) && IsDirectory(fs, tool[..k])
    ensures var found := Found(w.compiler, fs, path);
            || Mark(tool, k) in found
            || exists i | 0 <= i < k :: tool[..i] in todo - {path} + Inner(path, found)
  {
    var found := Found(w.compiler, fs, path);
    FoundNext(w.compiler, fs, tool, k);
    if path == tool[..j] {
      if j < k - 1 {
        assert j == 0 && k == 2;
        TopFound(w, fs, tool);
        assert tool[..1] in Inner(path, found);
      }
    } else {
      assert tool[..j] in todo - {path};
    }
  }

  /** The first directory of three is at the top, and is found there. */
  lemma TopFound(w: World, fs: Files, tool: Path)
    requires Visible(w.compiler, tool) && |tool| > 2 && IsDirectory(fs, tool[..2])
    ensures IsDirectory(fs, []) && Member(true, tool[..1]) in Found(w.compiler, fs, [])
  {
    assert tool[..2][..1] == tool[..1];
    assert tool[..1] != MANIFEST by {
      assert Coverable(w.compiler, tool[..2]) && tool[..2] != MANIFEST;
      assert !Skipped(w.compiler, tool[..2][..1]);
    }
    FoundNext(w.compiler, fs, tool, 1);
  }

  /** What is hashed was reached through directories that are signed, if they would all compare equal. */
  lemma {:induction false} HashedWay(
    w: World, clock: nat, fs: Files, tool: Path, entries: Signature, newest: nat, k: nat)
    requires w.clocks.racy > 0 && k <= |tool| && tool != [] && Lookup(fs, tool).Some?
    requires Newest(entries, newest) && Trusts(w.clocks, clock, newest)
    requires Listed(w, clock, fs, tool, {}, entries.Keys) && Signed(w, clock, fs, tool, entries)
    requires Holds(fs, tool, entries, entries.Keys)
    ensures Calm(w.clocks, clock, fs, tool, k)
  {
    if k > 0 {
      HashedWay(w, clock, fs, tool, entries, newest, k - 1);
      WayExists(fs, tool, k - 1);
      var m := Mark(tool, k - 1);
      if k == 1 {
        assert m == TOP;
      }
      TrustedOld(w, clock, entries, newest, m);
    }
  }

  /** Whatever is before the end of a path is a directory. */
  lemma {:induction false} WayExists(fs: Files, path: Path, k: nat)
    requires k < |path| && Lookup(fs, path).Some?
    ensures IsDirectory(fs, path[..k])
    decreases |path|
  {
    var last := |path| - 1;
    if k < last {
      WayExists(fs, path[..last], k);
      assert path[..last][..k] == path[..k];
    }
  }

  lemma HashStep(
    w: World, clock: nat, fs: Files, tool: Path, entries: Signature, newest: nat, digests: map<Path, Digest>,
    path: Path)
    requires w.clocks.racy > 0 && tool != []
    requires Newest(entries, newest) && Trusts(w.clocks, clock, newest)
    requires Listed(w, clock, fs, tool, {}, entries.Keys) && Signed(w, clock, fs, tool, entries)
    requires Hashed(w, fs, tool, entries, entries.Keys, digests)
    requires Lookup(fs, path).Some? && fs.nodes[Lookup(fs, path).value].body.File?
    ensures var content := fs.nodes[Lookup(fs, path).value].body.content;
            Hashed(w, fs, tool, entries, entries.Keys, digests[path := w.hash(content)])
  {
    if path == tool && ToolMark(tool) in entries && Holds(fs, tool, entries, entries.Keys) {
      HashedWay(w, clock, fs, tool, entries, newest, |tool|);
      assert Mark(tool, |tool|) == ToolMark(tool) && tool[..|tool|] == tool;
    }
  }

  lemma CompareStep(w: World, fs: Files, tool: Path, entries: Signature, todo: set<Member>,
                    digests: map<Path, Digest>, pick: Member)
    requires Hashed(w, fs, tool, entries, todo, digests) && pick in todo && pick in entries
    requires StatusAt(fs, pick.path) == entries[pick]
    ensures Hashed(w, fs, tool, entries, todo - {pick}, digests)
  {
    if Holds(fs, tool, entries, todo - {pick}) {
      assert Kept(fs, entries[pick]);
      assert Holds(fs, tool, entries, todo);
    }
  }

  lemma SignStep(w: World, clock: nat, fs: Files, tool: Path, entries: Signature, pick: Member)
    requires Signed(w, clock, fs, tool, entries) && !Lost(fs, pick)
    ensures Signed(w, clock, fs, tool, entries[pick := StatusAt(fs, pick.path)])
  {
    hide Calm, Lookup;
  }

  lemma OwnStep(w: World, s: State, tool: Path, process: nat, pick: Member)
    requires Watched(w, tool) && Inv(w, s, tool) && process in s.tasks
    ensures var s' := Advance(w, s, process, pick);
            process in s'.tasks && TaskOk(w, s.now, s.fs, tool, s'.tasks[process])
  {
    hide Listed, Signed, Hashed, Visible, Readable, Found, MemoOk, SeenOk, Newest;
    assert TaskOk(w, s.now, s.fs, tool, s.tasks[process]);
    match s.tasks[process]
    case Listing(clock, todo, members) =>
      if todo == {} {
        ListingEnds(w, clock, s.fs, tool, members);
      } else if pick.path in todo && Readable(w.compiler, s.fs, pick.path) {
        ReadableDirectory(w.compiler, s.fs, pick.path);
        ListStep(w, clock, s.fs, tool, todo, members, pick.path);
      }
    case Signing(clock, todo, entries, newest) => SigningStep(w, s, tool, process, pick);
    case Hashing(clock, todo, entries, newest, digests) => HashingStep(w, s, tool, process, pick);
    case Comparing(clock, todo, entries, newest, digests) =>
      if pick in todo && pick in entries && StatusAt(s.fs, pick.path) == entries[pick]
         && Trusts(w.clocks, clock, newest) {
        CompareStep(w, s.fs, tool, entries, todo, digests, pick);
      }
    case Recalling(memo, todo, seen) => RecallStep(w, s.now, s.fs, tool, memo, todo, seen, pick);
    case _ =>
  }

  lemma ReadableDirectory(compiler: Path, fs: Files, path: Path)
    requires Readable(compiler, fs, path)
    ensures IsDirectory(fs, path)
  {
  }

  lemma ListingEnds(w: World, clock: nat, fs: Files, tool: Path, members: set<Member>)
    requires Listed(w, clock, fs, tool, {}, members)
    ensures Listed(w, clock, fs, tool, {}, members + ToolMembers(w) + {})
    ensures Signed(w, clock, fs, tool, map[]) && Newest(map[], 0)
    ensures var none: Signature := map[]; members + ToolMembers(w) + none.Keys == members + ToolMembers(w) + {}
  {
  }

  lemma SigningStep(w: World, s: State, tool: Path, process: nat, pick: Member)
    requires Watched(w, tool) && process in s.tasks && s.tasks[process].Signing?
    requires TaskOk(w, s.now, s.fs, tool, s.tasks[process])
    ensures TaskOk(w, s.now, s.fs, tool, Advance(w, s, process, pick).tasks[process])
  {
    hide Listed, Signed, Visible, Hashed;
    var Signing(clock, todo, entries, newest) := s.tasks[process];
    if todo == {} {
      assert {} + entries.Keys == entries.Keys;
      NothingHashed(w, s.fs, tool, entries);
    } else if pick in todo && !Lost(s.fs, pick) {
      SignStep(w, clock, s.fs, tool, entries, pick);
      var entries' := entries[pick := StatusAt(s.fs, pick.path)];
      assert todo - {pick} + entries'.Keys == todo + entries.Keys;
    }
  }

  lemma NothingHashed(w: World, fs: Files, tool: Path, entries: Signature)
    ensures Hashed(w, fs, tool, entries, entries.Keys, map[])
  {
  }

  lemma HashingStep(w: World, s: State, tool: Path, process: nat, pick: Member)
    requires Watched(w, tool) && process in s.tasks && s.tasks[process].Hashing?
    requires TaskOk(w, s.now, s.fs, tool, s.tasks[process])
    ensures TaskOk(w, s.now, s.fs, tool, Advance(w, s, process, pick).tasks[process])
  {
    hide Hashed, Coverable;
    var Hashing(clock, todo, entries, newest, digests) := s.tasks[process];
    if todo != {} && pick.path in todo && Lookup(s.fs, pick.path).Some?
       && s.fs.nodes[Lookup(s.fs, pick.path).value].body.File? && Trusts(w.clocks, clock, newest) {
      HashStep(w, clock, s.fs, tool, entries, newest, digests, pick.path);
    }
  }

  lemma RecallStep(
    w: World, now: nat, fs: Files, tool: Path, memo: Memo, todo: set<Member>, seen: map<Path, Content>, pick: Member)
    requires MemoOk(w, now, fs, tool, memo) && SeenOk(w, tool, memo, todo, seen)
    ensures todo == {} ==> SeenOk(w, tool, memo, {}, seen)
    ensures pick in memo.signature && StatusAt(fs, pick.path) == memo.signature[pick] ==>
              SeenOk(w, tool, memo, todo - {pick}, Look(fs, pick, seen))
  {
  }

  // ----- every run -----

  lemma TickLater(w: World, now: nat, now': nat, fs: Files, tool: Path, task: Task)
    requires now <= now' && TaskOk(w, now, fs, tool, task)
    ensures TaskOk(w, now', fs, tool, task)
  {
    hide Listed, Signed, Hashed, Genuine;
  }

  lemma AdvanceKeeps(w: World, s: State, tool: Path, process: nat, pick: Member)
    requires Watched(w, tool) && Inv(w, s, tool) && process in s.tasks
    ensures Inv(w, Advance(w, s, process, pick), tool)
  {
    hide TaskOk, MemoOk, Advance, Visible;
    OwnStep(w, s, tool, process, pick);
    AdvanceFrame(w, s, process, pick);
    var s' := Advance(w, s, process, pick);
    assert forall p | p in s'.tasks && p != process :: p in s.tasks && s'.tasks[p] == s.tasks[p];
    if s.tasks[process].Comparing? {
      Remembered(w, s, tool, process);
    }
  }

  /** A step changes the process, and it writes the memo when all statuses were compared. */
  lemma AdvanceFrame(w: World, s: State, process: nat, pick: Member)
    requires process in s.tasks
    ensures var s' := Advance(w, s, process, pick);
            && s'.fs == s.fs && s'.now == s.now
            && process in s'.tasks && s'.tasks == s.tasks[process := s'.tasks[process]]
            && (s'.memo == s.memo
                || match s.tasks[process]
                   case Comparing(clock, todo, entries, newest, digests) =>
                     todo == {} && Trusts(w.clocks, clock, newest) && s'.memo == Some(Memo(entries, digests))
                   case _ => false)
  {
    hide Readable, Found, Lookup;
  }

  lemma Remembered(w: World, s: State, tool: Path, process: nat)
    requires Watched(w, tool) && Inv(w, s, tool) && process in s.tasks && s.tasks[process].Comparing?
    ensures var Comparing(clock, todo, entries, newest, digests) := s.tasks[process];
            todo == {} && Trusts(w.clocks, clock, newest) ==> MemoOk(w, s.now, s.fs, tool, Memo(entries, digests))
  {
    assert TaskOk(w, s.now, s.fs, tool, s.tasks[process]);
    var Comparing(clock, todo, entries, newest, digests) := s.tasks[process];
    if todo == {} && Trusts(w.clocks, clock, newest) && ToolMark(tool) in entries {
      TrustedOld(w, clock, entries, newest, ToolMark(tool));
    }
  }

  lemma PerformKeeps(w: World, s: State, tool: Path, action: Action)
    requires Watched(w, tool) && Inv(w, s, tool)
    ensures Inv(w, Perform(w, s, action), tool)
  {
    var s' := Perform(w, s, action);
    match action
    case Step(process, pick) => if process in s.tasks { AdvanceKeeps(w, s, tool, process, pick); }
    case Wait(_) =>
      forall p | p in s.tasks ensures TaskOk(w, s'.now, s.fs, tool, s.tasks[p]) {
        TickLater(w, s.now, s'.now, s.fs, tool, s.tasks[p]);
      }
    case Alter(change) => AlterKeeps(w, s, tool, change);
    case StartHash(process) => if process !in s.tasks { ListingStarts(w, s.now, s.fs, tool); }
    case StartRecall(_) =>
    case Stop(_) =>
  }

  lemma AlterKeeps(w: World, s: State, tool: Path, change: Change)
    requires Watched(w, tool) && Inv(w, s, tool)
    ensures Inv(w, s.(fs := Changed(w.clocks, s.now, s.fs, change)), tool)
  {
    hide TaskOk, MemoOk, Changed;
    var fs' := Changed(w.clocks, s.now, s.fs, change);
    ChangedLater(w.clocks, s.now, s.fs, change);
    hide Later, Visible;
    forall p | p in s.tasks ensures TaskOk(w, s.now, fs', tool, s.tasks[p]) {
      TaskLater(w, s.now, s.fs, fs', tool, s.tasks[p]);
    }
    if s.memo.Some? {
      MemoLater(w, s.now, s.fs, fs', tool, s.memo.value);
    }
  }

  lemma ListingStarts(w: World, now: nat, fs: Files, tool: Path)
    ensures Listed(w, now, fs, tool, {[]}, FIRST)
  {
    assert tool[..0] in {[]};
  }

  lemma {:induction false} RunKeeps(w: World, tool: Path, actions: seq<Action>)
    requires Watched(w, tool)
    ensures Inv(w, Run(w, actions), tool)
  {
    if actions != [] {
      RunKeeps(w, tool, actions[..|actions| - 1]);
      PerformKeeps(w, Run(w, actions[..|actions| - 1]), tool, actions[|actions| - 1]);
    }
  }

  /** A digest that is recalled is that of what the tool held when its status was checked; so it was there. */
  ghost predicate Current(w: World, task: Task, tool: Path)
    requires task.Recalled?
  {
    tool in task.memo.digests && ToolMark(tool) in task.memo.signature ==>
      && task.memo.signature[ToolMark(tool)].Present?
      && tool in task.seen && w.hash(task.seen[tool]) == task.memo.digests[tool]
  }

  /** A recalled identity is not stale: every tool whose directories are in the signature, wherever they exist,
      was there when it was checked, held the content whose digest is recalled, and holds it as long as its path
      shows the status. */
  lemma NeverStale(w: World, actions: seq<Action>, process: nat, tool: Path)
    requires Watched(w, tool)
    requires var s := Run(w, actions); process in s.tasks && s.tasks[process].Recalled?
    ensures var s := Run(w, actions);
            var task := s.tasks[process];
            && Current(w, task, tool)
            && (tool in task.memo.digests && ToolMark(tool) in task.memo.signature
                && StatusAt(s.fs, tool) == task.memo.signature[ToolMark(tool)] ==>
                  var body := s.fs.nodes[Lookup(s.fs, tool).value].body;
                  body.File? && w.hash(body.content) == task.memo.digests[tool])
  {
    RunKeeps(w, tool, actions);
    var s := Run(w, actions);
    assert TaskOk(w, s.now, s.fs, tool, s.tasks[process]);
  }

  /** The tools of a bundle are in `bin` and `zig`, beside the compiler. */
  lemma ToolsAreVisible(compiler: Name, directory: Name, tool: Name)
    requires directory == "bin" || directory == "zig"
    ensures Visible(["bin", compiler], [directory, tool])
  {
    var path := [directory, tool];
    forall k | 0 < k < |path| ensures Coverable(["bin", compiler], path[..k]) {
      assert path[..k] == [directory];
      assert path[..k][..1] == [directory];
    }
  }
}

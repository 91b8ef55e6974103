/**
  When a memo can be stale: exactly if changes can get times that are the window or more behind, or if a
  directory on the way to the tool is none that the signature covers. The runs that show it are those of one
  process alone, with changes to the files at chosen moments.
 */
module BundleStale {
  import opened Basics
  import opened BundleFiles
  import opened BundleMemo

  // ----- states that can be reached -----

  ghost predicate Reaches(w: World, s: State, s': State) {
    exists actions :: After(w, s, actions) == s'
  }

  lemma {:induction false} AfterJoin(w: World, s: State, a: seq<Action>, b: seq<Action>)
    ensures After(w, s, a + b) == After(w, After(w, s, a), b)
    decreases |b|
  {
    hide Perform;
    if b == [] {
      assert a + b == a;
    } else {
      var all := a + b;
      assert all[..|all| - 1] == a + b[..|b| - 1] && all[|all| - 1] == b[|b| - 1];
      AfterJoin(w, s, a, b[..|b| - 1]);
    }
  }

  lemma ReachSame(w: World, s: State)
    ensures Reaches(w, s, s)
  {
    assert After(w, s, []) == s;
  }

  lemma ReachMore(w: World, a: State, b: State, c: State)
    requires Reaches(w, a, b) && Reaches(w, b, c)
    ensures Reaches(w, a, c)
  {
    var x :| After(w, a, x) == b;
    var y :| After(w, b, y) == c;
    AfterJoin(w, a, x, y);
  }

  lemma ReachStep(w: World, a: State, b: State, action: Action)
    requires Reaches(w, a, b)
    ensures Reaches(w, a, Perform(w, b, action))
  {
    hide Perform;
    assert [action][..0] == [];
    assert After(w, b, [action][..0]) == b;
    assert After(w, b, [action]) == Perform(w, b, action);
    ReachMore(w, a, b, Perform(w, b, action));
  }

  // ----- a process alone -----

  lemma PutTwice(s: State, process: nat, a: Task, b: Task)
    ensures Put(Put(s, process, a), process, b) == Put(s, process, b)
  {
  }

  /** Every directory can be listed. */
  ghost predicate AllReadable(compiler: Path, fs: Files) {
    forall path | IsDirectory(fs, path) :: Readable(compiler, fs, path)
  }

  /** The directories that are to be listed are there, at the top or just below. */
  ghost predicate PathsOk(compiler: Path, fs: Files, paths: set<Path>) {
    forall path | path in paths :: IsDirectory(fs, path) && |path| <= 1 && (path == [] || !Skipped(compiler, path))
  }

  ghost predicate MembersOk(compiler: Path, fs: Files, members: set<Member>) {
    && FIRST <= members
    && (forall m | m in members :: Coverable(compiler, m.path) && (m.directory ==> IsDirectory(fs, m.path)))
  }

  lemma FoundOk(compiler: Path, fs: Files, path: Path)
    requires IsDirectory(fs, path) && |path| <= 1 && (path == [] || !Skipped(compiler, path))
    ensures forall m | m in Found(compiler, fs, path) ::
              && Coverable(compiler, m.path) && (m.directory ==> IsDirectory(fs, m.path))
              && |m.path| == |path| + 1 && !Skipped(compiler, m.path)
  {
    hide Coverable, Skipped, Lookup, IsDirectory;
    forall m | m in Found(compiler, fs, path)
      ensures Coverable(compiler, m.path) && |m.path| == |path| + 1 && !Skipped(compiler, m.path)
    {
      var name: Name :| m.path == path + [name] && !Skipped(compiler, path + [name]);
      CoverableBelow(compiler, path, name);
    }
  }

  lemma CoverableBelow(compiler: Path, path: Path, name: Name)
    requires |path| <= 1 && (path == [] || !Skipped(compiler, path)) && !Skipped(compiler, path + [name])
    ensures Coverable(compiler, path + [name])
  {
    hide Skipped;
    var longer := path + [name];
    forall k | 0 < k <= |longer| ensures !Skipped(compiler, longer[..k]) {
      assert longer[..k] == if k == |longer| then longer else path;
    }
  }

  lemma ListOne(w: World, s: State, process: nat, clock: nat, paths: set<Path>, members: set<Member>, path: Path)
    returns (paths': set<Path>, members': set<Member>)
    requires AllReadable(w.compiler, s.fs) && PathsOk(w.compiler, s.fs, paths) && MembersOk(w.compiler, s.fs, members)
    requires path in paths
    ensures Reaches(w, Put(s, process, Listing(clock, paths, members)),
                    Put(s, process, Listing(clock, paths', members')))
    ensures PathsOk(w.compiler, s.fs, paths') && MembersOk(w.compiler, s.fs, members')
    ensures [] !in paths' || path != []
    ensures path != [] ==> paths' == paths - {path}
  {
    hide Reaches, Readable, Found, Coverable, Skipped;
    var found := Found(w.compiler, s.fs, path);
    FoundOk(w.compiler, s.fs, path);
    paths', members' := paths - {path} + Inner(path, found), members + found;
    var a := Put(s, process, Listing(clock, paths, members));
    ReachSame(w, a);
    ReachStep(w, a, a, Step(process, Member(true, path)));
    PutTwice(s, process, Listing(clock, paths, members), Listing(clock, paths', members'));
  }

  lemma {:induction false} ListRest(
    w: World, s: State, process: nat, clock: nat, paths: set<Path>, members: set<Member>)
    returns (members': set<Member>)
    requires AllReadable(w.compiler, s.fs) && PathsOk(w.compiler, s.fs, paths) && MembersOk(w.compiler, s.fs, members)
    requires [] !in paths
    ensures Reaches(w, Put(s, process, Listing(clock, paths, members)), Put(s, process, Listing(clock, {}, members')))
    ensures MembersOk(w.compiler, s.fs, members')
    decreases paths
  {
    hide Reaches, AllReadable, PathsOk, MembersOk;
    var a := Put(s, process, Listing(clock, paths, members));
    if paths == {} {
      members' := members;
      ReachSame(w, a);
    } else {
      var path :| path in paths;
      var paths1, members1 := ListOne(w, s, process, clock, paths, members, path);
      members' := ListRest(w, s, process, clock, paths1, members1);
      ReachMore(w, a, Put(s, process, Listing(clock, paths1, members1)), Put(s, process, Listing(clock, {}, members')));
    }
  }

  ghost predicate Statuses(fs: Files, entries: Signature) {
    forall m | m in entries :: entries[m] == StatusAt(fs, m.path) && !Lost(fs, m)
  }

  /** No status is newer. */
  ghost predicate UpTo(fs: Files, limit: nat) {
    forall i | i in fs.nodes :: fs.nodes[i].time <= limit
  }

  lemma {:induction false} SignRest(
    w: World, s: State, process: nat, clock: nat, todo: set<Member>, entries: Signature, newest: nat, limit: nat)
    returns (entries': Signature, newest': nat)
    requires (forall m | m in todo :: !Lost(s.fs, m)) && Statuses(s.fs, entries)
    requires UpTo(s.fs, limit) && newest <= limit
    ensures Reaches(w, Put(s, process, Signing(clock, todo, entries, newest)),
                    Put(s, process, Signing(clock, {}, entries', newest')))
    ensures Statuses(s.fs, entries') && newest' <= limit && entries'.Keys == todo + entries.Keys
    decreases todo
  {
    hide Reaches, Lookup;
    var a := Put(s, process, Signing(clock, todo, entries, newest));
    ReachSame(w, a);
    if todo == {} {
      entries', newest' := entries, newest;
    } else {
      var m :| m in todo;
      var status := StatusAt(s.fs, m.path);
      var next := Signing(clock, todo - {m}, entries[m := status], Max(newest, TimeOf(status)));
      ReachStep(w, a, a, Step(process, m));
      PutTwice(s, process, a.tasks[process], next);
      entries', newest' := SignRest(w, s, process, clock, next.todo, next.entries, next.newest, limit);
      ReachMore(w, a, Put(s, process, next), Put(s, process, Signing(clock, {}, entries', newest')));
    }
  }

  lemma {:induction false} CompareRest(
    w: World, s: State, process: nat, clock: nat, todo: set<Member>, entries: Signature, newest: nat,
    digests: map<Path, Digest>)
    requires Statuses(s.fs, entries) && todo <= entries.Keys
    ensures Reaches(w, Put(s, process, Comparing(clock, todo, entries, newest, digests)),
                    Put(s, process, Comparing(clock, {}, entries, newest, digests)))
    decreases todo
  {
    hide Reaches, Lookup;
    var a := Put(s, process, Comparing(clock, todo, entries, newest, digests));
    ReachSame(w, a);
    if todo != {} {
      var m :| m in todo;
      var next := Comparing(clock, todo - {m}, entries, newest, digests);
      ReachStep(w, a, a, Step(process, m));
      PutTwice(s, process, a.tasks[process], next);
      CompareRest(w, s, process, clock, todo - {m}, entries, newest, digests);
      ReachMore(w, a, Put(s, process, next), Put(s, process, Comparing(clock, {}, entries, newest, digests)));
    }
  }

  /** The file at the path holds the content. */
  ghost predicate Contains(fs: Files, path: Path, content: Content) {
    Lookup(fs, path).Some? && fs.nodes[Lookup(fs, path).value].body == File(content)
  }

  lemma {:induction false} RecallRest(
    w: World, s: State, process: nat, memo: Memo, todo: set<Member>, seen: map<Path, Content>)
    returns (seen': map<Path, Content>)
    requires Statuses(s.fs, memo.signature) && todo <= memo.signature.Keys
    requires forall m | m in memo.signature && m !in todo && !m.directory ::
               forall content | Contains(s.fs, m.path, content) :: m.path in seen && seen[m.path] == content
    ensures Reaches(w, Put(s, process, Recalling(memo, todo, seen)), Put(s, process, Recalled(memo, seen')))
    ensures forall m | m in memo.signature && !m.directory ::
              forall content | Contains(s.fs, m.path, content) :: m.path in seen' && seen'[m.path] == content
    decreases todo
  {
    hide Reaches, Lookup;
    var a := Put(s, process, Recalling(memo, todo, seen));
    ReachSame(w, a);
    if todo == {} {
      seen' := seen;
      ReachStep(w, a, a, Step(process, TOP));
      PutTwice(s, process, a.tasks[process], Recalled(memo, seen));
    } else {
      var m :| m in todo;
      var next := Recalling(memo, todo - {m}, Look(s.fs, m, seen));
      ReachStep(w, a, a, Step(process, m));
      PutTwice(s, process, a.tasks[process], next);
      seen' := RecallRest(w, s, process, memo, todo - {m}, next.seen);
      ReachMore(w, a, Put(s, process, next), Put(s, process, Recalled(memo, seen')));
    }
  }

  // ----- a process from its start until it hashes, and from there to the memo -----

  /** The members are signed, and the tools are to be hashed. */
  lemma SignAlone(w: World, s: State, process: nat, limit: nat) returns (entries: Signature, newest: nat)
    requires process !in s.tasks && IsDirectory(s.fs, []) && AllReadable(w.compiler, s.fs) && UpTo(s.fs, limit)
    ensures Reaches(w, s, Put(s, process, Hashing(s.now, w.tools, entries, newest, map[])))
    ensures Statuses(s.fs, entries) && newest <= limit
    ensures forall m | m in ToolMembers(w) :: m in entries
    ensures FIRST <= entries.Keys
    ensures forall m | m in entries :: m in ToolMembers(w) || Coverable(w.compiler, m.path)
  {
    hide Reaches, AllReadable, Readable, Coverable;
    var clock := s.now;
    ReachSame(w, s);
    ReachStep(w, s, s, StartHash(process));
    FirstOk(w.compiler, s.fs);
    var paths1, members1 := ListOne(w, s, process, clock, {[]}, FIRST, []);
    var members := ListRest(w, s, process, clock, paths1, members1);
    var s1, s2 := Put(s, process, Listing(clock, paths1, members1)), Put(s, process, Listing(clock, {}, members));
    ReachMore(w, s, Put(s, process, Listing(clock, {[]}, FIRST)), s1);
    ReachMore(w, s, s1, s2);
    var all := members + ToolMembers(w);
    ReachStep(w, s, s2, Step(process, TOP));
    PutTwice(s, process, s2.tasks[process], Signing(clock, all, map[], 0));
    forall m | m in all ensures !Lost(s.fs, m) {}
    entries, newest := SignRest(w, s, process, clock, all, map[], 0, limit);
    var s3 := Put(s, process, Signing(clock, {}, entries, newest));
    ReachMore(w, s, Put(s, process, Signing(clock, all, map[], 0)), s3);
    ReachStep(w, s, s3, Step(process, TOP));
    PutTwice(s, process, s3.tasks[process], Hashing(clock, w.tools, entries, newest, map[]));
  }

  lemma FirstOk(compiler: Path, fs: Files)
    requires IsDirectory(fs, [])
    ensures PathsOk(compiler, fs, {[]}) && MembersOk(compiler, fs, FIRST)
  {
  }

  /** The only tool is hashed. */
  lemma HashAlone(
    w: World, s: State, process: nat, clock: nat, entries: Signature, newest: nat, tool: Path, content: Content)
    requires w.tools == {tool} && Contains(s.fs, tool, content)
    ensures Reaches(w, Put(s, process, Hashing(clock, w.tools, entries, newest, map[])),
                    Put(s, process, Comparing(clock, entries.Keys, entries, newest, map[tool := w.hash(content)])))
  {
    hide Reaches, Lookup;
    var a := Put(s, process, Hashing(clock, w.tools, entries, newest, map[]));
    var b := Put(s, process, Hashing(clock, {}, entries, newest, map[tool := w.hash(content)]));
    ReachSame(w, a);
    ReachStep(w, a, a, Step(process, ToolMark(tool)));
    assert {tool} - {tool} == {};
    PutTwice(s, process, a.tasks[process], b.tasks[process]);
    ReachStep(w, a, b, Step(process, TOP));
    PutTwice(s, process, b.tasks[process],
             Comparing(clock, entries.Keys, entries, newest, map[tool := w.hash(content)]));
  }

  /** The memo is written, and another process recalls it. */
  lemma RememberAlone(
    w: World, s: State, process: nat, clock: nat, entries: Signature, newest: nat, digests: map<Path, Digest>)
    requires Statuses(s.fs, entries) && Trusts(w.clocks, clock, newest)
    ensures Reaches(w, Put(s, process, Comparing(clock, entries.Keys, entries, newest, digests)),
                    Put(s, process, Ended).(memo := Some(Memo(entries, digests))))
  {
    hide Reaches, Statuses;
    var a := Put(s, process, Comparing(clock, entries.Keys, entries, newest, digests));
    var b := Put(s, process, Comparing(clock, {}, entries, newest, digests));
    CompareRest(w, s, process, clock, entries.Keys, entries, newest, digests);
    ReachStep(w, a, b, Step(process, TOP));
    PutTwice(s.(memo := Some(Memo(entries, digests))), process, b.tasks[process], Ended);
  }

  lemma RecallAlone(w: World, s: State, process: nat, tool: Path, memo: Memo) returns (seen: map<Path, Content>)
    requires process !in s.tasks && s.memo == Some(memo) && Statuses(s.fs, memo.signature)
    requires ToolMark(tool) in memo.signature
    ensures Reaches(w, s, Put(s, process, Recalled(memo, seen)))
    ensures forall content | Contains(s.fs, tool, content) :: tool in seen && seen[tool] == content
  {
    hide Reaches, Statuses, Contains;
    ReachSame(w, s);
    ReachStep(w, s, s, StartRecall(process));
    seen := RecallRest(w, s, process, memo, memo.signature.Keys, map[]);
    ReachMore(w, s, Put(s, process, Recalling(memo, memo.signature.Keys, map[])),
              Put(s, process, Recalled(memo, seen)));
    assert ToolMark(tool).path == tool;
  }

  // ----- a bundle that holds nothing but the way to a tool -----

  /** Inode `i` on the way to the tool, whose content is missing while the tool is. */
  function NodeOf(tool: Path, content: Option<Content>, time: nat, i: nat): Node
    requires i < |tool| || (i == |tool| && content.Some?)
  {
    if i == |tool| then Node(File(content.value), time, 0)
    else if i == |tool| - 1 && content.None? then Node(Directory(map[]), time, 0)
    else Node(Directory(map[tool[i] := i + 1]), time, 0)
  }

  function WayFrom(tool: Path, content: Option<Content>, time: nat, from: nat): map<Ino, Node> {
    map i: nat | from <= i <= |tool| && (i < |tool| || content.Some?) :: NodeOf(tool, content, time, i)
  }

  function Way(tool: Path, content: Option<Content>, time: nat): Files {
    Files(Some(0), WayFrom(tool, content, time, 0))
  }

  /** A path on the way leads to the inode of its length, and no other path leads anywhere. */
  ghost predicate Leads(fs: Files, tool: Path, depth: nat) {
    && depth <= |tool| && fs.root == Some(0)
    && (forall i: nat | i <= depth :: i in fs.nodes)
    && (forall i: nat | i < depth :: fs.nodes[i].body == Directory(map[tool[i] := i + 1]))
    && (fs.nodes[depth].body.Directory? ==> fs.nodes[depth].body.children == map[])
  }

  lemma {:induction false} LookupWay(fs: Files, tool: Path, depth: nat, path: Path)
    requires Leads(fs, tool, depth)
    ensures Lookup(fs, path) == if path <= tool && |path| <= depth then Some(|path|) else None
    decreases |path|
  {
    if path != [] {
      var last := |path| - 1;
      LookupWay(fs, tool, depth, path[..last]);
      assert path == path[..last] + [path[last]];
      if path[..last] <= tool && last <= depth {
        assert last < |tool| ==> (path <= tool <==> path[last] == tool[last]);
      }
    }
  }

  lemma WayLeads(tool: Path, content: Option<Content>, time: nat)
    requires tool != []
    ensures Leads(Way(tool, content, time), tool, if content.Some? then |tool| else |tool| - 1)
    ensures UpTo(Way(tool, content, time), time)
  {
  }

  lemma LeadsReadable(compiler: Path, fs: Files, tool: Path, depth: nat)
    requires Leads(fs, tool, depth)
    ensures AllReadable(compiler, fs)
  {
    forall path | IsDirectory(fs, path) ensures Readable(compiler, fs, path) {
      LookupWay(fs, tool, depth, path);
      forall name | name in fs.nodes[Lookup(fs, path).value].body.children
        ensures Lookup(fs, path + [name]).Some?
      {
        LookupWay(fs, tool, depth, path + [name]);
        assert path + [tool[|path|]] <= tool;
      }
    }
  }

  /** The way is made from its end, at one moment. */
  lemma {:induction false} MakeFrom(w: World, tool: Path, content: Option<Content>, t: nat, from: nat)
    requires tool != [] && from <= |tool|
    ensures var none: map<nat, Task> := map[];
            Reaches(w, EMPTY, State(t, Files(None, WayFrom(tool, content, w.clocks.stamp(t), from)), None, none))
    decreases |tool| - from
  {
    hide Reaches;
    var time := w.clocks.stamp(t);
    var none: map<nat, Task> := map[];
    var goal := State(t, Files(None, WayFrom(tool, content, time, from)), None, none);
    if from == |tool| {
      var empty: map<Ino, Node> := map[];
      var start := State(t, Files(None, empty), None, none);
      ReachSame(w, EMPTY);
      ReachStep(w, EMPTY, EMPTY, Wait(t));
      assert Perform(w, EMPTY, Wait(t)) == start;
      if content.Some? {
        ReachStep(w, EMPTY, start, Alter(New(from, File(content.value), 0, 0)));
        assert Perform(w, start, Alter(New(from, File(content.value), 0, 0))) == goal;
      } else {
        assert start == goal;
      }
    } else {
      MakeFrom(w, tool, content, t, from + 1);
      var before := State(t, Files(None, WayFrom(tool, content, time, from + 1)), None, none);
      var body := NodeOf(tool, content, time, from).body;
      ReachStep(w, EMPTY, before, Alter(New(from, body, 0, 0)));
      NextMade(w.clocks, tool, content, t, from);
    }
  }

  lemma NextMade(clocks: Clocks, tool: Path, content: Option<Content>, t: nat, from: nat)
    requires from < |tool|
    ensures var time := clocks.stamp(t);
            Changed(clocks, t, Files(None, WayFrom(tool, content, time, from + 1)),
                    New(from, NodeOf(tool, content, time, from).body, 0, 0))
            == Files(None, WayFrom(tool, content, time, from))
  {
    var time := clocks.stamp(t);
    var fs: Files := Files(None, WayFrom(tool, content, time, from + 1));
    assert !Linked(fs, from);
    assert fs.nodes[from := NodeOf(tool, content, time, from)] == WayFrom(tool, content, time, from);
  }

  lemma MakeWay(w: World, tool: Path, content: Option<Content>, t: nat)
    requires tool != []
    ensures Reaches(w, EMPTY, State(t, Way(tool, content, w.clocks.stamp(t)), None, map[]))
  {
    hide Reaches;
    var time := w.clocks.stamp(t);
    MakeFrom(w, tool, content, t, 0);
    var before := State(t, Files(None, WayFrom(tool, content, time, 0)), None, map[]);
    ReachStep(w, EMPTY, before, Alter(Place(Some(0), 0, 0)));
    assert before.fs.nodes[0 := NodeOf(tool, content, time, 0)] == before.fs.nodes;
  }

  // ----- a second write at the same moment -----

  ghost predicate Stale(w: World, tool: Path) {
    exists s, process | Reaches(w, EMPTY, s) :: Shows(w, tool, s, process)
  }

  /** The process has recalled an identity that is not current. */
  ghost predicate Shows(w: World, tool: Path, s: State, process: nat) {
    process in s.tasks && s.tasks[process].Recalled? && !Current(w, s.tasks[process], tool)
  }

  /** The signature covers the tool itself. */
  predicate Covered(compiler: Path, tool: Path) {
    tool != [] && (tool == MANIFEST || !Skipped(compiler, tool))
  }

  /** If a change can be trusted at the moment it is made, a second change at that moment goes unseen. */
  lemma SecondUnseen(w: World, tool: Path, t: nat, first: Content, second: Content)
    requires w.tools == {tool} && Covered(w.compiler, tool) && w.hash(first) != w.hash(second)
    requires Trusts(w.clocks, t, w.clocks.stamp(t))
    ensures Stale(w, tool)
  {
    hide Reaches, Statuses, AllReadable, Shows, Trusts, UpTo, Leads;
    var time, n := w.clocks.stamp(t), |tool|;
    var fs, fs' := Way(tool, Some(first), time), Way(tool, Some(second), time);
    var s0 := State(t, fs, None, map[]);
    MakeWay(w, tool, Some(first), t);
    var s1 := FirstRemembered(w, s0, tool, first);
    var s2 := s1.(fs := fs');
    Overwritten(w.clocks, tool, t, first, second);
    ReachStep(w, EMPTY, s1, Alter(Set(n, File(second), 0, 0)));
    SecondRecalled(w, s2, tool, first, second);
  }

  lemma FirstRemembered(w: World, s0: State, tool: Path, first: Content) returns (s1: State)
    requires w.tools == {tool} && Covered(w.compiler, tool)
    requires var time := w.clocks.stamp(s0.now);
             s0 == State(s0.now, Way(tool, Some(first), time), None, map[]) && Trusts(w.clocks, s0.now, time)
    requires Reaches(w, EMPTY, s0)
    ensures Reaches(w, EMPTY, s1) && s1.fs == s0.fs && s1.now == s0.now && s1.tasks == map[0 := Ended]
    ensures s1.memo.Some? && s1.memo.value.digests == map[tool := w.hash(first)]
    ensures Statuses(s0.fs, s1.memo.value.signature) && ToolMark(tool) in s1.memo.value.signature
  {
    hide Reaches, Statuses, AllReadable, UpTo;
    var fs, time := s0.fs, w.clocks.stamp(s0.now);
    WayLeads(tool, Some(first), time);
    LeadsReadable(w.compiler, fs, tool, |tool|);
    LookupWay(fs, tool, |tool|, []);
    LookupWay(fs, tool, |tool|, tool);
    var entries, newest := SignAlone(w, s0, 0, time);
    assert ToolMark(tool) in entries;
    HashAlone(w, s0, 0, s0.now, entries, newest, tool, first);
    var digests := map[tool := w.hash(first)];
    RememberAlone(w, s0, 0, s0.now, entries, newest, digests);
    s1 := Put(s0, 0, Ended).(memo := Some(Memo(entries, digests)));
    var a := Put(s0, 0, Hashing(s0.now, w.tools, entries, newest, map[]));
    var b := Put(s0, 0, Comparing(s0.now, entries.Keys, entries, newest, digests));
    ReachMore(w, EMPTY, s0, a);
    ReachMore(w, EMPTY, a, b);
    ReachMore(w, EMPTY, b, s1);
  }

  /** The second content shows the status of the first. */
  lemma Overwritten(clocks: Clocks, tool: Path, t: nat, first: Content, second: Content)
    requires tool != []
    ensures var time := clocks.stamp(t);
            Changed(clocks, t, Way(tool, Some(first), time), Set(|tool|, File(second), 0, 0))
            == Way(tool, Some(second), time)
  {
    var time := clocks.stamp(t);
    assert Way(tool, Some(first), time).nodes[|tool| := Node(File(second), time, 0)]
        == Way(tool, Some(second), time).nodes;
  }

  lemma SameStatuses(tool: Path, time: nat, first: Content, second: Content, entries: Signature)
    requires tool != [] && Statuses(Way(tool, Some(first), time), entries)
    ensures Statuses(Way(tool, Some(second), time), entries)
  {
    var fs, fs' := Way(tool, Some(first), time), Way(tool, Some(second), time);
    WayLeads(tool, Some(first), time);
    WayLeads(tool, Some(second), time);
    forall m | m in entries ensures StatusAt(fs', m.path) == StatusAt(fs, m.path) {
      LookupWay(fs, tool, |tool|, m.path);
      LookupWay(fs', tool, |tool|, m.path);
    }
  }

  lemma SecondRecalled(w: World, s: State, tool: Path, first: Content, second: Content)
    requires tool != [] && w.hash(first) != w.hash(second) && Reaches(w, EMPTY, s)
    requires s.fs == Way(tool, Some(second), w.clocks.stamp(s.now)) && 1 !in s.tasks && s.memo.Some?
    requires s.memo.value.digests == map[tool := w.hash(first)] && ToolMark(tool) in s.memo.value.signature
    requires Statuses(Way(tool, Some(first), w.clocks.stamp(s.now)), s.memo.value.signature)
    ensures Stale(w, tool)
  {
    hide Reaches, Statuses;
    var memo, time := s.memo.value, w.clocks.stamp(s.now);
    SameStatuses(tool, time, first, second, memo.signature);
    var seen := RecallAlone(w, s, 1, tool, memo);
    WayLeads(tool, Some(second), time);
    LookupWay(s.fs, tool, |tool|, tool);
    assert Contains(s.fs, tool, second);
    var s' := Put(s, 1, Recalled(memo, seen));
    ReachMore(w, EMPTY, s, s');
    assert Shows(w, tool, s', 1);
  }

  // ----- a directory that is not covered -----

  /** The directory of the tool after a change: it holds the tool or not, and the tool is there or not. */
  function Apart(tool: Path, time: nat, time': nat, content: Content, holds: bool): Files
    requires tool != []
  {
    var n := |tool|;
    Files(Some(0),
          Way(tool, None, time).nodes
            [n := Node(File(content), time', 0)]
            [n - 1 := Node(Directory(if holds then map[tool[n - 1] := n] else map[]), time', 0)])
  }

  lemma ApartLeads(tool: Path, time: nat, time': nat, content: Content, holds: bool)
    requires tool != []
    ensures Leads(Apart(tool, time, time', content, holds), tool, if holds then |tool| else |tool| - 1)
  {
  }

  /** The tool is made, entered into its directory, and taken out again. */
  lemma Hidden(clocks: Clocks, tool: Path, time: nat, t: nat, content: Content)
    requires tool != []
    ensures var n, time' := |tool|, clocks.stamp(t);
            var fs0 := Way(tool, None, time);
            var fs1 := Changed(clocks, t, fs0, New(n, File(content), 0, 0));
            && Changed(clocks, t, fs1, Set(n - 1, Directory(map[tool[n - 1] := n]), 0, 0))
               == Apart(tool, time, time', content, true)
            && Changed(clocks, t, Apart(tool, time, time', content, true), Set(n - 1, Directory(map[]), 0, 0))
               == Apart(tool, time, time', content, false)
  {
    var n, time' := |tool|, clocks.stamp(t);
    var fs0 := Way(tool, None, time);
    assert !Linked(fs0, n);
    var nodes1 := fs0.nodes[n := Node(File(content), time', 0)];
    assert n - 1 in nodes1 && nodes1[n - 1].body.Directory?;
    var nodes2 := Apart(tool, time, time', content, true).nodes;
    assert nodes1[n - 1 := Node(Directory(map[tool[n - 1] := n]), time', 0)] == nodes2;
    assert nodes2[n - 1 := Node(Directory(map[]), time', 0)] == Apart(tool, time, time', content, false).nodes;
  }

  /** Only the directory of the tool shows that the tool was there. */
  lemma HiddenStatuses(w: World, tool: Path, time: nat, time': nat, content: Content, entries: Signature)
    requires tool != [] && !Coverable(w.compiler, tool[..|tool| - 1]) && w.tools == {tool}
    requires forall m | m in entries :: m in ToolMembers(w) || Coverable(w.compiler, m.path)
    requires Statuses(Way(tool, None, time), entries)
    ensures Statuses(Apart(tool, time, time', content, false), entries)
    ensures ToolMark(tool) in entries ==> entries[ToolMark(tool)] == Missing
  {
    hide Coverable, Apart, Way, Lookup;
    var fs, fs', n := Way(tool, None, time), Apart(tool, time, time', content, false), |tool|;
    var parent := tool[..n - 1];
    forall m | m in entries ensures StatusAt(fs', m.path) == StatusAt(fs, m.path) {
      assert m.path != parent;
      ElsewhereSame(tool, time, time', content, m.path);
    }
    WayLeads(tool, None, time);
    LookupWay(fs, tool, n - 1, tool);
  }

  lemma ElsewhereSame(tool: Path, time: nat, time': nat, content: Content, path: Path)
    requires tool != [] && path != tool[..|tool| - 1]
    ensures StatusAt(Apart(tool, time, time', content, false), path) == StatusAt(Way(tool, None, time), path)
  {
    var fs, fs', n := Way(tool, None, time), Apart(tool, time, time', content, false), |tool|;
    var parent := tool[..n - 1];
    WayLeads(tool, None, time);
    ApartLeads(tool, time, time', content, false);
    LookupWay(fs, tool, n - 1, path);
    LookupWay(fs', tool, n - 1, path);
    assert path <= tool && |path| == n - 1 ==> path == parent;
    hide Leads, Lookup;
  }

  /** A directory on the way that is not covered has none below it that is. */
  lemma ParentUncoverable(compiler: Path, tool: Path)
    requires tool != [] && !Visible(compiler, tool)
    ensures |tool| > 1 && !Coverable(compiler, tool[..|tool| - 1])
  {
    var n := |tool|;
    var k :| 0 < k < n && !Coverable(compiler, tool[..k]);
    var path, parent := tool[..k], tool[..n - 1];
    if |path| <= 2 {
      var j :| 0 < j <= |path| && Skipped(compiler, path[..j]);
      assert parent[..j] == path[..j];
    }
  }

  lemma HiddenRemembered(w: World, s0: State, tool: Path, time: nat, content: Content) returns (s1: State)
    requires w.tools == {tool} && Covered(w.compiler, tool) && !Coverable(w.compiler, tool[..|tool| - 1])
    requires s0 == State(s0.now, Way(tool, None, time), None, map[]) && Trusts(w.clocks, s0.now, time)
    requires |tool| > 1 && Reaches(w, EMPTY, s0)
    ensures Reaches(w, EMPTY, s1) && s1.tasks == map[0 := Ended] && s1.memo.Some?
    ensures tool in s1.memo.value.digests && Statuses(s1.fs, s1.memo.value.signature)
    ensures ToolMark(tool) in s1.memo.value.signature && s1.memo.value.signature[ToolMark(tool)] == Missing
  {
    hide Reaches, Statuses, AllReadable, UpTo, Coverable, Apart, Changed, Way;
    var n, now, time' := |tool|, s0.now, w.clocks.stamp(s0.now);
    WayLeads(tool, None, time);
    LeadsReadable(w.compiler, s0.fs, tool, n - 1);
    LookupWay(s0.fs, tool, n - 1, []);
    var entries, newest := SignAlone(w, s0, 0, time);
    assert ToolMark(tool) in entries;
    HiddenStatuses(w, tool, time, time', content, entries);
    var there := Apart(tool, time, time', content, true);
    var gone := Apart(tool, time, time', content, false);
    Hidden(w.clocks, tool, time, now, content);
    var digests := map[tool := w.hash(content)];
    var a := Put(s0, 0, Hashing(now, w.tools, entries, newest, map[]));
    var b := a.(fs := there);
    var c := Put(s0, 0, Comparing(now, entries.Keys, entries, newest, digests)).(fs := there);
    ReachMore(w, EMPTY, s0, a);
    ReachStep(w, EMPTY, a, Alter(New(n, File(content), 0, 0)));
    ReachStep(w, EMPTY, Perform(w, a, Alter(New(n, File(content), 0, 0))),
              Alter(Set(n - 1, Directory(map[tool[n - 1] := n]), 0, 0)));
    ApartLeads(tool, time, time', content, true);
    LookupWay(there, tool, n, tool);
    ApartHolds(tool, time, time', content);
    HashAlone(w, s0.(fs := there), 0, now, entries, newest, tool, content);
    ReachMore(w, EMPTY, b, c);
    ReachStep(w, EMPTY, c, Alter(Set(n - 1, Directory(map[]), 0, 0)));
    RememberAlone(w, s0.(fs := gone), 0, now, entries, newest, digests);
    s1 := Put(s0.(fs := gone), 0, Ended).(memo := Some(Memo(entries, digests)));
    ReachMore(w, EMPTY, c.(fs := gone), s1);
  }

  lemma ApartHolds(tool: Path, time: nat, time': nat, content: Content)
    requires tool != []
    ensures var fs := Apart(tool, time, time', content, true);
            |tool| in fs.nodes && fs.nodes[|tool|].body == File(content)
  {
  }

  /** Where a directory on the way to the tool is not covered, a tool that was there only while it was hashed is
      recalled although it is gone, under any clocks. */
  lemma HiddenRecalled(w: World, tool: Path, content: Content)
    requires w.tools == {tool} && Covered(w.compiler, tool) && !Visible(w.compiler, tool)
    ensures Stale(w, tool)
  {
    hide Reaches, Statuses, Coverable;
    var time := w.clocks.stamp(0);
    ParentUncoverable(w.compiler, tool);
    MakeWay(w, tool, None, 0);
    var s := State(0, Way(tool, None, time), None, map[]);
    var now := time + w.clocks.racy;
    ReachStep(w, EMPTY, s, Wait(now));
    var s1 := HiddenRemembered(w, s.(now := now), tool, time, content);
    var memo := s1.memo.value;
    var seen := RecallAlone(w, s1, 1, tool, memo);
    var s2 := Put(s1, 1, Recalled(memo, seen));
    ReachMore(w, EMPTY, s1, s2);
    assert Shows(w, tool, s2, 1);
  }

  // ----- exactly when -----

  /** Whatever happens, what is recalled for the tool is current. */
  ghost predicate AlwaysCurrent(hash: Content -> Digest, clocks: Clocks, compiler: Path, tool: Path) {
    forall tools, actions, process :: RecallCurrent(World(hash, clocks, compiler, tools), actions, process, tool)
  }

  ghost predicate RecallCurrent(w: World, actions: seq<Action>, process: nat, tool: Path) {
    var s := Run(w, actions);
    process in s.tasks && s.tasks[process].Recalled? ==> Current(w, s.tasks[process], tool)
  }

  /** No run is stale exactly when changes get times less than the window behind, and the directories on the way
      to the tool are in the signature wherever they exist. */
  lemma CurrentExactly(
    hash: Content -> Digest, clocks: Clocks, compiler: Path, tool: Path, first: Content, second: Content)
    requires hash(first) != hash(second) && Covered(compiler, tool)
    ensures AlwaysCurrent(hash, clocks, compiler, tool)
            <==> clocks.racy > 0 && Fine(clocks) && Visible(compiler, tool)
  {
    hide Run, Current, Visible, Covered, Stale;
    if clocks.racy > 0 && Fine(clocks) && Visible(compiler, tool) {
      forall tools, actions, process
        ensures RecallCurrent(World(hash, clocks, compiler, tools), actions, process, tool)
      {
        var w := World(hash, clocks, compiler, tools);
        var s := Run(w, actions);
        if process in s.tasks && s.tasks[process].Recalled? {
          NeverStale(w, actions, process, tool);
        }
      }
    } else {
      var w := World(hash, clocks, compiler, {tool});
      if clocks.racy > 0 && Fine(clocks) {
        HiddenRecalled(w, tool, first);
      } else {
        var t: nat := 0;
        if clocks.racy > 0 {
          t :| !(t < clocks.stamp(t) + clocks.racy);
        }
        SecondUnseen(w, tool, t, first, second);
      }
      StaleRun(w, tool);
    }
  }

  lemma StaleRun(w: World, tool: Path)
    requires Stale(w, tool)
    ensures !AlwaysCurrent(w.hash, w.clocks, w.compiler, tool)
  {
    var s, process :| Reaches(w, EMPTY, s) && Shows(w, tool, s, process);
    var actions :| After(w, EMPTY, actions) == s;
    assert !RecallCurrent(World(w.hash, w.clocks, w.compiler, w.tools), actions, process, tool);
  }
}

/**
  Which capabilities the packages of a project have. Package 0 is the root. A package has what every
  parent has and grants it; following the packages in the order in which all their parents are settled
  computes the meet over all paths from the root.
 */
module Policy {
  import opened Basics

  datatype Capability = Env | Ffi | Fs | Gpu | Net | Process | Random | Stdio | Time

  type CapabilitySet = set<Capability>

  const ALL: CapabilitySet := {Env, Ffi, Fs, Gpu, Net, Process, Random, Stdio, Time}

  lemma AllOfThem(c: Capability)
    ensures c in ALL
  {
  }

  /** An edge of the package graph: the child gets no more than what is granted here. */
  datatype Edge = Edge(parent: nat, child: nat, granted: CapabilitySet)

  datatype Graph = Graph(packages: nat, edges: seq<Edge>)

  ghost predicate WellFormed(g: Graph) {
    && g.packages > 0
    && (forall j | 0 <= j < |g.edges| :: g.edges[j].parent < g.packages && 0 < g.edges[j].child < g.packages)
  }

  /** The edges of `path`, by index, lead from the package `from` to the package `to`. */
  ghost predicate Path(g: Graph, from: nat, path: seq<nat>, to: nat)
    decreases |path|
  {
    if path == [] then from == to
    else
      var last := path[|path| - 1];
      last < |g.edges| && g.edges[last].child == to && Path(g, from, path[..|path| - 1], g.edges[last].parent)
  }

  ghost predicate Reached(g: Graph, p: nat) {
    exists path :: Path(g, 0, path, p)
  }

  ghost predicate Reachable(g: Graph) {
    forall p: nat | p < g.packages :: Reached(g, p)
  }

  /** A numbering that every edge ascends: the graph has no cycle. */
  ghost predicate Ascending(g: Graph, rank: seq<nat>) {
    |rank| == g.packages && forall j | 0 <= j < |g.edges| ::
      g.edges[j].parent < |rank| && g.edges[j].child < |rank| && rank[g.edges[j].parent] < rank[g.edges[j].child]
  }

  ghost predicate Acyclic(g: Graph) {
    exists rank :: Ascending(g, rank)
  }

  // ----- the specification: the meet over all paths -----

  ghost predicate Grants(g: Graph, path: seq<nat>, c: Capability) {
    forall k | 0 <= k < |path| :: path[k] < |g.edges| && c in g.edges[path[k]].granted
  }

  /** The root allows the capability, and every edge of every path from the root grants it. */
  ghost predicate Permitted(g: Graph, allow: CapabilitySet, p: nat, c: Capability) {
    c in allow && forall path | Path(g, 0, path, p) :: Grants(g, path, c)
  }

  // ----- one equation for each package -----

  ghost predicate Into(g: Graph, j: nat, p: nat) {
    j < |g.edges| && g.edges[j].child == p
  }

  type Effective = map<nat, CapabilitySet>

  /** Every package has what all edges into it pass on. */
  ghost predicate Solves(g: Graph, enforced: bool, allow: CapabilitySet, effective: Effective) {
    && (forall p: nat | p < g.packages :: p in effective)
    && 0 in effective && effective[0] == (if enforced then allow else ALL)
    && (forall p: nat | 0 < p < g.packages :: Balanced(g, enforced, effective, p))
  }

  ghost predicate Passes(g: Graph, enforced: bool, effective: Effective, j: nat, c: Capability)
    requires j < |g.edges|
  {
    enforced ==> g.edges[j].parent in effective && c in effective[g.edges[j].parent] && c in g.edges[j].granted
  }

  ghost predicate Balanced(g: Graph, enforced: bool, effective: Effective, p: nat)
    requires p in effective
  {
    forall c :: c in effective[p] <==> forall j: nat | Into(g, j, p) :: Passes(g, enforced, effective, j, c)
  }

  /** What the equations say is what the paths say. */
  lemma {:induction false} MeetOverPaths(
    g: Graph, rank: seq<nat>, allow: CapabilitySet, effective: Effective, p: nat, c: Capability)
    requires WellFormed(g) && Ascending(g, rank) && Reachable(g) && Solves(g, true, allow, effective) && p < g.packages
    ensures c in effective[p] <==> Permitted(g, allow, p, c)
    decreases rank[p]
  {
    if p == 0 {
      forall path | Path(g, 0, path, 0) ensures path == [] {
        RootHasNoEdges(g, path);
      }
    } else {
      forall j: nat | Into(g, j, p)
        ensures Passes(g, true, effective, j, c)
                <==> Permitted(g, allow, g.edges[j].parent, c) && c in g.edges[j].granted
      {
        MeetOverPaths(g, rank, allow, effective, g.edges[j].parent, c);
      }
      assert Balanced(g, true, effective, p);
      if c in effective[p] {
        AllParentsPermit(g, allow, p, c);
      }
      if Permitted(g, allow, p, c) {
        forall j: nat | Into(g, j, p) ensures Passes(g, true, effective, j, c) {
          ParentPermitted(g, allow, p, c, j);
        }
      }
    }
  }

  lemma RootHasNoEdges(g: Graph, path: seq<nat>)
    requires WellFormed(g) && Path(g, 0, path, 0)
    ensures path == []
  {
  }

  /** Each path to a package ends with an edge into it. */
  lemma AllParentsPermit(g: Graph, allow: CapabilitySet, p: nat, c: Capability)
    requires WellFormed(g) && Reachable(g) && 0 < p < g.packages
    requires forall j: nat | Into(g, j, p) :: Permitted(g, allow, g.edges[j].parent, c) && c in g.edges[j].granted
    ensures Permitted(g, allow, p, c)
  {
    forall path | Path(g, 0, path, p) ensures Grants(g, path, c) {
      var last := path[|path| - 1];
      assert Into(g, last, p);
      assert Grants(g, path[..|path| - 1], c);
    }
    assert Reached(g, p);
    var path :| Path(g, 0, path, p);
    assert Into(g, path[|path| - 1], p);
  }

  lemma ParentPermitted(g: Graph, allow: CapabilitySet, p: nat, c: Capability, j: nat)
    requires WellFormed(g) && Reachable(g) && Permitted(g, allow, p, c) && Into(g, j, p)
    ensures Permitted(g, allow, g.edges[j].parent, c) && c in g.edges[j].granted
  {
    var parent := g.edges[j].parent;
    forall path | Path(g, 0, path, parent) ensures Grants(g, path, c) && c in g.edges[j].granted {
      var longer := path + [j];
      assert longer[..|longer| - 1] == path;
      assert Path(g, 0, longer, p);
      assert Grants(g, longer, c);
      assert longer[|path|] == j;
      forall k | 0 <= k < |path| ensures path[k] < |g.edges| && c in g.edges[path[k]].granted {
        assert longer[k] == path[k];
      }
    }
    assert Reached(g, parent);
    var path :| Path(g, 0, path, parent);
  }

  // ----- settling the packages -----

  /** The edges into `p` that have not been followed. */
  ghost function Waiting(g: Graph, done: set<nat>, p: nat): set<nat> {
    set j: nat | j < |g.edges| && Into(g, j, p) && j !in done
  }

  /** What has been computed after following the edges `done`. A package that some edge leads to has what
      the followed edges pass on. */
  ghost predicate Partly(g: Graph, enforced: bool, effective: Effective, done: set<nat>, p: nat) {
    && (p in effective <==> exists j: nat :: Into(g, j, p) && j in done)
    && (p in effective ==>
          forall c :: c in effective[p]
            <==> forall j: nat | Into(g, j, p) && j in done :: Passes(g, enforced, effective, j, c))
  }

  /** `queue` and `settled` are the root and the packages with no edge left to wait for. */
  ghost predicate Progress(
    g: Graph, enforced: bool, allow: CapabilitySet, effective: Effective, incoming: map<nat, nat>, done: set<nat>,
    queue: seq<nat>, settled: set<nat>)
  {
    && WellFormed(g)
    && (forall j | j in done :: j < |g.edges| && g.edges[j].parent in settled)
    && 0 in effective && effective[0] == (if enforced then allow else ALL)
    && (forall p: nat | 0 < p < g.packages :: Partly(g, enforced, effective, done, p))
    && (forall p: nat | 0 < p < g.packages && exists j: nat ::
        Into(g, j, p) :: p in incoming && incoming[p] == |Waiting(g, done, p)|)
    && Queued(g, done, queue, settled)
  }

  ghost predicate Queued(g: Graph, done: set<nat>, queue: seq<nat>, settled: set<nat>) {
    && (forall i, j | 0 <= i < j < |queue| :: queue[i] != queue[j])
    && (forall p | p in queue :: p !in settled)
    && (forall p: nat :: p in queue || p in settled <==>
          p < g.packages && (p == 0 || ((exists j: nat :: Into(g, j, p)) && Waiting(g, done, p) == {})))
  }

  function Count(edges: seq<Edge>, p: nat): nat {
    if edges == [] then 0 else Count(edges[..|edges| - 1], p) + (if edges[|edges| - 1].child == p then 1 else 0)
  }

  lemma {:induction false} CountIsWaiting(g: Graph, n: nat, p: nat)
    requires n <= |g.edges|
    ensures Count(g.edges[..n], p) == |set j: nat | j < n && Into(g, j, p)|
  {
    if n == 0 {
      assert (set j: nat | j < n && Into(g, j, p)) == {};
    } else {
      assert g.edges[..n][..n - 1] == g.edges[..n - 1];
      CountIsWaiting(g, n - 1, p);
      var before := set j: nat | j < n - 1 && Into(g, j, p);
      var now := set j: nat | j < n && Into(g, j, p);
      assert now == if g.edges[n - 1].child == p then before + {n - 1} else before;
    }
  }

  /** How many edges lead into each package. */
  method Incoming(g: Graph) returns (incoming: map<nat, nat>)
    ensures forall p: nat :: (exists j: nat :: Into(g, j, p)) ==> p in incoming && incoming[p] == |Waiting(g, {}, p)|
  {
    incoming := map[];
    for i := 0 to |g.edges|
      invariant forall p: nat :: (p in incoming <==> Count(g.edges[..i], p) > 0)
      invariant forall p: nat | p in incoming :: incoming[p] == Count(g.edges[..i], p)
    {
      var child := g.edges[i].child;
      assert g.edges[..i + 1][..i] == g.edges[..i];
      incoming := incoming[child := (if child in incoming then incoming[child] else 0) + 1];
    }
    assert g.edges[..|g.edges|] == g.edges;
    forall p: nat | exists j: nat :: Into(g, j, p) ensures p in incoming && incoming[p] == |Waiting(g, {}, p)| {
      CountIsWaiting(g, |g.edges|, p);
      var all := set j: nat | j < |g.edges| && Into(g, j, p);
      assert all == Waiting(g, {}, p);
      var j: nat :| Into(g, j, p);
      assert j in all;
    }
  }

  function Candidate(g: Graph, enforced: bool, from: CapabilitySet, j: nat): CapabilitySet
    requires j < |g.edges|
  {
    if enforced then from * g.edges[j].granted else ALL
  }

  function Met(effective: Effective, child: nat, candidate: CapabilitySet): Effective {
    effective[child := if child in effective then effective[child] * candidate else candidate]
  }

  /** Following an edge of a settled parent changes what its child has, and nothing that was passed on. */
  lemma FollowChild(g: Graph, enforced: bool, effective: Effective, done: set<nat>, settled: set<nat>, j: nat, p: nat)
    requires WellFormed(g) && j < |g.edges| && j !in done && g.edges[j].parent in settled
             && g.edges[j].child !in settled
    requires forall k | k in done :: k < |g.edges| && g.edges[k].parent in settled
    requires g.edges[j].parent in effective && Partly(g, enforced, effective, done, p)
    ensures var candidate := Candidate(g, enforced, effective[g.edges[j].parent], j);
            Partly(g, enforced, Met(effective, g.edges[j].child, candidate), done + {j}, p)
  {
    var child := g.edges[j].child;
    var candidate := Candidate(g, enforced, effective[g.edges[j].parent], j);
    var effective' := Met(effective, child, candidate);
    assert Into(g, j, child);
    forall k: nat, c | k in done + {j} && k < |g.edges|
      ensures Passes(g, enforced, effective', k, c) <==> Passes(g, enforced, effective, k, c)
    {
    }
    forall c ensures Passes(g, enforced, effective, j, c) <==> c in candidate {
      AllOfThem(c);
    }
    if p == child {
      forall c
        ensures c in effective'[p]
                <==> forall k: nat | Into(g, k, p) && k in done + {j} :: Passes(g, enforced, effective', k, c)
      {
        if p in effective {
          assert c in effective[p] <==> forall k: nat | Into(g, k, p) && k in done ::
                 Passes(g, enforced, effective, k, c);
        }
      }
    }
  }

  lemma FollowQueue(g: Graph, done: set<nat>, queue: seq<nat>, settled: set<nat>, j: nat)
    requires WellFormed(g) && j < |g.edges| && j !in done && Queued(g, done, queue, settled)
             && g.edges[j].parent in settled
    ensures var child := g.edges[j].child;
            && child !in settled && child !in queue
            && Waiting(g, done + {j}, child) == Waiting(g, done, child) - {j} && j in Waiting(g, done, child)
            && |Waiting(g, done + {j}, child)| == |Waiting(g, done, child)| - 1
            && (forall p: nat | p != child :: Waiting(g, done + {j}, p) == Waiting(g, done, p))
            && Queued(g, done + {j}, if Waiting(g, done + {j}, child) == {} then queue + [child] else queue, settled)
  {
    var child := g.edges[j].child;
    assert Into(g, j, child) && j in Waiting(g, done, child);
    assert Waiting(g, done + {j}, child) == Waiting(g, done, child) - {j};
    forall p: nat | p != child ensures Waiting(g, done + {j}, p) == Waiting(g, done, p) {
      assert !Into(g, j, p);
    }
    var queue' := if Waiting(g, done + {j}, child) == {} then queue + [child] else queue;
    forall p: nat
      ensures p in queue' || p in settled <==>
              p < g.packages && (p == 0 || ((exists k: nat :: Into(g, k, p)) && Waiting(g, done + {j}, p) == {}))
    {
      assert p in queue' <==> p in queue || (p == child && Waiting(g, done + {j}, child) == {});
    }
  }

  /** Everything is settled in the end: a package of the lowest rank that is not would wait for nothing. */
  lemma {:induction false} AllSettled(g: Graph, rank: seq<nat>, done: set<nat>, settled: set<nat>, p: nat)
    requires WellFormed(g) && Ascending(g, rank) && Reachable(g) && Queued(g, done, [], settled) && p < g.packages
    requires forall j: nat | j < |g.edges| && g.edges[j].parent in settled :: j in done
    ensures p in settled && Waiting(g, done, p) == {}
    decreases rank[p]
  {
    forall j: nat | Into(g, j, p) ensures j in done {
      AllSettled(g, rank, done, settled, g.edges[j].parent);
    }
    if p != 0 {
      assert Reached(g, p);
      var path :| Path(g, 0, path, p);
      assert Into(g, path[|path| - 1], p);
    }
    assert p !in [];
  }

  lemma SettledSolves(
    g: Graph, rank: seq<nat>, enforced: bool, allow: CapabilitySet, effective: Effective, incoming: map<nat, nat>,
    done: set<nat>, settled: set<nat>)
    requires Progress(g, enforced, allow, effective, incoming, done, [], settled) && Ascending(g, rank) && Reachable(g)
    requires forall j: nat | j < |g.edges| && g.edges[j].parent in settled :: j in done
    ensures Solves(g, enforced, allow, effective)
  {
    forall p: nat | p < g.packages ensures p in effective && (p > 0 ==> Balanced(g, enforced, effective, p)) {
      AllSettled(g, rank, done, settled, p);
      if p > 0 {
        assert Partly(g, enforced, effective, done, p);
        assert forall j: nat | Into(g, j, p) :: j !in Waiting(g, done, p);
      }
    }
  }

  lemma Start(g: Graph, enforced: bool, allow: CapabilitySet, incoming: map<nat, nat>)
    requires WellFormed(g)
    requires forall p: nat :: (exists j: nat :: Into(g, j, p)) ==> p in incoming && incoming[p] == |Waiting(g, {}, p)|
    ensures Progress(g, enforced, allow, map[0 := if enforced then allow else ALL], incoming, {}, [0], {})
  {
    forall p: nat, j: nat | Into(g, j, p) ensures Waiting(g, {}, p) != {} {
      assert j in Waiting(g, {}, p);
    }
  }

  lemma PopFront(
    g: Graph, enforced: bool, allow: CapabilitySet, effective: Effective, incoming: map<nat, nat>, done: set<nat>,
    queue: seq<nat>, settled: set<nat>)
    requires Progress(g, enforced, allow, effective, incoming, done, queue, settled) && queue != []
    ensures Progress(g, enforced, allow, effective, incoming, done, queue[1..], settled + {queue[0]})
            && queue[0] !in settled
    ensures forall j | j in done && j < |g.edges| :: g.edges[j].parent in settled
  {
    hide Partly, Queued;
    QueuedPop(g, done, queue, settled);
  }

  lemma QueuedPop(g: Graph, done: set<nat>, queue: seq<nat>, settled: set<nat>)
    requires Queued(g, done, queue, settled) && queue != []
    ensures Queued(g, done, queue[1..], settled + {queue[0]}) && queue[0] !in settled
  {
    var first, rest := queue[0], queue[1..];
    assert queue == [first] + rest;
    assert first in queue;
    forall p: nat ensures p in rest || p in settled + {first} <==> p in queue || p in settled {}
    forall p | p in rest ensures p !in settled + {first} {
      var k :| 0 <= k < |rest| && rest[k] == p;
      assert queue[k + 1] == p;
    }
  }

  /** A package without edges to wait for has its capabilities. */
  lemma InEffective(
    g: Graph, enforced: bool, allow: CapabilitySet, effective: Effective, incoming: map<nat, nat>, done: set<nat>,
    queue: seq<nat>,
    settled: set<nat>, p: nat)
    requires Progress(g, enforced, allow, effective, incoming, done, queue, settled) && p in settled
    ensures p < g.packages && p in effective
  {
    if p != 0 {
      var j: nat :| Into(g, j, p);
      assert j !in Waiting(g, done, p);
      assert Partly(g, enforced, effective, done, p);
    }
  }

  lemma Followed(
    g: Graph, enforced: bool, allow: CapabilitySet, effective: Effective, incoming: map<nat, nat>, done: set<nat>,
    queue: seq<nat>,
    settled: set<nat>, j: nat)
    requires Progress(g, enforced, allow, effective, incoming, done, queue, settled)
    requires j < |g.edges| && j !in done && g.edges[j].parent in settled && g.edges[j].parent in effective
    ensures var child := g.edges[j].child;
            && child !in settled && child in incoming && incoming[child] > 0
            && Progress(g, enforced, allow,
                        Met(effective, child, Candidate(g, enforced, effective[g.edges[j].parent], j)),
                        incoming[child := incoming[child] - 1], done + {j},
                        if incoming[child] == 1 then queue + [child] else queue, settled)
  {
    hide Partly, Queued;
    var child := g.edges[j].child;
    assert Into(g, j, child);
    FollowQueue(g, done, queue, settled, j);
    forall p: nat | 0 < p < g.packages
      ensures Partly(g, enforced, Met(effective, child, Candidate(g, enforced, effective[g.edges[j].parent], j)),
                     done + {j}, p)
    {
      FollowChild(g, enforced, effective, done, settled, j, p);
    }
  }

  lemma SettledBelow(
    g: Graph, enforced: bool, allow: CapabilitySet, effective: Effective, incoming: map<nat, nat>, done: set<nat>,
    queue: seq<nat>, settled: set<nat>)
    requires Progress(g, enforced, allow, effective, incoming, done, queue, settled)
    ensures |settled| <= g.packages
  {
    BelowSize(settled, g.packages);
  }

  lemma {:induction false} BelowSize(s: set<nat>, n: nat)
    requires forall x | x in s :: x < n
    ensures |s| <= n
  {
    if n == 0 {
      assert s == {};
    } else {
      BelowSize(s - {n - 1}, n - 1);
      assert s <= (s - {n - 1}) + {n - 1};
    }
  }

  lemma MetElsewhere(effective: Effective, child: nat, candidate: CapabilitySet, p: nat)
    requires p != child && p in effective
    ensures p in Met(effective, child, candidate) && Met(effective, child, candidate)[p] == effective[p]
  {
  }

  lemma Grown(s: set<nat>, x: nat)
    requires x !in s
    ensures |s + {x}| == |s| + 1
  {
  }

  /** Settles the packages, each after all its parents. */
  method Build(g: Graph, enforced: bool, allow: CapabilitySet) returns (effective: Effective)
    requires WellFormed(g)
    ensures Acyclic(g) && Reachable(g) ==> Solves(g, enforced, allow, effective)
  {
    hide Progress, Solves, Ascending, Reachable, Met, Waiting;
    effective := map[0 := if enforced then allow else ALL];
    var incoming := Incoming(g);
    var queue := [0];
    ghost var done: set<nat> := {};
    ghost var settled: set<nat> := {};
    Start(g, enforced, allow, incoming);
    while queue != []
      invariant Progress(g, enforced, allow, effective, incoming, done, queue, settled)
      invariant forall j: nat | j < |g.edges| && g.edges[j].parent in settled :: j in done
      decreases g.packages - |settled|
    {
      var parent := queue[0];
      PopFront(g, enforced, allow, effective, incoming, done, queue, settled);
      queue := queue[1..];
      ghost var before := settled;
      settled := settled + {parent};
      effective, incoming, queue, done := Follow(g, enforced, allow, effective, incoming, queue, parent, done, before);
      SettledBelow(g, enforced, allow, effective, incoming, done, queue, settled);
      Grown(before, parent);
    }
    if Acyclic(g) && Reachable(g) {
      ghost var rank :| Ascending(g, rank);
      SettledSolves(g, rank, enforced, allow, effective, incoming, done, settled);
    }
  }

  /** Every edge of the parent that was taken from the queue. */
  method Follow(
    g: Graph, enforced: bool, allow: CapabilitySet, effective: Effective, incoming: map<nat, nat>, queue: seq<nat>,
    parent: nat, ghost done: set<nat>, ghost before: set<nat>)
    returns (effective': Effective, incoming': map<nat, nat>, queue': seq<nat>, ghost done': set<nat>)
    requires WellFormed(g) && Progress(g, enforced, allow, effective, incoming, done, queue, before + {parent})
    requires forall j: nat | j < |g.edges| && g.edges[j].parent in before :: j in done
    requires forall j: nat | j < |g.edges| && g.edges[j].parent == parent :: j !in done
    ensures Progress(g, enforced, allow, effective', incoming', done', queue', before + {parent})
    ensures forall j: nat | j < |g.edges| && g.edges[j].parent in before + {parent} :: j in done'
  {
    hide Progress, Met;
    effective', incoming', queue', done' := effective, incoming, queue, done;
    ghost var settled := before + {parent};
    InEffective(g, enforced, allow, effective, incoming, done, queue, settled, parent);
    var parentSet := effective[parent];
    for i := 0 to |g.edges|
      invariant Progress(g, enforced, allow, effective', incoming', done', queue', settled)
      invariant parent in effective' && effective'[parent] == parentSet
      invariant forall j: nat | j < |g.edges| && g.edges[j].parent in before :: j in done'
      invariant forall j: nat | j < |g.edges| && g.edges[j].parent == parent :: j in done' <==> j < i
    {
      if g.edges[i].parent == parent {
        var child := g.edges[i].child;
        Followed(g, enforced, allow, effective', incoming', done', queue', settled, i);
        MetElsewhere(effective', child, Candidate(g, enforced, parentSet, i), parent);
        effective' := Met(effective', child, Candidate(g, enforced, parentSet, i));
        incoming' := incoming'[child := incoming'[child] - 1];
        if incoming'[child] == 0 {
          queue' := queue' + [child];
        }
        done' := done' + {i};
      }
    }
  }

  // ----- who is to blame -----

  datatype Policy = Policy(graph: Graph, enforced: bool, effective: Effective)

  function Allowed(policy: Policy, p: nat): CapabilitySet {
    if !policy.enforced then ALL else if p in policy.effective then policy.effective[p] else {}
  }

  /** Where a manifest withholds something: in the list of the root, or where a parent names a child. */
  datatype Limit = RootAllow | Entry(parent: nat, child: nat)

  function Blocker(policy: Policy, p: nat, c: Capability): Option<Limit> {
    BlockerWithin(policy, p, c, policy.graph.packages)
  }

  function BlockerWithin(policy: Policy, p: nat, c: Capability, depth: nat): Option<Limit>
    decreases depth, 1, 0
  {
    if c !in Allowed(policy, 0) then Some(RootAllow)
    else if p == 0 then None
    else FirstBlocker(policy, p, c, depth, 0)
  }

  /** The first of the edges from `i` on into `p` that does not grant the capability, or whose parent lacks it. */
  function FirstBlocker(policy: Policy, p: nat, c: Capability, depth: nat, i: nat): Option<Limit>
    requires i <= |policy.graph.edges|
    decreases depth, 0, |policy.graph.edges| - i
  {
    if i == |policy.graph.edges| then None
    else
      var edge := policy.graph.edges[i];
      if edge.child != p then FirstBlocker(policy, p, c, depth, i + 1)
      else if c !in edge.granted then Some(Entry(edge.parent, p))
      else if c !in Allowed(policy, edge.parent) && depth > 0 then BlockerWithin(policy, edge.parent, c, depth - 1)
      else FirstBlocker(policy, p, c, depth, i + 1)
  }

  /** The packages of a lower rank: the ones that a search for blame can still pass through. */
  ghost function Lower(g: Graph, rank: seq<nat>, p: nat): set<nat>
    requires |rank| == g.packages && p < g.packages
  {
    set q: nat | q < g.packages && rank[q] < rank[p]
  }

  lemma LowerShrinks(g: Graph, rank: seq<nat>, p: nat, q: nat)
    requires |rank| == g.packages && p < g.packages && q < g.packages && rank[q] < rank[p]
    ensures |Lower(g, rank, q)| < |Lower(g, rank, p)|
  {
    var a, b := Lower(g, rank, q), Lower(g, rank, p);
    assert a <= b && q in b && q !in a;
    assert b == a + (b - a) && q in b - a;
  }

  lemma LowerBelow(g: Graph, rank: seq<nat>, p: nat)
    requires |rank| == g.packages && p < g.packages
    ensures |Lower(g, rank, p)| < g.packages
  {
    var s := Lower(g, rank, p);
    BelowSize(s + {p}, g.packages);
    assert p !in s;
    assert |s + {p}| == |s| + 1;
  }

  ghost predicate Built(policy: Policy, allow: CapabilitySet, rank: seq<nat>) {
    && WellFormed(policy.graph) && Ascending(policy.graph, rank) && Reachable(policy.graph)
    && Solves(policy.graph, policy.enforced, allow, policy.effective)
  }

  /** The limit is real: the root leaves the capability out, or the entry does not grant it, and the entry
      is on a way to the package. */
  ghost predicate Limits(g: Graph, allow: CapabilitySet, p: nat, c: Capability, limit: Limit) {
    match limit
    case RootAllow => c !in allow
    case Entry(parent, child) =>
      exists j: nat, path :: Into(g, j, child) && g.edges[j].parent == parent && c !in g.edges[j].granted
        && Path(g, child, path, p)
  }

  lemma {:induction false} PathStep(g: Graph, from: nat, path: seq<nat>, j: nat)
    requires j < |g.edges| && Path(g, from, path, g.edges[j].parent)
    ensures Path(g, from, path + [j], g.edges[j].child)
  {
    assert (path + [j])[..|path|] == path;
  }

  lemma LimitsBelow(g: Graph, allow: CapabilitySet, j: nat, c: Capability, limit: Limit)
    requires j < |g.edges| && Limits(g, allow, g.edges[j].parent, c, limit)
    ensures Limits(g, allow, g.edges[j].child, c, limit)
  {
    match limit
    case RootAllow =>
    case Entry(parent, child) =>
      var k: nat, path :| Into(g, k, child) && g.edges[k].parent == parent && c !in g.edges[k].granted
                          && Path(g, child, path, g.edges[j].parent);
      PathStep(g, child, path, j);
  }

  /** With enough depth, a limit is found exactly when the capability is missing, it is a real one, and
      more depth finds the same. */
  lemma {:induction false} BlockerFound(
    policy: Policy, allow: CapabilitySet, rank: seq<nat>, p: nat, c: Capability, depth: nat, more: nat)
    requires Built(policy, allow, rank) && policy.enforced && p < policy.graph.packages
    requires |Lower(policy.graph, rank, p)| <= depth
    ensures var r := BlockerWithin(policy, p, c, depth);
            && (r.Some? <==> c !in Allowed(policy, p))
            && (r.Some? ==> Limits(policy.graph, allow, p, c, r.value))
            && BlockerWithin(policy, p, c, depth + more) == r
    decreases rank[p], 1, 0
  {
    if c in Allowed(policy, 0) && p != 0 {
      FirstFound(policy, allow, rank, p, c, depth, more, 0);
      assert Balanced(policy.graph, true, policy.effective, p);
      if c !in Allowed(policy, p) {
        var j: nat :| Into(policy.graph, j, p) && !Passes(policy.graph, true, policy.effective, j, c);
        assert 0 <= j;
      }
    } else {
      MeetOverPaths(policy.graph, rank, allow, policy.effective, p, c);
    }
  }

  lemma {:induction false} FirstFound(
    policy: Policy, allow: CapabilitySet, rank: seq<nat>, p: nat, c: Capability, depth: nat, more: nat, i: nat)
    requires Built(policy, allow, rank) && policy.enforced && 0 < p < policy.graph.packages && i <= |policy.graph.edges|
    requires |Lower(policy.graph, rank, p)| <= depth && c in Allowed(policy, 0)
    ensures var r := FirstBlocker(policy, p, c, depth, i);
            && (r.Some? <==> exists j: nat ::
                i <= j && Into(policy.graph, j, p) && !Passes(policy.graph, true, policy.effective, j, c))
            && (r.Some? ==> Limits(policy.graph, allow, p, c, r.value))
            && FirstBlocker(policy, p, c, depth + more, i) == r
    decreases rank[p], 0, |policy.graph.edges| - i
  {
    var g := policy.graph;
    if i < |g.edges| {
      var edge := g.edges[i];
      FirstFound(policy, allow, rank, p, c, depth, more, i + 1);
      if edge.child == p {
        assert Into(g, i, p);
        if c !in edge.granted {
          assert !Passes(g, true, policy.effective, i, c);
          assert Path(g, p, [], p);
        } else if c !in Allowed(policy, edge.parent) {
          assert !Passes(g, true, policy.effective, i, c);
          LowerShrinks(g, rank, p, edge.parent);
          BlockerFound(policy, allow, rank, edge.parent, c, depth - 1, more);
          LimitsBelow(g, allow, i, c, BlockerWithin(policy, edge.parent, c, depth - 1).value);
        }
      }
    }
  }

  /** Blame is exact: a limit is named exactly when the package lacks the capability, and the bound on the
      depth is never why the search stops. */
  lemma BlameIsExact(policy: Policy, allow: CapabilitySet, p: nat, c: Capability, more: nat)
    requires WellFormed(policy.graph) && Acyclic(policy.graph) && Reachable(policy.graph) && policy.enforced
    requires Solves(policy.graph, true, allow, policy.effective) && p < policy.graph.packages
    ensures Blocker(policy, p, c).Some? <==> !Permitted(policy.graph, allow, p, c)
    ensures Blocker(policy, p, c).Some? ==> Limits(policy.graph, allow, p, c, Blocker(policy, p, c).value)
    ensures BlockerWithin(policy, p, c, policy.graph.packages + more) == Blocker(policy, p, c)
  {
    var rank :| Ascending(policy.graph, rank);
    LowerBelow(policy.graph, rank, p);
    BlockerFound(policy, allow, rank, p, c, policy.graph.packages, more);
    MeetOverPaths(policy.graph, rank, allow, policy.effective, p, c);
  }

  /** A policy that is not enforced allows everything, but still names a limit for a package some entry of
      which does not grant the capability. */
  lemma {:induction false} UnenforcedBlame(policy: Policy, p: nat, c: Capability, depth: nat, i: nat)
    requires !policy.enforced && i <= |policy.graph.edges|
    ensures FirstBlocker(policy, p, c, depth, i).Some? <==>
            exists j: nat :: i <= j && Into(policy.graph, j, p) && c !in policy.graph.edges[j].granted
    decreases |policy.graph.edges| - i
  {
    AllOfThem(c);
    if i < |policy.graph.edges| {
      UnenforcedBlame(policy, p, c, depth, i + 1);
      assert policy.graph.edges[i].child == p ==> Into(policy.graph, i, p);
    }
  }

  lemma UnenforcedBlocker(policy: Policy, p: nat, c: Capability)
    requires !policy.enforced
    ensures c in Allowed(policy, p)
    ensures Blocker(policy, p, c).Some?
            <==> p != 0 && exists j: nat :: Into(policy.graph, j, p) && c !in policy.graph.edges[j].granted
  {
    AllOfThem(c);
    UnenforcedBlame(policy, p, c, policy.graph.packages, 0);
    if j: nat :| Into(policy.graph, j, p) && c !in policy.graph.edges[j].granted {
      assert 0 <= j;
    }
  }
}

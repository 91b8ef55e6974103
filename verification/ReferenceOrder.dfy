/**
  Depth-first preorder by an explicit stack, on which a function can lie several times: the functions are
  visited as the recursive definition visits them.
 */
module ReferenceOrder {
  import opened Basics

  /** For each function, the ones that it refers to, in order. */
  type Graph = seq<seq<nat>>

  ghost predicate WellFormed(graph: Graph) {
    forall id, k | 0 <= id < |graph| && 0 <= k < |graph[id]| :: graph[id][k] < |graph|
  }

  ghost predicate Below(ids: seq<nat>, n: nat) {
    forall k | 0 <= k < |ids| :: ids[k] < n
  }

  function Range(n: nat): (r: set<nat>)
    ensures |r| == n && forall x: nat :: x in r <==> x < n
  {
    if n == 0 then {} else Range(n - 1) + {n - 1}
  }

  lemma Room(seen: set<nat>, n: nat)
    requires seen <= Range(n)
    ensures |seen| <= n
  {
    assert Range(n) == seen + (Range(n) - seen);
  }

  lemma Larger(a: set<nat>, b: set<nat>)
    requires a <= b
    ensures |a| <= |b|
  {
    assert b == a + (b - a);
  }

  datatype Visited = Visited(order: seq<nat>, seen: set<nat>)

  ghost function SetOf(ids: seq<nat>): set<nat> {
    set id | id in ids
  }

  /** The recursive definition: a function that has not been seen comes first, then what it names, from
      left to right, and so on. */
  ghost function Visit(graph: Graph, seen: set<nat>, ids: seq<nat>): (r: Visited)
    requires WellFormed(graph) && Below(ids, |graph|) && seen <= Range(|graph|)
    ensures seen <= r.seen <= Range(|graph|)
    decreases |graph| - |seen|, |ids|
  {
    if ids == [] then Visited([], seen)
    else if ids[0] in seen then Visit(graph, seen, ids[1..])
    else
      var id := ids[0];
      Room(seen + {id}, |graph|);
      var inner := Visit(graph, seen + {id}, graph[id]);
      Larger(seen + {id}, inner.seen);
      Room(inner.seen, |graph|);
      var rest := Visit(graph, inner.seen, ids[1..]);
      Visited([id] + inner.order + rest.order, rest.seen)
  }

  /** The functions `[0, n)` as roots, one after the other. */
  function Roots(n: nat): (r: seq<nat>)
    ensures |r| == n && forall k | 0 <= k < n :: r[k] == k
  {
    seq(n, k requires 0 <= k < n => k)
  }

  ghost function Preorder(graph: Graph): seq<nat>
    requires WellFormed(graph)
  {
    Visit(graph, {}, Roots(|graph|)).order
  }

  // ----- the recursive definition -----

  lemma {:induction false} VisitJoin(graph: Graph, seen: set<nat>, a: seq<nat>, b: seq<nat>)
    requires WellFormed(graph) && Below(a, |graph|) && Below(b, |graph|) && seen <= Range(|graph|)
    ensures var first := Visit(graph, seen, a);
            var second := Visit(graph, first.seen, b);
            Visit(graph, seen, a + b) == Visited(first.order + second.order, second.seen)
    decreases |graph| - |seen|, |a|
  {
    if a == [] {
      assert a + b == b;
    } else {
      assert (a + b)[1..] == a[1..] + b && (a + b)[0] == a[0];
      if a[0] in seen {
        VisitJoin(graph, seen, a[1..], b);
      } else {
        var id := a[0];
        Room(seen + {id}, |graph|);
        var inner := Visit(graph, seen + {id}, graph[id]);
        Larger(seen + {id}, inner.seen);
        Room(inner.seen, |graph|);
        VisitJoin(graph, inner.seen, a[1..], b);
        var rest := Visit(graph, inner.seen, a[1..]);
        var second := Visit(graph, rest.seen, b);
        assert [id] + inner.order + (rest.order + second.order) == ([id] + inner.order + rest.order) + second.order;
      }
    }
  }

  /** Every function is visited once, and only those that had not been seen. */
  ghost predicate Once(seen: set<nat>, ids: seq<nat>, r: Visited) {
    Distinct(r.order) && SetOf(r.order) !! seen && r.seen == seen + SetOf(r.order) && SetOf(ids) <= r.seen
  }

  lemma {:induction false} VisitOnce(graph: Graph, seen: set<nat>, ids: seq<nat>)
    requires WellFormed(graph) && Below(ids, |graph|) && seen <= Range(|graph|)
    ensures Once(seen, ids, Visit(graph, seen, ids))
    decreases |graph| - |seen|, |ids|
  {
    if ids == [] {
      assert SetOf(ids) == {};
    } else {
      hide Once, SetOf, Distinct;
      var id, tail := ids[0], ids[1..];
      if id in seen {
        VisitOnce(graph, seen, tail);
        OnceSeen(seen, ids, Visit(graph, seen, tail));
      } else {
        Room(seen + {id}, |graph|);
        VisitOnce(graph, seen + {id}, graph[id]);
        var inner := Visit(graph, seen + {id}, graph[id]);
        Larger(seen + {id}, inner.seen);
        Room(inner.seen, |graph|);
        VisitOnce(graph, inner.seen, tail);
        OnceJoin(seen, ids, graph[id], inner, Visit(graph, inner.seen, tail));
      }
    }
  }

  lemma OnceSeen(seen: set<nat>, ids: seq<nat>, r: Visited)
    requires ids != [] && ids[0] in seen && Once(seen, ids[1..], r)
    ensures Once(seen, ids, r)
  {
    assert ids == [ids[0]] + ids[1..];
  }

  lemma OnceJoin(seen: set<nat>, ids: seq<nat>, named: seq<nat>, inner: Visited, rest: Visited)
    requires ids != [] && ids[0] !in seen && Once(seen + {ids[0]}, named, inner) && Once(inner.seen, ids[1..], rest)
    ensures Once(seen, ids, Visited([ids[0]] + inner.order + rest.order, rest.seen))
  {
    var id, tail := ids[0], ids[1..];
    assert ids == [id] + tail;
    JoinSets([id], tail);
    JoinSets([id], inner.order);
    JoinSets([id] + inner.order, rest.order);
    assert SetOf([id]) == {id};
    hide SetOf;
    JoinDistinct([id], inner.order);
    JoinDistinct([id] + inner.order, rest.order);
  }

  lemma JoinSets(a: seq<nat>, b: seq<nat>)
    ensures SetOf(a + b) == SetOf(a) + SetOf(b)
  {
  }

  lemma JoinDistinct(a: seq<nat>, b: seq<nat>)
    requires Distinct(a) && Distinct(b) && SetOf(a) !! SetOf(b)
    ensures Distinct(a + b)
  {
    var all := a + b;
    forall i, j | 0 <= i < j < |all| ensures all[i] != all[j] {
      if i < |a| <= j {
        assert all[i] in SetOf(a) && all[j] in SetOf(b);
      }
    }
  }

  /** The preorder is a permutation of all functions. */
  lemma PreorderPermutes(graph: Graph)
    requires WellFormed(graph)
    ensures Distinct(Preorder(graph)) && SetOf(Preorder(graph)) == Range(|graph|)
  {
    hide Visit;
    VisitOnce(graph, {}, Roots(|graph|));
    forall id | id in Range(|graph|) ensures id in SetOf(Roots(|graph|)) {
      assert Roots(|graph|)[id] == id;
    }
  }

  // ----- the explicit stack -----

  function Reversed(s: seq<nat>): (r: seq<nat>)
    ensures |r| == |s| && forall k | 0 <= k < |s| :: r[k] == s[|s| - 1 - k]
  {
    seq(|s|, k requires 0 <= k < |s| => s[|s| - 1 - k])
  }

  ghost function Marked(seen: seq<bool>): (r: set<nat>)
    ensures r <= Range(|seen|)
  {
    set id | 0 <= id < |seen| && seen[id]
  }

  lemma Mark(seen: seq<bool>, id: nat)
    requires id < |seen|
    ensures Marked(seen[id := true]) == Marked(seen) + {id}
  {
  }

  /** What is left to do for a stack: the top is visited first. */
  ghost function Left(graph: Graph, seen: seq<bool>, pending: seq<nat>): Visited
    requires WellFormed(graph) && Below(pending, |graph|) && |seen| == |graph|
  {
    Visit(graph, Marked(seen), Reversed(pending))
  }

  lemma Skip(graph: Graph, seen: seq<bool>, pending: seq<nat>)
    requires WellFormed(graph) && Below(pending, |graph|) && |seen| == |graph| && pending != []
             && seen[pending[|pending| - 1]]
    ensures Left(graph, seen, pending) == Left(graph, seen, pending[..|pending| - 1])
  {
    assert Reversed(pending)[1..] == Reversed(pending[..|pending| - 1]);
  }

  lemma Push(graph: Graph, seen: seq<bool>, pending: seq<nat>)
    requires WellFormed(graph) && Below(pending, |graph|) && |seen| == |graph| && pending != []
             && !seen[pending[|pending| - 1]]
    ensures var id, rest := pending[|pending| - 1], pending[..|pending| - 1];
            var next := rest + Reversed(graph[id]);
            && Below(next, |graph|)
            && Left(graph, seen, pending).order == [id] + Left(graph, seen[id := true], next).order
            && Left(graph, seen, pending).seen == Left(graph, seen[id := true], next).seen
  {
    var id, rest := pending[|pending| - 1], pending[..|pending| - 1];
    var next := rest + Reversed(graph[id]);
    assert Below(next, |graph|);
    assert Reversed(pending)[0] == id && Reversed(pending)[1..] == Reversed(rest);
    assert Reversed(next) == graph[id] + Reversed(rest);
    Mark(seen, id);
    VisitJoin(graph, Marked(seen) + {id}, graph[id], Reversed(rest));
    var inner := Visit(graph, Marked(seen) + {id}, graph[id]);
    var last := Visit(graph, inner.seen, Reversed(rest));
    assert [id] + inner.order + last.order == [id] + (inner.order + last.order);
  }

  /** Visits everything that is reached from `root` and has not been seen. */
  method VisitRoot(graph: Graph, root: nat, seen: array<bool>, order: seq<nat>) returns (order': seq<nat>)
    requires WellFormed(graph) && root < |graph| && seen.Length == |graph|
    modifies seen
    ensures var r := Visit(graph, Marked(old(seen[..])), [root]);
            order' == order + r.order && Marked(seen[..]) == r.seen
  {
    hide Visit, Range;
    order' := order;
    var pending := [root];
    ghost var goal := Left(graph, seen[..], pending);
    assert Reversed([root]) == [root];
    while pending != []
      invariant Below(pending, |graph|)
      invariant order' + Left(graph, seen[..], pending).order == order + goal.order
      invariant Left(graph, seen[..], pending).seen == goal.seen
      decreases |graph| - |Marked(seen[..])|, |pending|
    {
      ghost var was := seen[..];
      Room(Marked(was), |graph|);
      var id := pending[|pending| - 1];
      if seen[id] {
        Skip(graph, was, pending);
        pending := pending[..|pending| - 1];
      } else {
        Push(graph, was, pending);
        Mark(was, id);
        Room(Marked(was) + {id}, |graph|);
        seen[id] := true;
        assert seen[..] == was[id := true];
        order' := order' + [id];
        pending := pending[..|pending| - 1] + Reversed(graph[id]);
      }
    }
    LeftNothing(graph, seen[..]);
  }

  lemma LeftNothing(graph: Graph, seen: seq<bool>)
    requires WellFormed(graph) && |seen| == |graph|
    ensures Left(graph, seen, []) == Visited([], Marked(seen))
  {
    assert Reversed([]) == [];
  }

  /** The iterative walk is the recursive preorder. */
  method Order(graph: Graph) returns (order: seq<nat>)
    requires WellFormed(graph)
    ensures order == Preorder(graph)
  {
    hide Visit;
    order := [];
    var seen := new bool[|graph|](_ => false);
    assert Marked(seen[..]) == {};
    VisitNothing(graph);
    for root := 0 to |graph|
      invariant Visit(graph, {}, Roots(root)) == Visited(order, Marked(seen[..]))
    {
      assert Roots(root + 1) == Roots(root) + [root];
      VisitJoin(graph, {}, Roots(root), [root]);
      order := VisitRoot(graph, root, seen, order);
    }
  }

  lemma VisitNothing(graph: Graph)
    requires WellFormed(graph)
    ensures Visit(graph, {}, Roots(0)) == Visited([], {})
  {
  }
}

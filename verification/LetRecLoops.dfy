/**
  The loops of closure lowering: the walk that finds what a function mutates, and the collection of
  the captures that a group shares. Each is proved to compute what lowering is specified with.
 */
module LetRecLoops {
  import opened LetRecSyntax
  import opened LetRecEval
  import opened LetRecLowering
  import opened LetRecRelation
  import opened LetRecEntry

  // ----- what a function mutates -----

  ghost function Size(e: Expr): nat
    decreases e, |Children(e)| + 1
  {
    1 + SizeUpTo(e, |Children(e)|)
  }

  ghost function SizeUpTo(e: Expr, k: nat): nat
    requires k <= |Children(e)|
    decreases e, k
  {
    if k == 0 then 0 else SizeUpTo(e, k - 1) + Size(Children(e)[k - 1])
  }

  ghost function SizeOf(pending: seq<Expr>): nat {
    if pending == [] then 0 else SizeOf(pending[..|pending| - 1]) + Size(pending[|pending| - 1])
  }

  lemma {:induction false} SizePush(pending: seq<Expr>, e: Expr, k: nat)
    requires k <= |Children(e)|
    ensures SizeOf(pending + Children(e)[..k]) == SizeOf(pending) + SizeUpTo(e, k)
    decreases k
  {
    hide Children;
    if k == 0 {
      assert pending + Children(e)[..0] == pending;
    } else {
      var all := pending + Children(e)[..k];
      assert all[..|all| - 1] == pending + Children(e)[..k - 1] && all[|all| - 1] == Children(e)[k - 1];
      SizePush(pending, e, k - 1);
    }
  }

  /** What the expressions still to be visited mutate. */
  ghost function MutatedBy(pending: seq<Expr>): set<nat> {
    set e, x | e in pending && x in MutatedIn(e) :: x
  }

  ghost predicate AnyGroup(pending: seq<Expr>) {
    exists e | e in pending :: HasGroup(e)
  }

  lemma AtNode(e: Expr)
    ensures MutatedIn(e) == NodeRoots(e) + MutatedBy(Children(e))
    ensures HasGroup(e) <==> IsRecursive(e) || AnyGroup(Children(e))
  {
    hide Children, NodeRoots;
  }

  lemma Joined(a: seq<Expr>, b: seq<Expr>)
    ensures MutatedBy(a + b) == MutatedBy(a) + MutatedBy(b)
    ensures AnyGroup(a + b) <==> AnyGroup(a) || AnyGroup(b)
  {
    hide MutatedIn, HasGroup;
    var all := a + b;
    assert forall e :: e in all <==> e in a || e in b;
  }

  lemma Single(e: Expr)
    ensures MutatedBy([e]) == MutatedIn(e)
    ensures AnyGroup([e]) <==> HasGroup(e)
  {
    hide MutatedIn, HasGroup;
    assert e in [e];
  }

  lemma Visit(pending: seq<Expr>, e: Expr)
    ensures MutatedBy(pending + [e]) == MutatedBy(pending + Children(e)) + NodeRoots(e)
    ensures AnyGroup(pending + [e]) <==> AnyGroup(pending + Children(e)) || IsRecursive(e)
  {
    hide MutatedBy, AnyGroup, MutatedIn, HasGroup, Children, NodeRoots;
    Joined(pending, [e]);
    Joined(pending, Children(e));
    Single(e);
    AtNode(e);
  }

  /** The local at the root of a place, by following the place inwards. */
  method RootOf(target: Expr) returns (root: set<nat>)
    ensures root == Root(target)
  {
    var place := target;
    root := {};
    while true
      invariant root == {} && Root(place) == Root(target)
      decreases place
    {
      match place {
        case Var(id, _) => { root := {id}; break; }
        case Deref(inner) => place := inner;
        case Borrow(inner, _) => place := inner;
        case _ => break;
      }
    }
  }

  /** The worklist over all expressions of the body: nothing counts as mutated unless there is a group. */
  method Mutated(body: Expr) returns (mutated: set<nat>)
    ensures mutated == if HasGroup(body) then MutatedIn(body) else {}
  {
    hide MutatedBy, AnyGroup, MutatedIn, HasGroup, Children, Size, Root;
    mutated := {};
    var recursive := false;
    var pending := [body];
    Single(body);
    while pending != []
      invariant mutated + MutatedBy(pending) == MutatedIn(body)
      invariant recursive || AnyGroup(pending) <==> HasGroup(body)
      decreases SizeOf(pending)
    {
      var last := |pending| - 1;
      var e := pending[last];
      var rest := pending[..last];
      assert pending == rest + [e];
      var roots: set<nat> := {};
      match e {
        case Assign(target, _) => roots := RootOf(target);
        case Borrow(target, true) => roots := RootOf(target);
        case Lambda(_, _, _, group, _) => recursive := recursive || group != [];
        case _ =>
      }
      assert roots == NodeRoots(e);
      mutated := mutated + roots;
      Visit(rest, e);
      Smaller(rest, e);
      pending := rest + Children(e);
    }
    Nothing();
    if !recursive {
      mutated := {};
    }
  }

  lemma Nothing()
    ensures MutatedBy([]) == {} && !AnyGroup([])
  {
  }

  lemma Smaller(pending: seq<Expr>, e: Expr)
    ensures SizeOf(pending + Children(e)) < SizeOf(pending + [e])
  {
    hide Children;
    SizePush(pending, e, |Children(e)|);
    assert Children(e)[..|Children(e)|] == Children(e);
    assert (pending + [e])[..|pending|] == pending;
  }

  // ----- the captures that a group shares -----

  lemma OutsideNext(members: seq<Binding>, m: nat, group: set<nat>)
    requires m < |members| && forall k | 0 <= k < |members| :: members[k].value.Lambda?
    ensures CapturesOutside(members[..m + 1], group)
            == CapturesOutside(members[..m], group) + Without(members[m].value.captures, group)
  {
    assert members[..m + 1][..m] == members[..m];
  }

  lemma WithoutNext(locals: seq<Local>, k: nat, group: set<nat>)
    requires k < |locals|
    ensures Without(locals[..k + 1], group)
            == if locals[k].id in group then Without(locals[..k], group) else Without(locals[..k], group) + [locals[k]]
  {
    assert locals[..k + 1][..k] == locals[..k];
  }

  lemma SharedNext(captures: seq<Local>, capture: Local, callable: map<nat, RecursiveFunction>)
    ensures Shared(captures + [capture], callable)
            == if capture.id in callable
              then OrInsertAll(Shared(captures, callable), CapturedLocals(callable[capture.id].captures))
               else OrInsert(Shared(captures, callable), capture)
  {
    assert (captures + [capture])[..|captures|] == captures;
  }

  /** The captures of every function that is taken over, inserted one after the other. */
  method InsertAll(shared: seq<Local>, captures: seq<Captured>) returns (r: seq<Local>)
    ensures r == OrInsertAll(shared, CapturedLocals(captures))
  {
    r := shared;
    ghost var locals := CapturedLocals(captures);
    for k := 0 to |captures|
      invariant r == OrInsertAll(shared, locals[..k])
    {
      assert locals[..k + 1][..k] == locals[..k];
      r := OrInsert(r, captures[k].local);
    }
    assert locals[..|captures|] == locals;
  }

  lemma TakenOverNext(captures: seq<Local>, capture: Local, callable: map<nat, RecursiveFunction>)
    ensures TakenOver(captures + [capture], callable).Keys
            == TakenOver(captures, callable).Keys + (if capture.id in callable then {capture.id} else {})
  {
    IdSetAppend(captures, capture);
  }

  /** What has been collected from the captures `seen`. */
  ghost predicate Collected(
    seen: seq<Local>, callable: map<nat, RecursiveFunction>, group: set<nat>, shared: seq<Local>, direct: set<nat>)
  {
    shared == Shared(seen, callable) && direct == group + TakenOver(seen, callable).Keys
  }

  /** One capture of a member that is not a name of the group. */
  method CollectOne(
    capture: Local, callable: map<nat, RecursiveFunction>, shared: seq<Local>, direct: set<nat>, ghost seen: seq<Local>,
    ghost group: set<nat>)
    returns (shared': seq<Local>, direct': set<nat>)
    requires Collected(seen, callable, group, shared, direct)
    ensures Collected(seen + [capture], callable, group, shared', direct')
  {
    hide Shared, TakenOver;
    SharedNext(seen, capture, callable);
    TakenOverNext(seen, capture, callable);
    shared', direct' := shared, direct;
    if capture.id in callable {
      direct' := direct' + {capture.id};
      shared' := InsertAll(shared, callable[capture.id].captures);
    } else {
      shared' := OrInsert(shared, capture);
    }
  }

  /** The captures of one member. */
  method CollectMember(
    captures: seq<Local>, group: set<nat>, callable: map<nat, RecursiveFunction>, shared: seq<Local>, direct: set<nat>,
    ghost seen: seq<Local>)
    returns (shared': seq<Local>, direct': set<nat>)
    requires Collected(seen, callable, group, shared, direct)
    ensures Collected(seen + Without(captures, group), callable, group, shared', direct')
  {
    hide Collected;
    shared', direct' := shared, direct;
    assert seen + Without(captures[..0], group) == seen;
    for k := 0 to |captures|
      invariant Collected(seen + Without(captures[..k], group), callable, group, shared', direct')
    {
      WithoutNext(captures, k, group);
      if captures[k].id !in group {
        ghost var now := seen + Without(captures[..k], group);
        shared', direct' := CollectOne(captures[k], callable, shared', direct', now, group);
        assert now + [captures[k]] == seen + Without(captures[..k + 1], group);
      }
    }
    assert captures[..|captures|] == captures;
  }

  /** The captures that the lifted functions of a group share, and the functions that it calls directly. */
  method Collect(members: seq<Binding>, st: State) returns (captured: seq<Captured>, direct: set<nat>)
    requires forall k | 0 <= k < |members| :: members[k].value.Lambda?
    ensures captured == NewCaptures(Shared(GroupCaptures(members), Callable(st)))
    ensures direct == BoundIds(members) + TakenOver(GroupCaptures(members), Callable(st)).Keys
  {
    var group := BoundIds(members);
    var callable := Callable(st);
    var shared: seq<Local> := [];
    direct := group;
    assert CapturesOutside(members[..0], group) == [];
    assert TakenOver([], callable) == map[];
    hide Callable, Shared, TakenOver;
    for m := 0 to |members|
      invariant Collected(CapturesOutside(members[..m], group), callable, group, shared, direct)
    {
      OutsideNext(members, m, group);
      shared, direct := CollectMember(members[m].value.captures, group, callable, shared, direct,
                                      CapturesOutside(members[..m], group));
    }
    assert members[..|members|] == members;
    captured := NewCaptures(shared);
  }

  /** Taken together, they are what the group is lifted with. */
  lemma CollectedGroup(members: seq<Binding>, st: State, first: nat)
    requires (forall k | 0 <= k < |members| :: members[k].value.Lambda?) && DistinctNames(members)
    ensures var g := GroupOf(members, first, Callable(st), st.frame.id, st.unit);
            && g.captured == NewCaptures(Shared(GroupCaptures(members), Callable(st)))
            && g.direct.Keys == BoundIds(members) + TakenOver(GroupCaptures(members), Callable(st)).Keys
  {
    var captures := GroupCaptures(members);
    var captured := NewCaptures(Shared(captures, Callable(st)));
    BindEachAt(TakenOver(captures, Callable(st)), members, LiftedFunctions(|members|, first, captured, st.frame.id));
  }

  // ----- rewriting visits what it has inserted -----

  lemma {:induction false} NoTypeOfItself(ty: Ty)
    ensures Reference(ty, false) != ty
    decreases ty
  {
    if ty.Reference? {
      NoTypeOfItself(ty.inner);
    }
  }

  /** The walk goes on into what it has inserted. That changes nothing: the captures that a direct call
      passes on and the reference that a borrowed local is read through stay as they are. */
  lemma InsertedStays(g: Group, taken: set<nat>, x: nat, ty: Ty)
    requires GroupOk(g, taken)
    ensures x in g.direct ==>
              forall k | 0 <= k < |g.direct[x].captures| ::
                Rewrite(g.direct, BorrowedMap(g.captured), InBody(g.direct[x].captures[k]))
                == InBody(g.direct[x].captures[k])
    ensures x !in g.direct && x in BorrowedMap(g.captured) && BorrowedMap(g.captured)[x] == ty ==>
              Rewrite(g.direct, BorrowedMap(g.captured), Var(x, Reference(ty, false))) == Var(x, Reference(ty, false))
  {
    hide Scoped, OnlyMutates;
    var borrowed := BorrowedMap(g.captured);
    NoTypeOfItself(ty);
    if x in g.direct {
      assert CallableOk(g.unit, GroupCtx(g), taken + BoundIds(g.members), x);
      var cs := g.direct[x].captures;
      forall k | 0 <= k < |cs| ensures Rewrite(g.direct, borrowed, InBody(cs[k])) == InBody(cs[k]) {
        assert CapturedOk(g.unit, cs[k]) && cs[k].local.id !in g.direct;
        NoTypeOfItself(cs[k].local.ty);
      }
    }
  }
}

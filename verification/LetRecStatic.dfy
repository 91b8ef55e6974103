/**
  What lowering knows while it walks a function: the functions that can be called directly, and what
  a group is lifted to.
 */
module LetRecStatic {
  import opened LetRecSyntax
  import opened LetRecEval
  import opened LetRecLowering
  import opened LetRecRelation
  import opened LetRecEntry
  import opened LetRecBinding
  import opened LetRecGrowth

  // ----- what lowering knows -----

  /** What is known of the functions that can be called directly. */
  ghost predicate CallOk(unit: Unit, callable: map<nat, RecursiveFunction>, taken: set<nat>) {
    forall x | x in callable :: x in taken && CapturesOk(unit, callable, taken, callable[x].captures)
  }

  ghost predicate CapturesOk(unit: Unit, callable: map<nat, RecursiveFunction>, taken: set<nat>, cs: seq<Captured>) {
    forall k | 0 <= k < |cs| :: CapturedOk(unit, cs[k]) && cs[k].local.id in taken && cs[k].local.id !in callable
  }

  /** Among the names in scope, `callable` is what the lowering state offers to a group. */
  ghost predicate Knows(st: State, callable: map<nat, RecursiveFunction>, scope: set<nat>) {
    forall x | x in scope ::
      (x in Callable(st) <==> x in callable) && (x in callable ==> Callable(st)[x] == callable[x])
  }

  ghost predicate Static(st: State, callable: map<nat, RecursiveFunction>, taken: set<nat>, scope: set<nat>) {
    && BoundBefore(st)
    && CallOk(st.unit, callable, taken)
    && Knows(st, callable, scope)
    && scope <= taken
    && callable.Keys <= scope
    && st.frame.direct <= taken
  }

  lemma StaticGrows(
    st: State, st1: State, callable: map<nat, RecursiveFunction>, taken: set<nat>, scope: set<nat>, n: nat)
    requires Static(st, callable, taken, scope) && Grown(st, st1, taken, n)
    ensures Static(st1, callable, taken, scope)
  {
  }

  /** `F` has the functions from `from` on. */
  ghost predicate Agree(F: seq<Fun>, functions: seq<Fun>, from: nat) {
    |functions| <= |F| && forall k | from <= k < |functions| :: F[k] == functions[k]
  }

  lemma AgreeParts(F: seq<Fun>, st: State, st1: State, st2: State, taken: set<nat>)
    requires |st.functions| <= |st1.functions| && Grown(st1, st2, taken, |st1.functions|)
    requires Agree(F, st2.functions, |st.functions|)
    ensures Agree(F, st1.functions, |st.functions|) && Agree(F, st2.functions, |st1.functions|)
  {
  }

  /** The functions from `from` up to `to` were made from the source. */
  ghost predicate NewOk(P: seq<Fun>, F: seq<Fun>, from: nat, to: nat) {
    to <= |F| && forall fid | from <= fid < to :: FunOk(P, F, fid)
  }

  function PlainCtx(callable: map<nat, RecursiveFunction>): Ctx {
    Ctx(callable, map[], map[])
  }

  /** Everything that is needed to lower `e` in the state `st`. */
  ghost predicate Lowerable(
    P: seq<Fun>, e: Expr, st: State, callable: map<nat, RecursiveFunction>, taken: set<nat>, scope: set<nat>,
    own: set<nat>)
  {
    && Scoped(st.unit, taken, scope, own, e)
    && OnlyMutates(st.unit.mutated, e)
    && (HasGroup(e) ==> st.mutated == st.unit.mutated)
    && Static(st, callable, taken, scope)
    && st.unit.count == |P| <= |st.functions|
    && Unseen(st, e)
  }

  /** No local that `e` binds has been bound before. */
  ghost predicate Unseen(st: State, e: Expr) {
    UniqueIds(e) && st.recursive.Keys !! Binders(e)
  }

  lemma ChildLowerable(
    P: seq<Fun>, e: Expr, c: Expr, st: State, callable: map<nat, RecursiveFunction>, taken: set<nat>, scope: set<nat>,
    own: set<nat>)
    requires Lowerable(P, e, st, callable, taken, scope, own) && c in Children(e)
             && Scoped(st.unit, taken, scope, own, c)
    ensures Lowerable(P, c, st, callable, taken, scope, own)
  {
    ChildBinders(e, c);
  }

  lemma LaterLowerable(
    P: seq<Fun>, e: Expr, st: State, st1: State, callable: map<nat, RecursiveFunction>, taken: set<nat>,
    scope: set<nat>,
    own: set<nat>, more: set<nat>)
    requires Lowerable(P, e, st, callable, taken, scope, own) && Grown(st, st1, taken, |st.functions|)
    requires Registers(st, st1, more) && more !! Binders(e)
    ensures Lowerable(P, e, st1, callable, taken, scope, own)
  {
    StaticGrows(st, st1, callable, taken, scope, |st.functions|);
  }

  lemma LowerableGrows(
    P: seq<Fun>, e: Expr, st: State, callable: map<nat, RecursiveFunction>, taken: set<nat>, scope: set<nat>,
    own: set<nat>)
    requires Lowerable(P, e, st, callable, taken, scope, own)
    ensures Lowers(LowerExpr(e, st), st, taken) && |st.functions| <= |LowerExpr(e, st).state.functions|
    ensures Registers(st, LowerExpr(e, st).state, Binders(e))
  {
    LowerGrows(e, st, taken, scope, own);
    LowerRegisters(e, st);
  }

  // ----- a group that is bound here -----

  ghost predicate AgreeOn(a: map<nat, RecursiveFunction>, b: map<nat, RecursiveFunction>, ids: set<nat>) {
    forall x | x in ids :: (x in a <==> x in b) && (x in a ==> a[x] == b[x])
  }

  lemma {:induction false} SharedAgrees(
    captures: seq<Local>, a: map<nat, RecursiveFunction>, b: map<nat, RecursiveFunction>)
    requires AgreeOn(a, b, IdSet(captures))
    ensures Shared(captures, a) == Shared(captures, b)
  {
    if captures != [] {
      var front, last := captures[..|captures| - 1], captures[|captures| - 1];
      assert captures == front + [last];
      IdSetAppend(front, last);
      SharedAgrees(front, a, b);
    }
  }

  /** What a group is lifted to depends only on what is known of its captures. */
  lemma GroupAgrees(
    members: seq<Binding>, first: nat, a: map<nat, RecursiveFunction>, b: map<nat, RecursiveFunction>, boundIn: nat,
    unit: Unit)
    requires forall k | 0 <= k < |members| :: members[k].value.Lambda?
    requires AgreeOn(a, b, IdSet(GroupCaptures(members)))
    ensures GroupOf(members, first, a, boundIn, unit) == GroupOf(members, first, b, boundIn, unit)
  {
    var captures := GroupCaptures(members);
    SharedAgrees(captures, a, b);
    assert TakenOver(captures, a) == TakenOver(captures, b);
  }

  /** The group `g` is bound where `callable` is known. */
  ghost predicate GroupAt(g: Group, callable: map<nat, RecursiveFunction>, taken: set<nat>, scope: set<nat>) {
    && (forall k | 0 <= k < |g.members| :: g.members[k].value.Lambda?)
    && g == GroupOf(g.members, g.first, callable, g.boundIn, g.unit)
    && GroupHeader(g.unit, taken, scope, g.members)
    && CallOk(g.unit, callable, taken)
    && scope <= taken
  }

  /** The captures that a group passes on are plain locals. */
  lemma CapturedStatic(g: Group, callable: map<nat, RecursiveFunction>, taken: set<nat>, scope: set<nat>, q: nat)
    requires GroupAt(g, callable, taken, scope) && q < |g.captured|
    ensures CapturedOk(g.unit, g.captured[q])
    ensures var x := g.captured[q].local.id; x in taken && x !in callable && x !in BoundIds(g.members)
  {
    var captures := GroupCaptures(g.members);
    SharedFrom(captures, callable);
    NamesFresh(g.unit, taken, scope, g.members);
    var local := Shared(captures, callable)[q];
    assert g.captured[q] == NewCaptured(local);
    assert SharedBy(captures, callable, local);
    if local in captures && local.id !in callable {
    } else {
      var k :| 0 <= k < |captures| && captures[k].id in callable
        && local in CapturedLocals(callable[captures[k].id].captures);
      var cs := callable[captures[k].id].captures;
      assert CapturesOk(g.unit, callable, taken, cs);
      var m :| 0 <= m < |cs| && CapturedLocals(cs)[m] == local;
      assert cs[m].local == local;
    }
  }

  lemma CapturedDistinct(g: Group, callable: map<nat, RecursiveFunction>, taken: set<nat>, scope: set<nat>)
    requires GroupAt(g, callable, taken, scope)
    ensures DistinctIds(CapturedLocals(g.captured))
  {
    SharedFrom(GroupCaptures(g.members), callable);
  }

  /** What the group calls directly: its own members, and callable captures. */
  lemma DirectStatic(g: Group, callable: map<nat, RecursiveFunction>, taken: set<nat>, scope: set<nat>, x: nat)
    requires GroupAt(g, callable, taken, scope) && x in g.direct
    ensures x in BoundIds(g.members) ==> g.direct[x].captures == g.captured
    ensures x !in BoundIds(g.members) ==>
              x in IdSet(GroupCaptures(g.members)) && x in callable && g.direct[x] == callable[x] && x in taken
  {
    DirectOf(g.members, g.first, callable, g.boundIn, g.unit);
    if x in BoundIds(g.members) {
      var j :| 0 <= j < |g.members| && g.members[j].local.id == x;
    } else {
      assert x in taken;
    }
  }

  lemma OffersDirect(g: Group, callable: map<nat, RecursiveFunction>, taken: set<nat>, scope: set<nat>, x: nat)
    requires GroupAt(g, callable, taken, scope) && x in g.direct
    ensures Offers(g.captured, g.direct[x].captures)
  {
    DirectStatic(g, callable, taken, scope, x);
    var cs := g.direct[x].captures;
    if x !in BoundIds(g.members) {
      var captures := GroupCaptures(g.members);
      var k :| 0 <= k < |captures| && captures[k].id == x;
      SharedHas(captures, callable, k);
      forall m | 0 <= m < |cs| ensures Position(g.captured, cs[m].local.id) < |g.captured| {
        assert CapturedLocals(cs)[m].id in IdSet(CapturedLocals(cs));
        SharedPosition(captures, callable, cs[m].local.id);
      }
    }
  }

  lemma DirectCapture(g: Group, callable: map<nat, RecursiveFunction>, taken: set<nat>, scope: set<nat>, x: nat, k: nat)
    requires GroupAt(g, callable, taken, scope) && x in g.direct && k < |g.direct[x].captures|
    ensures var c := g.direct[x].captures[k];
            && CapturedOk(g.unit, c) && c.local.id in taken && c.local.id !in g.direct
            && (c.borrowed ==> c.local.id in BorrowedMap(g.captured))
  {
    var c := g.direct[x].captures[k];
    DirectStatic(g, callable, taken, scope, x);
    if x in BoundIds(g.members) {
      CapturedStatic(g, callable, taken, scope, k);
    } else {
      assert CapturesOk(g.unit, callable, taken, callable[x].captures);
      NamesFresh(g.unit, taken, scope, g.members);
    }
    if c.local.id in g.direct {
      DirectStatic(g, callable, taken, scope, c.local.id);
    }
    OffersDirect(g, callable, taken, scope, x);
    var p := Position(g.captured, c.local.id);
    CapturedStatic(g, callable, taken, scope, p);
    CapturedDistinct(g, callable, taken, scope);
    BorrowedIs(g.captured, p);
  }

  lemma GroupCtxOk(g: Group, callable: map<nat, RecursiveFunction>, taken: set<nat>, scope: set<nat>)
    requires GroupAt(g, callable, taken, scope)
    ensures CtxOk(g.unit, GroupCtx(g), taken + BoundIds(g.members), {})
  {
    hide GroupAt;
    var ctx, all := GroupCtx(g), taken + BoundIds(g.members);
    forall x | x in ctx.callable ensures x in all && CallableOk(g.unit, ctx, all, x) {
      DirectStatic(g, callable, taken, scope, x);
      var captures := ctx.callable[x].captures;
      forall k | 0 <= k < |captures|
        ensures CapturedOk(g.unit, captures[k]) && captures[k].local.id in all && captures[k].local.id !in ctx.callable
        ensures captures[k].borrowed ==> captures[k].local.id in ctx.borrowed
      {
        DirectCapture(g, callable, taken, scope, x, k);
      }
    }
    forall x | x in ctx.borrowed
      ensures x in all && x in g.unit.types && g.unit.types[x] == ctx.borrowed[x] && !ctx.borrowed[x].Cheap()
    {
      BorrowedFrom(g.captured, x);
      var p :| 0 <= p < |g.captured| && g.captured[p].borrowed && g.captured[p].local.id == x;
      CapturedStatic(g, callable, taken, scope, p);
      CapturedDistinct(g, callable, taken, scope);
      BorrowedIs(g.captured, p);
    }
  }

  lemma GroupIsOk(g: Group, callable: map<nat, RecursiveFunction>, taken: set<nat>, scope: set<nat>)
    requires GroupAt(g, callable, taken, scope)
    requires forall j | 0 <= j < |g.members| ::
             MemberScoped(g, j, taken) && OnlyMutates(g.unit.mutated, g.members[j].value.body)
    ensures GroupOk(g, taken)
  {
    hide Scoped, OnlyMutates, CtxOk, GroupOf;
    GroupCtxOk(g, callable, taken, scope);
    CapturedDistinct(g, callable, taken, scope);
    DirectOf(g.members, g.first, callable, g.boundIn, g.unit);
    forall k | 0 <= k < |g.captured| ensures CapturedOk(g.unit, g.captured[k]) && g.captured[k].local.id in taken {
      CapturedStatic(g, callable, taken, scope, k);
    }
    forall x | x in g.direct
      ensures Offers(g.captured, g.direct[x].captures)
              && (x in BoundIds(g.members) || x in IdSet(GroupCaptures(g.members)))
    {
      DirectStatic(g, callable, taken, scope, x);
      OffersDirect(g, callable, taken, scope, x);
    }
    forall k | 0 <= k < |GroupCaptures(g.members)|
      ensures var x := GroupCaptures(g.members)[k].id;
              x in taken && (x !in g.direct ==> Position(g.captured, x) < |g.captured|)
    {
      CaptureOffered(g, callable, taken, scope, k);
    }
    forall j | 0 <= j < |g.members| ensures MemberOk(g, taken, j) {
      assert MemberScoped(g, j, taken);
    }
  }

  lemma CaptureOffered(g: Group, callable: map<nat, RecursiveFunction>, taken: set<nat>, scope: set<nat>, k: nat)
    requires GroupAt(g, callable, taken, scope) && k < |GroupCaptures(g.members)|
    ensures var x := GroupCaptures(g.members)[k].id;
            x in taken && (x !in g.direct ==> Position(g.captured, x) < |g.captured|)
  {
    var captures := GroupCaptures(g.members);
    var x := captures[k].id;
    assert x in IdSet(captures);
    DirectOf(g.members, g.first, callable, g.boundIn, g.unit);
    if x !in g.direct {
      SharedHas(captures, callable, k);
      SharedPosition(captures, callable, x);
    }
  }

  // ----- the frame of a member -----

  /** What the group calls directly is registered. */
  ghost predicate DirectKnown(st: State, g: Group) {
    forall x | x in g.direct :: x in st.recursive && st.recursive[x] == g.direct[x]
  }

  lemma DirectKnownGrows(st: State, st1: State, g: Group, taken: set<nat>, n: nat)
    requires DirectKnown(st, g) && Grown(st, st1, taken, n) && g.direct.Keys <= taken
    ensures DirectKnown(st1, g)
  {
  }

  lemma DirectMapKnown(st: State, g: Group)
    requires DirectKnown(st, g)
    ensures DirectMap(st.recursive, g.direct.Keys) == g.direct
  {
  }

  lemma ReserveKnows(st: State, g: Group, callable: map<nat, RecursiveFunction>, taken: set<nat>, scope: set<nat>)
    requires GroupAt(g, callable, taken, scope) && Static(st, callable, taken, scope) && g.boundIn == st.frame.id
    ensures DirectKnown(Reserve(st, g), g) && g.direct.Keys <= taken + BoundIds(g.members)
  {
    DirectOf(g.members, g.first, callable, g.boundIn, g.unit);
    BindEachAt(st.recursive, g.members, LiftedFunctions(|g.members|, g.first, g.captured, st.frame.id));
    forall x | x in g.direct
      ensures x in Reserve(st, g).recursive && Reserve(st, g).recursive[x] == g.direct[x]
      ensures x in taken + BoundIds(g.members)
    {
      DirectStatic(g, callable, taken, scope, x);
      if x in BoundIds(g.members) {
        var j :| 0 <= j < |g.members| && g.members[j].local.id == x;
      } else {
        assert x in Callable(st);
      }
    }
  }

  /** Inside a member, what can be called directly is what the group calls directly. */
  lemma EnterMember(st: State, g: Group, taken: set<nat>, j: nat)
    requires BoundBefore(st) && DirectKnown(st, g) && GroupOk(g, taken) && st.unit == g.unit && j < |g.members|
    ensures var parameters := IdSet(g.members[j].value.parameters);
            Static(EnterFrame(st, g.direct.Keys), g.direct, taken + BoundIds(g.members) + parameters,
                   IdSet(GroupCaptures(g.members)) + BoundIds(g.members) + parameters)
  {
    hide Scoped, OnlyMutates, GroupOf;
    var names, parameters := BoundIds(g.members), IdSet(g.members[j].value.parameters);
    var inside := EnterFrame(st, g.direct.Keys);
    assert IdSet(GroupCaptures(g.members)) <= taken;
    assert MemberOk(g, taken, j);
    forall x | x in g.direct
      ensures x in taken + names && CapturesOk(g.unit, g.direct, taken + names + parameters, g.direct[x].captures)
    {
      assert CallableOk(g.unit, GroupCtx(g), taken + names, x);
    }
    forall x: nat ensures x in Callable(inside) <==> x in g.direct {
      assert x in Callable(inside) ==> x in st.recursive;
    }
  }

  // ----- after a group -----

  lemma AfterGroupStatic(
    st: State, st1: State, g: Group, callable: map<nat, RecursiveFunction>, taken: set<nat>, scope: set<nat>, n: nat)
    requires Static(st, callable, taken, scope) && GroupAt(g, callable, taken, scope)
    requires g.unit == st.unit && g.boundIn == st.frame.id && st.mutated == st.unit.mutated
    requires Grown(Reserve(st, g), st1, taken + BoundIds(g.members), n)
    ensures AfterGroup(PlainCtx(callable), g) == PlainCtx(AfterGroup(PlainCtx(callable), g).callable)
    ensures Static(st1, AfterGroup(PlainCtx(callable), g).callable, taken + BoundIds(g.members),
                   scope + BoundIds(g.members))
  {
    hide GroupOf;
    var names := BoundIds(g.members);
    var callable' := AfterGroup(PlainCtx(callable), g).callable;
    AfterGroupCalls(g, callable, taken, scope);
    assert st1.frame == st.frame;
    forall x | x in scope + names
      ensures (x in Callable(st1) <==> x in callable') && (x in callable' ==> Callable(st1)[x] == callable'[x])
    {
      AfterGroupKnows(st, st1, g, callable, taken, scope, n, x);
    }
  }

  lemma AfterGroupCalls(g: Group, callable: map<nat, RecursiveFunction>, taken: set<nat>, scope: set<nat>)
    requires GroupAt(g, callable, taken, scope) && callable.Keys <= scope
    ensures var callable' := AfterGroup(PlainCtx(callable), g).callable;
            CallOk(g.unit, callable', taken + BoundIds(g.members)) && callable'.Keys <= scope + BoundIds(g.members)
  {
    var names := BoundIds(g.members);
    var callable' := AfterGroup(PlainCtx(callable), g).callable;
    NamesFresh(g.unit, taken, scope, g.members);
    BindEachAt(callable, g.members, LiftedFunctions(|g.members|, g.first, g.captured, g.boundIn));
    forall x | x in callable'
      ensures x in taken + names && CapturesOk(g.unit, callable', taken + names, callable'[x].captures)
    {
      if x in names && callable' != callable {
        var j :| 0 <= j < |g.members| && g.members[j].local.id == x;
        forall q | 0 <= q < |g.captured|
          ensures CapturedOk(g.unit, g.captured[q]) && g.captured[q].local.id in taken
                  && g.captured[q].local.id !in callable'
        {
          CapturedStatic(g, callable, taken, scope, q);
        }
      } else {
        assert CapturesOk(g.unit, callable, taken, callable[x].captures);
      }
    }
  }

  lemma AfterGroupKnows(
    st: State, st1: State, g: Group, callable: map<nat, RecursiveFunction>, taken: set<nat>, scope: set<nat>, n: nat,
    x: nat)
    requires Static(st, callable, taken, scope) && GroupAt(g, callable, taken, scope)
    requires g.unit == st.unit && g.boundIn == st.frame.id && st.mutated == st.unit.mutated
    requires Grown(Reserve(st, g), st1, taken + BoundIds(g.members), n)
    requires x in scope + BoundIds(g.members)
    ensures var callable' := AfterGroup(PlainCtx(callable), g).callable;
            (x in Callable(st1) <==> x in callable') && (x in callable' ==> Callable(st1)[x] == callable'[x])
  {
    hide GroupOf, CallOk, BindEach, Capturable, Fresh;
    NamesFresh(g.unit, taken, scope, g.members);
    var lifted := LiftedFunctions(|g.members|, g.first, g.captured, st.frame.id);
    BindEachAt(st.recursive, g.members, lifted);
    BindEachAt(callable, g.members, lifted);
    assert x in st1.recursive <==> x in Reserve(st, g).recursive;
    if x in BoundIds(g.members) {
      var j :| 0 <= j < |g.members| && g.members[j].local.id == x;
      assert x !in scope && x !in st.frame.direct;
    } else {
      assert x in Callable(st1) <==> x in Callable(st);
    }
  }

  /** A name that is not registered is no function that can be called directly. */
  lemma PlainStatic(st: State, callable: map<nat, RecursiveFunction>, taken: set<nat>, scope: set<nat>, x: nat)
    requires Static(st, callable, taken, scope) && x !in taken && x !in st.recursive
    ensures Static(st, callable, taken + {x}, scope + {x})
  {
    forall y | y in callable ensures CapturesOk(st.unit, callable, taken + {x}, callable[y].captures) {
      assert CapturesOk(st.unit, callable, taken, callable[y].captures);
    }
  }

  // ----- rewriting -----

  /** Rewriting turns what stands for `e` in a plain frame into what stands for it in a member's frame. */
  lemma {:induction false} RewriteSound(
    F: seq<Fun>, unit: Unit, callable: map<nat, RecursiveFunction>, ctx: Ctx, e: Expr, t: Expr)
    requires Rel(F, unit, PlainCtx(callable), e, t) && ctx.callable == callable
    ensures Rel(F, unit, ctx, e, Rewrite(ctx.direct, ctx.borrowed, t))
    decreases e, 1
  {
    match e
    case Literal(_) =>
    case Var(_, _) =>
    case FunctionRef(_) =>
    case Binary(_, left, right) =>
      RewriteSound(F, unit, callable, ctx, left, t.left);
      RewriteSound(F, unit, callable, ctx, right, t.right);
    case Pipe(argument, piped) =>
      RewriteSound(F, unit, callable, ctx, argument, t.argument);
      RewriteSound(F, unit, callable, ctx, piped, t.piped);
      RewriteKeepsVar(F, unit, callable, piped, t.piped);
    case Call(callee, arguments) =>
      RewriteSound(F, unit, callable, ctx, callee, t.callee);
      RewriteAllSound(F, unit, callable, ctx, arguments, t.arguments);
      RewriteKeepsVar(F, unit, callable, callee, t.callee);
      if CallsDirectly(ctx.direct, callee) {
        var f := ctx.direct[callee.id];
        var r := Rewrite(ctx.direct, ctx.borrowed, t);
        assert r.arguments[|f.captures|..] == RewriteAll(ctx.direct, ctx.borrowed, t.arguments);
      }
    case If(condition, thenBranch, elseBranch) =>
      RewriteSound(F, unit, callable, ctx, condition, t.condition);
      RewriteSound(F, unit, callable, ctx, thenBranch, t.thenBranch);
      RewriteSound(F, unit, callable, ctx, elseBranch, t.elseBranch);
    case Lambda(_, _, _, _, _) =>
    case Closure(_, _, _) => assert false;
    case Block(_, _) => RewriteBlockSound(F, unit, callable, ctx, e, t, 0);
    case Assign(target, newValue) =>
      RewriteSound(F, unit, callable, ctx, target, t.target);
      RewriteSound(F, unit, callable, ctx, newValue, t.newValue);
    case Borrow(place, _) => RewriteSound(F, unit, callable, ctx, place, t.place);
    case Deref(reference) => RewriteSound(F, unit, callable, ctx, reference, t.reference);
  }

  /** In a plain frame a local stands for itself, and nothing else stands for one. */
  lemma RewriteKeepsVar(F: seq<Fun>, unit: Unit, callable: map<nat, RecursiveFunction>, e: Expr, t: Expr)
    requires Rel(F, unit, PlainCtx(callable), e, t)
    ensures e.Var? ==> t == e
    ensures t.Var? ==> e == t
  {
  }

  lemma {:induction false} RewriteAllSound(
    F: seq<Fun>, unit: Unit, callable: map<nat, RecursiveFunction>, ctx: Ctx, es: seq<Expr>, ts: seq<Expr>)
    requires RelAll(F, unit, PlainCtx(callable), es, ts) && ctx.callable == callable
    ensures RelAll(F, unit, ctx, es, RewriteAll(ctx.direct, ctx.borrowed, ts))
    decreases es
  {
    if es != [] {
      RewriteSound(F, unit, callable, ctx, es[0], ts[0]);
      RewriteAllSound(F, unit, callable, ctx, es[1..], ts[1..]);
      assert RewriteAll(ctx.direct, ctx.borrowed, ts)[1..] == RewriteAll(ctx.direct, ctx.borrowed, ts[1..]);
    }
  }

  lemma {:induction false} RewriteBlockSound(
    F: seq<Fun>, unit: Unit, callable: map<nat, RecursiveFunction>, ctx: Ctx, e: Expr, t: Expr, i: nat)
    requires e.Block? && t.Block? && |t.bindings| == |e.bindings| && i <= |e.bindings|
    requires RelBlock(F, unit, PlainCtx(callable), e, t, i) && ctx.callable == callable
    ensures var r := Rewrite(ctx.direct, ctx.borrowed, t);
            r.Block? && |r.bindings| == |e.bindings| && RelBlock(F, unit, ctx, e, r, i)
    decreases e, 0, |e.bindings| - i
  {
    hide Rel, RelHead, GroupLen, AfterGroup, Rewrite, CtxAfter;
    var r := Rewrite(ctx.direct, ctx.borrowed, t);
    RewriteBlock(ctx, t);
    if i == |e.bindings| {
      RewriteSound(F, unit, callable, ctx, e.result, t.result);
    } else {
      if GroupLen(e.bindings, i) == Members(0) {
        PlainHead(F, unit, PlainCtx(callable), e, t, i);
        RewriteSound(F, unit, callable, ctx, e.bindings[i].value, t.bindings[i].value);
        PlainHead(F, unit, ctx, e, r, i);
      } else {
        RewriteGroupSound(F, unit, callable, ctx, e, t, i);
      }
      CtxAfterRewrite(F, callable, ctx, e, t, r, i);
      var next := CtxAfter(F, ctx, e, r, i);
      RewriteBlockSound(F, unit, next.callable, next, e, t, i + Width(e.bindings, i));
    }
  }

  lemma RewriteBlock(ctx: Ctx, t: Expr)
    requires t.Block?
    ensures var r := Rewrite(ctx.direct, ctx.borrowed, t);
            && r.Block? && |r.bindings| == |t.bindings|
            && r.result == Rewrite(ctx.direct, ctx.borrowed, t.result)
            && (forall k | 0 <= k < |t.bindings| ::
                  r.bindings[k] == Binding(t.bindings[k].local, Rewrite(ctx.direct, ctx.borrowed, t.bindings[k].value)))
  {
  }

  lemma PlainHead(F: seq<Fun>, unit: Unit, ctx: Ctx, e: Expr, t: Expr, i: nat)
    requires e.Block? && t.Block? && |t.bindings| == |e.bindings| && i < |e.bindings|
             && GroupLen(e.bindings, i) == Members(0)
    ensures RelHead(F, unit, ctx, e, t, i) <==>
            t.bindings[i].local == e.bindings[i].local && Rel(F, unit, ctx, e.bindings[i].value, t.bindings[i].value)
  {
    hide Rel;
  }

  lemma CtxAfterRewrite(F: seq<Fun>, callable: map<nat, RecursiveFunction>, ctx: Ctx, e: Expr, t: Expr, r: Expr, i: nat)
    requires e.Block? && t.Block? && r.Block? && |t.bindings| == |r.bindings| == |e.bindings| && i < |e.bindings|
    requires ctx.callable == callable
    requires GroupLen(e.bindings, i) == Members(0) ||
             (r.bindings[i].value.Closure? && t.bindings[i].value.Closure?
              && r.bindings[i].value.lifted == t.bindings[i].value.lifted)
    ensures var next := CtxAfter(F, ctx, e, r, i);
            && CtxAfter(F, PlainCtx(callable), e, t, i) == PlainCtx(next.callable)
            && next.direct == ctx.direct && next.borrowed == ctx.borrowed
  {
  }

  lemma RewriteGroupSound(
    F: seq<Fun>, unit: Unit, callable: map<nat, RecursiveFunction>, ctx: Ctx, e: Expr, t: Expr, i: nat)
    requires e.Block? && t.Block? && |t.bindings| == |e.bindings| && i < |e.bindings|
    requires GroupLen(e.bindings, i) != Members(0)
    requires RelHead(F, unit, PlainCtx(callable), e, t, i) && ctx.callable == callable
    ensures var r := Rewrite(ctx.direct, ctx.borrowed, t);
            r.Block? && |r.bindings| == |e.bindings| && RelHead(F, unit, ctx, e, r, i)
            && r.bindings[i].value.Closure? && t.bindings[i].value.Closure?
            && r.bindings[i].value.lifted == t.bindings[i].value.lifted
  {
    hide GroupOf, Rel, Rewrite, RelGroup;
    var r := Rewrite(ctx.direct, ctx.borrowed, t);
    RewriteBlock(ctx, t);
    var count := GroupLen(e.bindings, i).count;
    var members, closures := e.bindings[i..i + count], t.bindings[i..i + count];
    var closures' := r.bindings[i..i + count];
    assert closures[0] == t.bindings[i] && closures'[0] == r.bindings[i];
    forall j | 0 <= j < count
      ensures closures'[j] == Binding(closures[j].local, Rewrite(ctx.direct, ctx.borrowed, closures[j].value))
    {
      assert closures[j] == t.bindings[i + j] && closures'[j] == r.bindings[i + j];
    }
    RewriteClosures(F, unit, callable, ctx, members, closures, closures');
  }

  lemma RewriteClosures(
    F: seq<Fun>, unit: Unit, callable: map<nat, RecursiveFunction>, ctx: Ctx, members: seq<Binding>,
    closures: seq<Binding>, closures': seq<Binding>)
    requires |members| == |closures| == |closures'| > 0 && (forall k | 0 <= k < |members| :: members[k].value.Lambda?)
    requires RelGroup(F, unit, PlainCtx(callable), members, closures) && ctx.callable == callable
    requires forall j | 0 <= j < |closures| ::
               closures'[j] == Binding(closures[j].local, Rewrite(ctx.direct, ctx.borrowed, closures[j].value))
    ensures RelGroup(F, unit, ctx, members, closures')
    ensures closures[0].value.Closure? && closures'[0].value.Closure?
            && closures'[0].value.lifted == closures[0].value.lifted
  {
    hide GroupOf, Rewrite, RewriteAtBindings;
    var g := F[closures[0].value.lifted].origin.info;
    forall j | 0 <= j < |members| ensures ClosureFor(F, ctx, g, members[j], closures'[j], j) {
      assert ClosureFor(F, PlainCtx(callable), g, members[j], closures[j], j);
      RewriteClosure(callable, ctx, g.first + j, g.captured, members[j].value.lambdaTy);
    }
    assert ClosureFor(F, PlainCtx(callable), g, members[0], closures[0], 0);
    assert ClosureFor(F, ctx, g, members[0], closures'[0], 0);
  }

  lemma RewriteClosure(callable: map<nat, RecursiveFunction>, ctx: Ctx, fid: nat, cs: seq<Captured>, ty: Ty)
    ensures Rewrite(ctx.direct, ctx.borrowed, Closure(fid, RewriteAtBindings(PlainCtx(callable), cs), ty))
            == Closure(fid, RewriteAtBindings(ctx, cs), ty)
  {
    var plain := RewriteAtBindings(PlainCtx(callable), cs);
    forall k | 0 <= k < |cs| ensures Rewrite(ctx.direct, ctx.borrowed, plain[k]) == RewriteAtBinding(ctx, cs[k]) {
      assert plain[k] == AtBinding(cs[k]);
    }
    assert RewriteAll(ctx.direct, ctx.borrowed, plain) == RewriteAtBindings(ctx, cs);
  }
}

/**
  Lowering preserves meaning. Evaluating a lowered expression with the same fuel gives a value that
  stands for the source's value, runs out of fuel where the source does, and is stuck where the
  source is.
 */
module LetRecSimulation {
  import opened LetRecSyntax
  import opened LetRecEval
  import opened LetRecLowering
  import opened LetRecRelation
  import opened LetRecFrozen
  import opened LetRecFrames
  import opened LetRecEntry
  import opened LetRecBinding

  // ----- what lowering does not add -----

  lemma {:induction false} RelRoots(F: seq<Fun>, unit: Unit, ctx: Ctx, e: Expr, t: Expr)
    requires Rel(F, unit, ctx, e, t)
    ensures Root(t) <= Root(e)
    decreases e
  {
    match e
    case Deref(reference) => RelRoots(F, unit, ctx, reference, t.reference);
    case Borrow(place, _) => RelRoots(F, unit, ctx, place, t.place);
    case _ =>
  }

  lemma LeafTame(mutated: set<nat>, ctx: Ctx, x: nat, ty: Ty)
    ensures Tame(mutated, RewriteVar(ctx.direct, ctx.borrowed, x, ty))
  {
    var t := RewriteVar(ctx.direct, ctx.borrowed, x, ty);
    if x in ctx.direct {
      forall c | c in Children(t) ensures Tame(mutated, c) { assert c.Var?; }
    }
  }

  lemma AtBindingTame(mutated: set<nat>, ctx: Ctx, c: Captured)
    ensures Tame(mutated, RewriteAtBinding(ctx, c))
  {
    LeafTame(mutated, ctx, c.local.id, c.local.ty);
  }

  /** A lowered expression mutates what its source mutates, and no lambda is left in it. */
  lemma {:induction false} RelTame(F: seq<Fun>, unit: Unit, ctx: Ctx, e: Expr, t: Expr, mutated: set<nat>)
    requires Rel(F, unit, ctx, e, t) && OnlyMutates(mutated, e)
    ensures Tame(mutated, t)
    decreases e, 1
  {
    match e
    case Literal(_) =>
    case FunctionRef(_) =>
    case Var(x, ty) => LeafTame(mutated, ctx, x, ty);
    case Pipe(_, _) => CallTame(F, unit, ctx, e, t, mutated);
    case Call(_, _) => CallTame(F, unit, ctx, e, t, mutated);
    case Lambda(_, captures, _, _, _) =>
      forall c | c in Children(t) ensures Tame(mutated, c) {
        var k :| 0 <= k < |captures| && t.values[k] == c;
        LeafTame(mutated, ctx, captures[k].id, captures[k].ty);
      }
    case Block(_, _) =>
      forall k | 0 <= k < |Children(t)| ensures Tame(mutated, Children(t)[k]) {
        RelBlockTame(F, unit, ctx, e, t, 0, k, mutated);
      }
    case Closure(_, _, _) => assert false;
    case _ => NodeTame(F, unit, ctx, e, t, mutated);
  }

  lemma {:induction false} NodeTame(F: seq<Fun>, unit: Unit, ctx: Ctx, e: Expr, t: Expr, mutated: set<nat>)
    requires Rel(F, unit, ctx, e, t) && OnlyMutates(mutated, e)
    requires e.Binary? || e.If? || e.Assign? || e.Borrow? || e.Deref?
    ensures Tame(mutated, t)
    decreases e, 0
  {
    forall k | 0 <= k < |Children(t)| ensures Tame(mutated, Children(t)[k]) {
      RelTame(F, unit, ctx, Children(e)[k], Children(t)[k], mutated);
    }
    if e.Assign? { RelRoots(F, unit, ctx, e.target, t.target); }
    if e.Borrow? { RelRoots(F, unit, ctx, e.place, t.place); }
  }

  lemma {:induction false} CallTame(F: seq<Fun>, unit: Unit, ctx: Ctx, e: Expr, t: Expr, mutated: set<nat>)
    requires Rel(F, unit, ctx, e, t) && OnlyMutates(mutated, e) && (e.Pipe? || e.Call?)
    ensures Tame(mutated, t)
    decreases e, 0
  {
    if e.Pipe? {
      assert e.argument in Children(e) && e.piped in Children(e);
      if CallsDirectly(ctx.direct, e.piped) {
        var f := ctx.direct[e.piped.id];
        RelTame(F, unit, ctx, e.argument, t.arguments[|f.captures|], mutated);
        DirectCallTame(mutated, t, f);
      } else {
        RelTame(F, unit, ctx, e.argument, t.argument, mutated);
        RelTame(F, unit, ctx, e.piped, t.piped, mutated);
      }
    } else {
      assert e.callee in Children(e);
      assert forall c | c in e.arguments :: c in Children(e);
      if CallsDirectly(ctx.direct, e.callee) {
        var f := ctx.direct[e.callee.id];
        RelAllTame(F, unit, ctx, e.arguments, t.arguments[|f.captures|..], mutated);
        DirectCallTame(mutated, t, f);
      } else {
        RelTame(F, unit, ctx, e.callee, t.callee, mutated);
        RelAllTame(F, unit, ctx, e.arguments, t.arguments, mutated);
        assert forall c | c in Children(t) :: c == t.callee || c in t.arguments;
      }
    }
  }

  lemma DirectCallTame(mutated: set<nat>, t: Expr, f: RecursiveFunction)
    requires t.Call? && t.callee == FunctionRef(f.fid) && |f.captures| <= |t.arguments|
    requires t.arguments[..|f.captures|] == InBodies(f.captures)
    requires forall k | |f.captures| <= k < |t.arguments| :: Tame(mutated, t.arguments[k])
    ensures Tame(mutated, t)
  {
    forall c | c in Children(t) ensures Tame(mutated, c) {
      if c != t.callee {
        var k :| 0 <= k < |t.arguments| && t.arguments[k] == c;
        if k < |f.captures| {
          assert t.arguments[..|f.captures|][k] == InBody(f.captures[k]);
        }
      }
    }
  }

  lemma {:induction false} RelAllTame(
    F: seq<Fun>, unit: Unit, ctx: Ctx, es: seq<Expr>, ts: seq<Expr>, mutated: set<nat>)
    requires RelAll(F, unit, ctx, es, ts) && forall c | c in es :: OnlyMutates(mutated, c)
    ensures |ts| == |es| && forall k | 0 <= k < |ts| :: Tame(mutated, ts[k])
    decreases es
  {
    if es != [] {
      RelTame(F, unit, ctx, es[0], ts[0], mutated);
      RelAllTame(F, unit, ctx, es[1..], ts[1..], mutated);
      forall k | 0 <= k < |ts| ensures Tame(mutated, ts[k]) {
        if k > 0 { assert ts[1..][k - 1] == ts[k]; }
      }
    }
  }

  lemma {:induction false} RelBlockTame(
    F: seq<Fun>, unit: Unit, ctx: Ctx, e: Expr, t: Expr, i: nat, k: nat, mutated: set<nat>)
    requires e.Block? && t.Block? && |t.bindings| == |e.bindings| && i <= k <= |e.bindings|
    requires RelBlock(F, unit, ctx, e, t, i) && OnlyMutates(mutated, e)
    ensures Tame(mutated, Children(t)[k])
    decreases e, 0, |e.bindings| - i
  {
    hide Rel, RelHead, CtxAfter, Tame, GroupOf, GroupLen;
    if i == |e.bindings| {
      assert Children(e)[|e.bindings|] == e.result;
      RelTame(F, unit, ctx, e.result, t.result, mutated);
    } else {
      if k < i + Width(e.bindings, i) {
        HeadTame(F, unit, ctx, e, t, i, k, mutated);
      } else {
        RelBlockTame(F, unit, CtxAfter(F, ctx, e, t, i), e, t, i + Width(e.bindings, i), k, mutated);
      }
    }
  }

  lemma {:induction false} HeadTame(
    F: seq<Fun>, unit: Unit, ctx: Ctx, e: Expr, t: Expr, i: nat, k: nat, mutated: set<nat>)
    requires e.Block? && t.Block? && |t.bindings| == |e.bindings| && i < |e.bindings|
    requires RelHead(F, unit, ctx, e, t, i) && OnlyMutates(mutated, e)
    requires i <= k < i + Width(e.bindings, i)
    ensures Tame(mutated, Children(t)[k])
    decreases e, 0, 0
  {
    hide GroupOf, RewriteAtBindings;
    var count := GroupLen(e.bindings, i).count;
    assert Children(t)[k] == t.bindings[k].value;
    if count == 0 {
      assert Children(e)[i] == e.bindings[i].value;
      RelTame(F, unit, ctx, e.bindings[i].value, t.bindings[i].value, mutated);
    } else {
      GroupTame(F, unit, ctx, e.bindings[i..i + count], t.bindings[i..i + count], k - i, mutated);
      assert t.bindings[i..i + count][k - i] == t.bindings[k];
    }
  }

  lemma GroupTame(
    F: seq<Fun>, unit: Unit, ctx: Ctx, members: seq<Binding>, closures: seq<Binding>, j: nat, mutated: set<nat>)
    requires |members| == |closures| && j < |members|
    requires forall k | 0 <= k < |members| :: members[k].value.Lambda?
    requires RelGroup(F, unit, ctx, members, closures)
    ensures Tame(mutated, closures[j].value)
  {
    var g := F[closures[0].value.lifted].origin.info;
    var t := closures[j].value;
    forall c | c in Children(t) ensures Tame(mutated, c) {
      var k :| 0 <= k < |t.values| && t.values[k] == c;
      AtBindingTame(mutated, ctx, g.captured[k]);
    }
  }

  lemma ProgTame(P: seq<Fun>, F: seq<Fun>)
    requires ProgOk(P, F)
    ensures AllTame(F)
  {
    forall fid | 0 <= fid < |F| ensures Tame(UnitOf(F[fid].origin).mutated, F[fid].body) {
      FunTame(P, F, fid);
    }
  }

  lemma FunTame(P: seq<Fun>, F: seq<Fun>, fid: nat)
    requires fid < |F| && FunOk(P, F, fid)
    ensures Tame(UnitOf(F[fid].origin).mutated, F[fid].body)
  {
    match F[fid].origin
    case Original(unit) => RelTame(F, unit, NO_CTX, P[fid].body, F[fid].body, unit.mutated);
    case FromLambda(lambda, unit) =>
      var taken :| LambdaOk(unit, lambda, taken);
      RelTame(F, unit, NO_CTX, lambda.body, F[fid].body, unit.mutated);
    case FromGroup(g, index) =>
      var taken :| GroupOk(g, taken);
      assert MemberOk(g, taken, index);
      RelTame(F, g.unit, GroupCtx(g), g.members[index].value.body, F[fid].body, g.unit.mutated);
  }

  // ----- expressions -----

  /** The lowered expression `t` stands for `e` at the point `p`. */
  ghost predicate At(P: seq<Fun>, F: seq<Fun>, p: Point, e: Expr, t: Expr) {
    && p.unit.count == |P|
    && Scoped(p.unit, p.taken, p.scope, p.own, e)
    && OnlyMutates(p.unit.mutated, e)
    && Rel(F, p.unit, p.ctx, e, t)
  }

  ghost predicate AllAt(P: seq<Fun>, F: seq<Fun>, p: Point, es: seq<Expr>, ts: seq<Expr>) {
    && p.unit.count == |P|
    && ScopedAll(p.unit, p.taken, p.scope, p.own, es)
    && (forall c | c in es :: OnlyMutates(p.unit.mutated, c))
    && RelAll(F, p.unit, p.ctx, es, ts)
  }

  ghost predicate Ready0(P: seq<Fun>, F: seq<Fun>) {
    ProgOk(P, F) && AllTame(F)
  }

  /** Both evaluations arrive, and the frames still fit. */
  ghost predicate Step(F: seq<Fun>, p: Point, r: Res<Val>, r': Res<Val>) {
    ResRel(F, r, r') && (r.Ok? ==> Inv(F, p, r.store, r'.store) && SafeVal(p.frozen, |r'.store|, r'.value))
  }

  ghost predicate StepAll(F: seq<Fun>, p: Point, r: Res<seq<Val>>, r': Res<seq<Val>>) {
    ResAllRel(F, r, r') && (r.Ok? ==> Inv(F, p, r.store, r'.store) && SafeAll(p.frozen, |r'.store|, r'.value))
  }

  lemma InvFrame(F: seq<Fun>, p: Point, ss: Store, ts: Store)
    requires Inv(F, p, ss, ts)
    ensures SafeFrame(p.frozen, p.tenv, ts, p.unit.mutated)
  {
  }

  lemma InvFacts(F: seq<Fun>, p: Point, ss: Store, ts: Store)
    requires Inv(F, p, ss, ts)
    ensures StoreRel(F, ss, ts) && p.scope <= p.senv.Keys
  {
  }

  lemma InvVar(F: seq<Fun>, p: Point, ss: Store, ts: Store, x: nat)
    requires Inv(F, p, ss, ts) && x in p.scope
    ensures x in p.senv && EnvAt(F, p.ctx, p.tenv, x, p.senv[x])
    ensures x in p.own ==> x !in p.ctx.direct && x !in p.ctx.borrowed
    ensures x in p.ctx.borrowed ==> x in p.unit.types && p.unit.types[x] == p.ctx.borrowed[x]
  {
  }

  lemma {:induction false} SimStep(
    P: seq<Fun>, F: seq<Fun>, fuel: nat, p: Point, ss: Store, ts: Store, e: Expr, t: Expr)
    requires Ready0(P, F) && At(P, F, p, e, t) && Inv(F, p, ss, ts)
    ensures Step(F, p, Eval(P, fuel, p.senv, ss, e), Eval(F, fuel, p.tenv, ts, t))
    decreases fuel, 0, e, 3
  {
    hide Inv, ProgOk, AllTame, StoreRel, ValRel, SafeVal, Scoped, Rel, OnlyMutates, Eval, Tame, SafeFrame;
    Sim(P, F, fuel, p, ss, ts, e, t);
    RelTame(F, p.unit, p.ctx, e, t, p.unit.mutated);
    InvFrame(F, p, ss, ts);
    EvalKeeps(F, fuel, p.tenv, ts, t, p.unit.mutated, p.frozen);
    var r, r' := Eval(P, fuel, p.senv, ss, e), Eval(F, fuel, p.tenv, ts, t);
    if r.Ok? { Advance(F, p, ss, ts, r.store, r'.store); }
  }

  lemma {:induction false} SimAll(
    P: seq<Fun>, F: seq<Fun>, fuel: nat, p: Point, ss: Store, ts: Store, es: seq<Expr>, es': seq<Expr>)
    requires Ready0(P, F) && AllAt(P, F, p, es, es') && Inv(F, p, ss, ts)
    ensures StepAll(F, p, EvalAll(P, fuel, p.senv, ss, es), EvalAll(F, fuel, p.tenv, ts, es'))
    decreases fuel, 0, es
  {
    hide Inv, ProgOk, AllTame, StoreRel, ValRel, SafeVal, Scoped, Rel, OnlyMutates, Eval, Tame;
    InvFacts(F, p, ss, ts);
    if es != [] {
      SimStep(P, F, fuel, p, ss, ts, es[0], es'[0]);
      var r, r' := Eval(P, fuel, p.senv, ss, es[0]), Eval(F, fuel, p.tenv, ts, es'[0]);
      if r.Ok? {
        SimAll(P, F, fuel, p, r.store, r'.store, es[1..], es'[1..]);
        var rest' := EvalAll(F, fuel, p.tenv, r'.store, es'[1..]);
        if rest'.Ok? {
          AllKept(P, F, fuel, p, r.store, r'.store, es[1..], es'[1..]);
          SafeGrows(p.frozen, |r'.store|, |rest'.store|, r'.value);
        }
      }
    }
  }

  /** The store of the lowered program only grows. */
  lemma AllKept(P: seq<Fun>, F: seq<Fun>, fuel: nat, p: Point, ss: Store, ts: Store, es: seq<Expr>, es': seq<Expr>)
    requires AllTame(F) && AllAt(P, F, p, es, es') && Inv(F, p, ss, ts)
    ensures KeepsAll(p.frozen, ts, EvalAll(F, fuel, p.tenv, ts, es'))
  {
    RelAllTame(F, p.unit, p.ctx, es, es', p.unit.mutated);
    InvFrame(F, p, ss, ts);
    EvalAllKeeps(F, fuel, p.tenv, ts, es', p.unit.mutated, p.frozen);
  }

  lemma Kept1(P: seq<Fun>, F: seq<Fun>, fuel: nat, p: Point, ss: Store, ts: Store, e: Expr, t: Expr)
    requires AllTame(F) && At(P, F, p, e, t) && Inv(F, p, ss, ts)
    ensures Keeps(p.frozen, ts, Eval(F, fuel, p.tenv, ts, t))
  {
    RelTame(F, p.unit, p.ctx, e, t, p.unit.mutated);
    InvFrame(F, p, ss, ts);
    EvalKeeps(F, fuel, p.tenv, ts, t, p.unit.mutated, p.frozen);
  }

  /** Evaluating a lowered expression gives what its source gives. */
  lemma {:induction false} Sim(P: seq<Fun>, F: seq<Fun>, fuel: nat, p: Point, ss: Store, ts: Store, e: Expr, t: Expr)
    requires Ready0(P, F) && At(P, F, p, e, t) && Inv(F, p, ss, ts)
    ensures ResRel(F, Eval(P, fuel, p.senv, ss, e), Eval(F, fuel, p.tenv, ts, t))
    decreases fuel, 0, e, 2
  {
    hide ProgOk, AllTame, StoreRel, SafeVal, Tame, SafeStore, Inv;
    InvFacts(F, p, ss, ts);
    match e
    case Literal(_) =>
    case Var(x, ty) => InvVar(F, p, ss, ts, x); VarRel(F, fuel, p, ss, ts, x, ty);
    case FunctionRef(fid) => OriginalRef(P, F, fid);
    case Binary(_, _, _) => SimBinary(P, F, fuel, p, ss, ts, e, t);
    case Pipe(_, piped) =>
      if CallsDirectly(p.ctx.direct, piped) { SimDirectPipe(P, F, fuel, p, ss, ts, e, t); }
      else { SimPipe(P, F, fuel, p, ss, ts, e, t); }
    case Call(callee, _) =>
      if CallsDirectly(p.ctx.direct, callee) { SimDirectCall(P, F, fuel, p, ss, ts, e, t); }
      else { SimCall(P, F, fuel, p, ss, ts, e, t); }
    case If(_, _, _) => SimIf(P, F, fuel, p, ss, ts, e, t);
    case Lambda(_, _, _, _, _) => SimLambda(P, F, fuel, p, ss, ts, e, t);
    case Closure(_, _, _) => assert false;
    case Block(_, _) => SimBlock(P, F, fuel, p, ss, ts, e, t, 0);
    case Assign(_, _) => SimAssign(P, F, fuel, p, ss, ts, e, t);
    case Borrow(_, _) => SimBorrow(P, F, fuel, p, ss, ts, e, t);
    case Deref(reference) =>
      assert reference in Children(e);
      SimStep(P, F, fuel, p, ss, ts, reference, t.reference);
      var r, r' := Eval(P, fuel, p.senv, ss, reference), Eval(F, fuel, p.tenv, ts, t.reference);
      if r.Ok? && r.value.VRef? { LoadRel(F, r.value.to, r'.value.to, r.store, r'.store); }
  }

  lemma OriginalRef(P: seq<Fun>, F: seq<Fun>, fid: nat)
    requires ProgOk(P, F) && fid < |P|
    ensures ValRel(F, VClosure(fid, []), VClosure(fid, []))
  {
  }

  lemma {:induction false} SimBinary(
    P: seq<Fun>, F: seq<Fun>, fuel: nat, p: Point, ss: Store, ts: Store, e: Expr, t: Expr)
    requires e.Binary? && Ready0(P, F) && At(P, F, p, e, t) && Inv(F, p, ss, ts)
    ensures ResRel(F, Eval(P, fuel, p.senv, ss, e), Eval(F, fuel, p.tenv, ts, t))
    decreases fuel, 0, e, 1
  {
    hide Inv, ProgOk, AllTame, StoreRel, SafeVal, SafeAll, Tame, Kept, Apply, SafeStore, EnvAt, EvalBlock, EvalAll,
      GroupOf;
    assert e.left in Children(e) && e.right in Children(e);
    SimStep(P, F, fuel, p, ss, ts, e.left, t.left);
    var r, r' := Eval(P, fuel, p.senv, ss, e.left), Eval(F, fuel, p.tenv, ts, t.left);
    if r.Ok? {
      SimStep(P, F, fuel, p, r.store, r'.store, e.right, t.right);
    }
  }

  lemma {:induction false} SimIf(P: seq<Fun>, F: seq<Fun>, fuel: nat, p: Point, ss: Store, ts: Store, e: Expr, t: Expr)
    requires e.If? && Ready0(P, F) && At(P, F, p, e, t) && Inv(F, p, ss, ts)
    ensures ResRel(F, Eval(P, fuel, p.senv, ss, e), Eval(F, fuel, p.tenv, ts, t))
    decreases fuel, 0, e, 1
  {
    hide Inv, ProgOk, AllTame, StoreRel, SafeVal, SafeAll, Tame, Kept, Apply, SafeStore;
    assert e.condition in Children(e) && e.thenBranch in Children(e) && e.elseBranch in Children(e);
    SimStep(P, F, fuel, p, ss, ts, e.condition, t.condition);
    var r, r' := Eval(P, fuel, p.senv, ss, e.condition), Eval(F, fuel, p.tenv, ts, t.condition);
    if r.Ok? && r.value.VInt? {
      if r.value.n != 0 { SimStep(P, F, fuel, p, r.store, r'.store, e.thenBranch, t.thenBranch); }
      else { SimStep(P, F, fuel, p, r.store, r'.store, e.elseBranch, t.elseBranch); }
    }
  }

  /** A call of related function values, from stores that the frame of the caller fits. */
  lemma CallRel(
    P: seq<Fun>, F: seq<Fun>, fuel: nat, p: Point, ss: Store, ts: Store, f: Val, f': Val, vs: seq<Val>, vs': seq<Val>)
    requires Ready0(P, F) && Inv(F, p, ss, ts)
    requires ValRel(F, f, f') && ValsRel(F, vs, vs')
    requires SafeVal(p.frozen, |ts|, f') && SafeAll(p.frozen, |ts|, vs')
    ensures ResRel(F, Apply(P, fuel, ss, f, vs), Apply(F, fuel, ts, f', vs'))
    decreases fuel, 5
  {
    SafeFewer(p.frozen, {}, |ts|, f');
    forall k | 0 <= k < |vs'| ensures SafeVal({}, |ts|, vs'[k]) { SafeFewer(p.frozen, {}, |ts|, vs'[k]); }
    forall l | 0 <= l < |ts| ensures SafeVal({}, |ts|, ts[l]) { SafeFewer(p.frozen, {}, |ts|, ts[l]); }
    SimApply(P, F, fuel, ss, ts, f, f', vs, vs');
  }

  lemma {:induction false} SimPipe(
    P: seq<Fun>, F: seq<Fun>, fuel: nat, p: Point, ss: Store, ts: Store, e: Expr, t: Expr)
    requires e.Pipe? && !CallsDirectly(p.ctx.direct, e.piped) && Ready0(P, F) && At(P, F, p, e, t) && Inv(F, p, ss, ts)
    ensures ResRel(F, Eval(P, fuel, p.senv, ss, e), Eval(F, fuel, p.tenv, ts, t))
    decreases fuel, 0, e, 1
  {
    hide Inv, ProgOk, AllTame, StoreRel, SafeVal, SafeAll, Tame, Apply, SafeStore;
    assert e.argument in Children(e) && e.piped in Children(e);
    SimStep(P, F, fuel, p, ss, ts, e.argument, t.argument);
    var r, r' := Eval(P, fuel, p.senv, ss, e.argument), Eval(F, fuel, p.tenv, ts, t.argument);
    if r.Ok? {
      SimStep(P, F, fuel, p, r.store, r'.store, e.piped, t.piped);
      Kept1(P, F, fuel, p, r.store, r'.store, e.piped, t.piped);
      var f, f' := Eval(P, fuel, p.senv, r.store, e.piped), Eval(F, fuel, p.tenv, r'.store, t.piped);
      if f.Ok? && fuel > 0 {
        SafeGrows(p.frozen, |r'.store|, |f'.store|, r'.value);
        CallRel(P, F, fuel - 1, p, f.store, f'.store, f.value, f'.value, [r.value], [r'.value]);
      }
    }
  }

  lemma {:induction false} SimCall(
    P: seq<Fun>, F: seq<Fun>, fuel: nat, p: Point, ss: Store, ts: Store, e: Expr, t: Expr)
    requires e.Call? && !CallsDirectly(p.ctx.direct, e.callee) && Ready0(P, F) && At(P, F, p, e, t) && Inv(F, p, ss, ts)
    ensures ResRel(F, Eval(P, fuel, p.senv, ss, e), Eval(F, fuel, p.tenv, ts, t))
    decreases fuel, 0, e, 1
  {
    hide Inv, ProgOk, AllTame, StoreRel, SafeVal, SafeAll, Tame, Apply, SafeStore;
    assert e.callee in Children(e) && forall c | c in e.arguments :: c in Children(e);
    SimStep(P, F, fuel, p, ss, ts, e.callee, t.callee);
    var r, r' := Eval(P, fuel, p.senv, ss, e.callee), Eval(F, fuel, p.tenv, ts, t.callee);
    if r.Ok? {
      SimAll(P, F, fuel, p, r.store, r'.store, e.arguments, t.arguments);
      AllKept(P, F, fuel, p, r.store, r'.store, e.arguments, t.arguments);
      var vs, vs' := EvalAll(P, fuel, p.senv, r.store, e.arguments), EvalAll(F, fuel, p.tenv, r'.store, t.arguments);
      if vs.Ok? && fuel > 0 {
        SafeGrows(p.frozen, |r'.store|, |vs'.store|, r'.value);
        CallRel(P, F, fuel - 1, p, vs.store, vs'.store, r.value, r'.value, vs.value, vs'.value);
      }
    }
  }

  // ----- direct calls -----

  function Prepend(vs: seq<Val>, r: Res<seq<Val>>): Res<seq<Val>> {
    match r
    case Timeout => Timeout
    case Stuck => Stuck
    case Ok(more, s) => Ok(vs + more, s)
  }

  lemma {:induction false} EvalInBodiesThen(
    F: seq<Fun>, fuel: nat, env: Env, s: Store, cs: seq<Captured>, rest: seq<Expr>)
    requires Holds(env, cs)
    ensures EvalAll(F, fuel, env, s, InBodies(cs) + rest) == Prepend(BodyVals(env, cs), EvalAll(F, fuel, env, s, rest))
    decreases |cs|
  {
    hide Apply, EvalBlock;
    if cs == [] {
      assert InBodies(cs) + rest == rest && BodyVals(env, cs) == [];
      match EvalAll(F, fuel, env, s, rest) { case Ok(more, _) => assert [] + more == more; case _ => }
    } else {
      EvalInBodiesThen(F, fuel, env, s, cs[1..], rest);
      var all := InBodies(cs) + rest;
      assert all[1..] == InBodies(cs[1..]) + rest && all[0] == InBody(cs[0]);
      assert Eval(F, fuel, env, s, InBody(cs[0])) == Ok(env[cs[0].local.id].v, s);
      assert BodyVals(env, cs) == [env[cs[0].local.id].v] + BodyVals(env, cs[1..]);
      match EvalAll(F, fuel, env, s, rest) {
        case Ok(more, _) =>
          assert [env[cs[0].local.id].v] + (BodyVals(env, cs[1..]) + more) == BodyVals(env, cs) + more;
        case _ =>
      }
    }
  }

  /** Passing leading arguments in the call or in the closure is the same. */
  lemma ApplyPrefix(F: seq<Fun>, fuel: nat, s: Store, fid: nat, first: seq<Val>, args: seq<Val>)
    ensures Apply(F, fuel, s, VClosure(fid, []), first + args) == Apply(F, fuel, s, VClosure(fid, first), args)
  {
    assert [] + (first + args) == first + args;
  }

  lemma DirectParts(P: seq<Fun>, F: seq<Fun>, p: Point, e: Expr, t: Expr)
    requires e.Call? && CallsDirectly(p.ctx.direct, e.callee) && At(P, F, p, e, t)
    ensures e.callee.id in p.scope
    ensures var f := p.ctx.direct[e.callee.id];
            && t.Call? && t.callee == FunctionRef(f.fid) && |f.captures| <= |t.arguments|
            && t.arguments == InBodies(f.captures) + t.arguments[|f.captures|..]
            && AllAt(P, F, p, e.arguments, t.arguments[|f.captures|..])
  {
    assert e.callee in Children(e) && forall c | c in e.arguments :: c in Children(e);
    assert Scoped(p.unit, p.taken, p.scope, p.own, e.callee);
  }

  lemma {:induction false} SimDirectCall(
    P: seq<Fun>, F: seq<Fun>, fuel: nat, p: Point, ss: Store, ts: Store, e: Expr, t: Expr)
    requires e.Call? && CallsDirectly(p.ctx.direct, e.callee) && Ready0(P, F) && At(P, F, p, e, t) && Inv(F, p, ss, ts)
    ensures ResRel(F, Eval(P, fuel, p.senv, ss, e), Eval(F, fuel, p.tenv, ts, t))
    decreases fuel, 0, e, 1
  {
    hide Inv, ProgOk, AllTame, StoreRel, SafeVal, EnvAt, Scoped, Rel, OnlyMutates, RelAll, ScopedAll, Apply, EvalAll,
      ValRel;
    DirectParts(P, F, p, e, t);
    var x := e.callee.id;
    var f := p.ctx.direct[x];
    var rest := t.arguments[|f.captures|..];
    DirectHere(F, p, ss, ts, x);
    SimAll(P, F, fuel, p, ss, ts, e.arguments, rest);
    EvalInBodiesThen(F, fuel, p.tenv, ts, f.captures, rest);
    var vs, vs' := EvalAll(P, fuel, p.senv, ss, e.arguments), EvalAll(F, fuel, p.tenv, ts, rest);
    CallOf(P, fuel, p.senv, ss, e, p.senv[x].v);
    CallOf(F, fuel, p.tenv, ts, t, VClosure(f.fid, []));
    hide Eval, EvalAll;
    if vs.Ok? && fuel > 0 { DirectApply(P, F, fuel - 1, p, x, vs, vs'); }
  }

  /** A call whose callee has been evaluated. */
  ghost function CallWith(F: seq<Fun>, fuel: nat, f: Val, vs: Res<seq<Val>>): Res<Val> {
    match vs
    case Timeout => Timeout
    case Stuck => Stuck
    case Ok(values, s) => if fuel == 0 then Timeout else Apply(F, fuel - 1, s, f, values)
  }

  lemma CallOf(F: seq<Fun>, fuel: nat, env: Env, s: Store, e: Expr, f: Val)
    requires e.Call? && Eval(F, fuel, env, s, e.callee) == Ok(f, s)
    ensures Eval(F, fuel, env, s, e) == CallWith(F, fuel, f, EvalAll(F, fuel, env, s, e.arguments))
  {
    hide Apply;
  }

  lemma DirectHere(F: seq<Fun>, p: Point, ss: Store, ts: Store, x: nat)
    requires Inv(F, p, ss, ts) && x in p.scope && x in p.ctx.direct
    ensures x in p.senv && p.senv[x].Imm? && Holds(p.tenv, p.ctx.direct[x].captures)
            && EnvAt(F, p.ctx, p.tenv, x, p.senv[x])
  {
    assert EnvAt(F, p.ctx, p.tenv, x, p.senv[x]);
  }

  lemma EvalOne(F: seq<Fun>, fuel: nat, env: Env, s: Store, e: Expr)
    ensures var r := Eval(F, fuel, env, s, e);
            EvalAll(F, fuel, env, s, [e])
            == match r { case Timeout => Timeout case Stuck => Stuck case Ok(v, s') => Ok([v], s') }
  {
    assert [e][1..] == [];
    var r := Eval(F, fuel, env, s, e);
    if r.Ok? {
      assert EvalAll(F, fuel, env, r.store, [e][1..]) == Ok([], r.store);
      assert [r.value] + [] == [r.value];
    }
  }

  /** The last step of a direct call: the captures in front of the arguments make the function itself. */
  lemma DirectApply(P: seq<Fun>, F: seq<Fun>, fuel: nat, p: Point, x: nat, vs: Res<seq<Val>>, vs': Res<seq<Val>>)
    requires Ready0(P, F) && x in p.senv && x in p.ctx.direct && EnvAt(F, p.ctx, p.tenv, x, p.senv[x])
    requires vs.Ok? && StepAll(F, p, vs, vs')
    ensures var f := p.ctx.direct[x];
            ResRel(F, Apply(P, fuel, vs.store, p.senv[x].v, vs.value),
                   Apply(F, fuel, vs'.store, VClosure(f.fid, []), BodyVals(p.tenv, f.captures) + vs'.value))
    decreases fuel, 6
  {
    var f := p.ctx.direct[x];
    var first := BodyVals(p.tenv, f.captures);
    BodyValsSafe(p, vs'.store, f.captures);
    hide Inv, ProgOk, AllTame, StoreRel, ValRel, SafeVal, Apply;
    ApplyPrefix(F, fuel, vs'.store, f.fid, first, vs'.value);
    CallRel(P, F, fuel, p, vs.store, vs'.store, p.senv[x].v, VClosure(f.fid, first), vs.value, vs'.value);
  }

  lemma BodyValsSafe(p: Point, ts: Store, cs: seq<Captured>)
    requires SafeEnv(p.frozen, |ts|, p.tenv) && Holds(p.tenv, cs)
    ensures forall fid: nat :: SafeVal(p.frozen, |ts|, VClosure(fid, BodyVals(p.tenv, cs)))
  {
    var first := BodyVals(p.tenv, cs);
    forall k | 0 <= k < |first| ensures SafeVal(p.frozen, |ts|, first[k]) {
      assert SafeBind(p.frozen, |ts|, p.tenv[cs[k].local.id]);
    }
  }

  lemma {:induction false} SimDirectPipe(
    P: seq<Fun>, F: seq<Fun>, fuel: nat, p: Point, ss: Store, ts: Store, e: Expr, t: Expr)
    requires e.Pipe? && CallsDirectly(p.ctx.direct, e.piped) && Ready0(P, F) && At(P, F, p, e, t) && Inv(F, p, ss, ts)
    ensures ResRel(F, Eval(P, fuel, p.senv, ss, e), Eval(F, fuel, p.tenv, ts, t))
    decreases fuel, 0, e, 1
  {
    hide Inv, ProgOk, AllTame, StoreRel, SafeVal, EnvAt, EvalBlock, Apply;
    assert e.argument in Children(e) && e.piped in Children(e);
    assert Scoped(p.unit, p.taken, p.scope, p.own, e.piped);
    var x := e.piped.id;
    var f := p.ctx.direct[x];
    var last := t.arguments[|f.captures|];
    DirectHere(F, p, ss, ts, x);
    assert t.arguments == InBodies(f.captures) + [last];
    SimStep(P, F, fuel, p, ss, ts, e.argument, last);
    EvalInBodiesThen(F, fuel, p.tenv, ts, f.captures, [last]);
    EvalOne(F, fuel, p.tenv, ts, last);
    var r, r' := Eval(P, fuel, p.senv, ss, e.argument), Eval(F, fuel, p.tenv, ts, last);
    if r.Ok? && fuel > 0 {
      DirectApply(P, F, fuel - 1, p, x, Ok([r.value], r.store), Ok([r'.value], r'.store));
    }
  }

  // ----- lambdas, assignments, borrows -----

  lemma {:induction false} ReadAllRel(
    F: seq<Fun>, fuel: nat, p: Point, ss: Store, ts: Store, captures: seq<Local>, values: seq<Expr>)
    requires Inv(F, p, ss, ts) && Capturable(p.unit, p.scope, captures) && |values| == |captures|
    requires forall k | 0 <= k < |captures| ::
               values[k] == RewriteVar(p.ctx.direct, p.ctx.borrowed, captures[k].id, captures[k].ty)
    ensures ResAllRel(F, ReadAll(p.senv, ss, captures), EvalAll(F, fuel, p.tenv, ts, values))
    ensures ReadAll(p.senv, ss, captures).Ok? ==>
              |ReadAll(p.senv, ss, captures).value| == |captures| && EvalAll(F, fuel, p.tenv, ts, values).store == ts
    decreases |captures|
  {
    hide Inv, StoreRel, ValRel, RewriteVar;
    InvFacts(F, p, ss, ts);
    if captures != [] {
      VarRel(F, fuel, p, ss, ts, captures[0].id, captures[0].ty);
      ReadAllRel(F, fuel, p, ss, ts, captures[1..], values[1..]);
    }
  }

  lemma {:induction false} SimLambda(
    P: seq<Fun>, F: seq<Fun>, fuel: nat, p: Point, ss: Store, ts: Store, e: Expr, t: Expr)
    requires e.Lambda? && Ready0(P, F) && At(P, F, p, e, t) && Inv(F, p, ss, ts)
    ensures ResRel(F, Eval(P, fuel, p.senv, ss, e), Eval(F, fuel, p.tenv, ts, t))
    decreases fuel, 0, e, 1
  {
    hide Inv, ProgOk, AllTame, StoreRel, EvalBlock, Apply, SafeVal, SafeStore;
    InvFacts(F, p, ss, ts);
    ReadAllRel(F, fuel, p, ss, ts, e.captures, t.values);
  }

  lemma WriteRel(F: seq<Fun>, b: Bind, b': Bind, v: Val, v': Val, ss: Store, ts: Store)
    requires BindRel(F, b, b') && ValRel(F, v, v') && StoreRel(F, ss, ts)
    ensures ResRel(F, Write(b, v, ss), Write(b', v', ts))
  {
  }

  lemma OwnVar(F: seq<Fun>, p: Point, ss: Store, ts: Store, x: nat, ty: Ty)
    requires Inv(F, p, ss, ts) && x in p.own && x in p.scope
    ensures RewriteVar(p.ctx.direct, p.ctx.borrowed, x, ty) == Var(x, ty)
    ensures x in p.senv && x in p.tenv && BindRel(F, p.senv[x], p.tenv[x])
  {
    assert EnvAt(F, p.ctx, p.tenv, x, p.senv[x]);
  }

  /** Writing through a reference. */
  ghost function WriteThrough(F: seq<Fun>, fuel: nat, env: Env, s: Store, reference: Expr, v: Val): Res<Val> {
    match Eval(F, fuel, env, s, reference)
    case Timeout => Timeout
    case Stuck => Stuck
    case Ok(r, s') => if r.VRef? && r.exclusive then Write(r.to, v, s') else Stuck
  }

  lemma {:induction false} SimThrough(
    P: seq<Fun>, F: seq<Fun>, fuel: nat, p: Point, ss: Store, ts: Store, e: Expr, t: Expr, v: Val, v': Val)
    requires e.Deref? && Ready0(P, F) && At(P, F, p, e, t) && Inv(F, p, ss, ts) && ValRel(F, v, v')
    ensures t.Deref?
    ensures ResRel(F, WriteThrough(P, fuel, p.senv, ss, e.reference, v),
                   WriteThrough(F, fuel, p.tenv, ts, t.reference, v'))
    decreases fuel, 0, e, 2
  {
    hide Inv, ProgOk, AllTame, StoreRel, SafeVal, Tame, SafeStore, Eval;
    assert e.reference in Children(e);
    SimStep(P, F, fuel, p, ss, ts, e.reference, t.reference);
    var q, q' := Eval(P, fuel, p.senv, ss, e.reference), Eval(F, fuel, p.tenv, ts, t.reference);
    if q.Ok? && q.value.VRef? { WriteRel(F, q.value.to, q'.value.to, v, v', q.store, q'.store); }
  }

  lemma {:induction false} SimAssign(
    P: seq<Fun>, F: seq<Fun>, fuel: nat, p: Point, ss: Store, ts: Store, e: Expr, t: Expr)
    requires e.Assign? && Ready0(P, F) && At(P, F, p, e, t) && Inv(F, p, ss, ts)
    ensures ResRel(F, Eval(P, fuel, p.senv, ss, e), Eval(F, fuel, p.tenv, ts, t))
    decreases fuel, 0, e, 1
  {
    hide Inv, ProgOk, AllTame, StoreRel, SafeVal, Tame, SafeStore;
    assert e.target in Children(e) && e.newValue in Children(e);
    assert At(P, F, p, e.target, t.target);
    SimStep(P, F, fuel, p, ss, ts, e.newValue, t.newValue);
    var r, r' := Eval(P, fuel, p.senv, ss, e.newValue), Eval(F, fuel, p.tenv, ts, t.newValue);
    if r.Ok? {
      if e.target.Var? {
        var x := e.target.id;
        OwnVar(F, p, ss, ts, x, e.target.ty);
        WriteRel(F, p.senv[x], p.tenv[x], r.value, r'.value, r.store, r'.store);
      } else if e.target.Deref? {
        SimThrough(P, F, fuel, p, r.store, r'.store, e.target, t.target, r.value, r'.value);
      } else {
        NotAPlace(F, p.unit, p.ctx, e.target, t.target);
      }
    }
  }

  lemma NotAPlace(F: seq<Fun>, unit: Unit, ctx: Ctx, e: Expr, t: Expr)
    requires Rel(F, unit, ctx, e, t) && !e.Var? && !e.Deref?
    ensures !t.Var? && !t.Deref?
  {
  }

  lemma {:induction false} SimBorrow(
    P: seq<Fun>, F: seq<Fun>, fuel: nat, p: Point, ss: Store, ts: Store, e: Expr, t: Expr)
    requires e.Borrow? && Ready0(P, F) && At(P, F, p, e, t) && Inv(F, p, ss, ts)
    ensures ResRel(F, Eval(P, fuel, p.senv, ss, e), Eval(F, fuel, p.tenv, ts, t))
    decreases fuel, 0, e, 1
  {
    hide Inv, ProgOk, AllTame, StoreRel, SafeVal, Tame, SafeStore;
    assert e.place in Children(e);
    assert At(P, F, p, e.place, t.place);
    if e.place.Var? {
      BorrowVar(P, F, fuel, p, ss, ts, e, t);
    } else if e.place.Deref? {
      assert e.place.reference in Children(e.place);
      SimStep(P, F, fuel, p, ss, ts, e.place.reference, t.place.reference);
    } else {
      NotAPlace(F, p.unit, p.ctx, e.place, t.place);
      SimStep(P, F, fuel, p, ss, ts, e.place, t.place);
      var r, r' := Eval(P, fuel, p.senv, ss, e.place), Eval(F, fuel, p.tenv, ts, t.place);
      if r.Ok? { TemporaryRel(F, r.value, r'.value); }
    }
  }

  /** A reference to a temporary. */
  lemma TemporaryRel(F: seq<Fun>, v: Val, v': Val)
    requires ValRel(F, v, v')
    ensures ValRel(F, VRef(Imm(v), false), VRef(Imm(v'), false))
  {
    assert BindRel(F, Imm(v), Imm(v'));
  }

  lemma BorrowVar(P: seq<Fun>, F: seq<Fun>, fuel: nat, p: Point, ss: Store, ts: Store, e: Expr, t: Expr)
    requires e.Borrow? && e.place.Var? && At(P, F, p, e, t) && Inv(F, p, ss, ts)
    ensures ResRel(F, Eval(P, fuel, p.senv, ss, e), Eval(F, fuel, p.tenv, ts, t))
  {
    hide Inv, StoreRel, SafeVal, OnlyMutates;
    var x, ty := e.place.id, e.place.ty;
    assert Scoped(p.unit, p.taken, p.scope, p.own, e.place) && Rel(F, p.unit, p.ctx, e.place, t.place);
    InvFacts(F, p, ss, ts);
    InvVar(F, p, ss, ts, x);
    if x in p.ctx.direct {
      EvalInBodies(F, fuel, p.tenv, ts, p.ctx.direct[x].captures);
      assert !e.exclusive && t.place == Closure(p.ctx.direct[x].fid, InBodies(p.ctx.direct[x].captures), ty);
      TemporaryRel(F, p.senv[x].v, VClosure(p.ctx.direct[x].fid, BodyVals(p.tenv, p.ctx.direct[x].captures)));
    } else if x in p.ctx.borrowed {
      assert t.place == Deref(Var(x, Reference(ty, false)));
      assert Eval(F, fuel, p.tenv, ts, t.place.reference) == Ok(p.tenv[x].v, ts);
    }
  }

  // ----- blocks -----

  lemma {:induction false} SimBlock(
    P: seq<Fun>, F: seq<Fun>, fuel: nat, p: Point, ss: Store, ts: Store, e: Expr, t: Expr, i: nat)
    requires e.Block? && t.Block? && |t.bindings| == |e.bindings| && i <= |e.bindings| && p.unit.count == |P|
    requires ScopedBlock(p.unit, p.taken, p.scope, p.own, e, i) && RelBlock(F, p.unit, p.ctx, e, t, i)
    requires OnlyMutates(p.unit.mutated, e) && Ready0(P, F) && Inv(F, p, ss, ts)
    ensures ResRel(F, EvalBlock(P, fuel, p.senv, ss, e, i), EvalBlock(F, fuel, p.tenv, ts, t, i))
    decreases fuel, 0, e, 1, |e.bindings| - i
  {
    if i == |e.bindings| {
      assert Children(e)[|e.bindings|] == e.result;
      SimStep(P, F, fuel, p, ss, ts, e.result, t.result);
    } else if GroupLen(e.bindings, i) == Members(0) {
      SimPlain(P, F, fuel, p, ss, ts, e, t, i);
    } else {
      SimGroup(P, F, fuel, p, ss, ts, e, t, i);
    }
  }

  lemma {:induction false} SimPlain(
    P: seq<Fun>, F: seq<Fun>, fuel: nat, p: Point, ss: Store, ts: Store, e: Expr, t: Expr, i: nat)
    requires e.Block? && t.Block? && |t.bindings| == |e.bindings| && i < |e.bindings| && p.unit.count == |P|
    requires ScopedBlock(p.unit, p.taken, p.scope, p.own, e, i) && RelBlock(F, p.unit, p.ctx, e, t, i)
    requires OnlyMutates(p.unit.mutated, e) && Ready0(P, F) && Inv(F, p, ss, ts)
    requires GroupLen(e.bindings, i) == Members(0)
    ensures ResRel(F, EvalBlock(P, fuel, p.senv, ss, e, i), EvalBlock(F, fuel, p.tenv, ts, t, i))
    decreases fuel, 0, e, 1, |e.bindings| - i, 0
  {
    var local, value, value' := e.bindings[i].local, e.bindings[i].value, t.bindings[i].value;
    assert Children(e)[i] == value;
    PlainName(e.bindings, i);
    SimStep(P, F, fuel, p, ss, ts, value, value');
    RelTame(F, p.unit, p.ctx, value, value', p.unit.mutated);
    assert GroupLen(t.bindings, i) == Members(0);
    var r, r' := Eval(P, fuel, p.senv, ss, value), Eval(F, fuel, p.tenv, ts, value');
    if r.Ok? {
      assert [local][0].id !in p.taken;
      BindLocalInv(F, p, r.store, r'.store, local, r.value, r'.value);
      var (senv', ss') := BindLocal(p.senv, r.store, local, r.value);
      var (tenv', ts') := BindLocal(p.tenv, r'.store, local, r'.value);
      SimBlock(P, F, fuel, WithLocal(p, local, senv', tenv', |r'.store|), ss', ts', e, t, i + 1);
    }
  }

  lemma GroupStart(F: seq<Fun>, p: Point, e: Expr, t: Expr, i: nat) returns (count: nat)
    requires e.Block? && t.Block? && |t.bindings| == |e.bindings| && i < |e.bindings|
             && GroupLen(e.bindings, i) != Members(0)
    requires ScopedBlock(p.unit, p.taken, p.scope, p.own, e, i) && RelBlock(F, p.unit, p.ctx, e, t, i)
    ensures GroupLen(e.bindings, i) == Members(count) && count > 0
    ensures GroupHeader(p.unit, p.taken, p.scope, e.bindings[i..i + count])
    ensures RelGroup(F, p.unit, p.ctx, e.bindings[i..i + count], t.bindings[i..i + count])
    ensures var names := BoundIds(e.bindings[i..i + count]);
            ScopedBlock(p.unit, p.taken + names, p.scope + names, p.own + names, e, i + count)
    ensures RelBlock(F, p.unit, CtxAfter(F, p.ctx, e, t, i), e, t, i + count)
  {
    hide Rel, Scoped, RelGroup, GroupHeader;
    count := GroupLen(e.bindings, i).count;
    assert RelHead(F, p.unit, p.ctx, e, t, i) && ScopedHead(p.unit, p.taken, p.scope, p.own, e, i);
  }

  lemma {:induction false} SimGroup(
    P: seq<Fun>, F: seq<Fun>, fuel: nat, p: Point, ss: Store, ts: Store, e: Expr, t: Expr, i: nat)
    requires e.Block? && t.Block? && |t.bindings| == |e.bindings| && i < |e.bindings| && p.unit.count == |P|
    requires ScopedBlock(p.unit, p.taken, p.scope, p.own, e, i) && RelBlock(F, p.unit, p.ctx, e, t, i)
    requires OnlyMutates(p.unit.mutated, e) && Ready0(P, F) && Inv(F, p, ss, ts)
    requires GroupLen(e.bindings, i) != Members(0)
    ensures ResRel(F, EvalBlock(P, fuel, p.senv, ss, e, i), EvalBlock(F, fuel, p.tenv, ts, t, i))
    decreases fuel, 0, e, 1, |e.bindings| - i, 0
  {
    hide Inv, ProgOk, AllTame, OnlyMutates, EvalBlock, RelGroup, GroupHeader, StoreRel, ScopedBlock, RelBlock, CtxAfter,
      GroupLen, ResRel;
    var count := GroupStart(F, p, e, t, i);
    SimMembers(P, F, fuel, p, ss, ts, e, t, i, count);
  }

  lemma {:induction false} SimMembers(
    P: seq<Fun>, F: seq<Fun>, fuel: nat, p: Point, ss: Store, ts: Store, e: Expr, t: Expr, i: nat, count: nat)
    requires e.Block? && t.Block? && |t.bindings| == |e.bindings| && i < |e.bindings| && p.unit.count == |P|
    requires GroupLen(e.bindings, i) == Members(count) && count > 0
    requires GroupHeader(p.unit, p.taken, p.scope, e.bindings[i..i + count])
    requires RelGroup(F, p.unit, p.ctx, e.bindings[i..i + count], t.bindings[i..i + count])
    requires var names := BoundIds(e.bindings[i..i + count]);
             ScopedBlock(p.unit, p.taken + names, p.scope + names, p.own + names, e, i + count)
    requires RelBlock(F, p.unit, CtxAfter(F, p.ctx, e, t, i), e, t, i + count)
    requires OnlyMutates(p.unit.mutated, e) && Ready0(P, F) && Inv(F, p, ss, ts)
    ensures ResRel(F, EvalBlock(P, fuel, p.senv, ss, e, i), EvalBlock(F, fuel, p.tenv, ts, t, i))
    decreases fuel, 0, e, 1, |e.bindings| - i, 0, 0
  {
    hide Inv, ProgOk, AllTame, StoreRel, SafeVal, GroupHere, GroupHeader, RelGroup, CaptureBinds, ReadyAll, OnlyMutates,
      RelBlock, ScopedBlock, EvalBlock, ResRel, AtVals, BindGroup, BindClosures;
    var members, closures := e.bindings[i..i + count], t.bindings[i..i + count];
    var g := GroupMade(F, p, members, closures);
    assert closures[0] == t.bindings[i];
    var binds := GroupBinds(F, p, ss, ts, members, g);
    EvalMembers(P, fuel, p.senv, ss, e, i, count, binds);
    EvalClosures(F, fuel, p.tenv, ts, t, i, p.ctx, g, count);
    assert g.members[..count] == g.members;
    BindGroupInv(F, p, ss, ts, members, g, binds);
    var p' := WithGroup(p, g, binds, AtVals(p.ctx, p.tenv, ts, g.captured));
    SimBlock(P, F, fuel, p', ss, ts, e, t, i + count);
  }

  lemma EvalMembers(P: seq<Fun>, fuel: nat, env: Env, s: Store, e: Expr, i: nat, count: nat, binds: seq<Bind>)
    requires e.Block? && i < |e.bindings| && GroupLen(e.bindings, i) == Members(count) && count > 0
    requires CaptureBinds(env, s, GroupCaptures(e.bindings[i..i + count])) == Ok(binds, s)
    ensures EvalBlock(P, fuel, env, s, e, i)
            == EvalBlock(P, fuel, BindGroup(env, e.bindings[i..i + count], binds), s, e, i + count)
  {
  }

  lemma GroupMade(F: seq<Fun>, p: Point, members: seq<Binding>, closures: seq<Binding>) returns (g: Group)
    requires |members| == |closures| > 0
    requires forall k | 0 <= k < |members| :: members[k].value.Lambda?
    requires GroupHeader(p.unit, p.taken, p.scope, members) && RelGroup(F, p.unit, p.ctx, members, closures)
    ensures closures[0].value.Closure? && closures[0].value.lifted < |F|
            && F[closures[0].value.lifted].origin.FromGroup?
    ensures g == F[closures[0].value.lifted].origin.info && g.members == members && GroupHere(F, p, members, g)
    ensures forall j | 0 <= j < |members| ::
              closures[j] == Binding(members[j].local,
                                     Closure(g.first + j, RewriteAtBindings(p.ctx, g.captured),
                                             members[j].value.lambdaTy))
    ensures forall k | 0 <= k < |members| :: !members[k].local.mutable
  {
    g := F[closures[0].value.lifted].origin.info;
    forall j | 0 <= j < |members| ensures LiftedAs(F, g, j) {
      assert closures[j].local == members[j].local;
    }
  }

  lemma GroupBinds(
    F: seq<Fun>, p: Point, ss: Store, ts: Store, members: seq<Binding>, g: Group) returns (binds: seq<Bind>)
    requires Inv(F, p, ss, ts) && GroupHere(F, p, members, g)
    ensures CaptureBinds(p.senv, ss, GroupCaptures(members)) == Ok(binds, ss) && |binds| == |GroupCaptures(members)|
    ensures ReadyAll(p.ctx, p.tenv, ts, g.captured)
    ensures forall k | 0 <= k < |g.captured| :: g.captured[k].local.id !in BoundIds(members)
  {
    var captures := GroupCaptures(members);
    SourceCells(F, p, ss, ts);
    forall k | 0 <= k < |captures| ensures captures[k].id in p.senv { CapturesInScope(F, p, ss, ts, members, g, k); }
    CaptureBindsOk(p.senv, ss, captures);
    CaptureBindsStore(p.senv, ss, captures);
    binds := CaptureBinds(p.senv, ss, captures).value;
    forall q | 0 <= q < |g.captured|
      ensures Ready(p.ctx, p.tenv, ts, g.captured[q]) && g.captured[q].local.id !in BoundIds(members)
    {
      SharedReady(F, p, ss, ts, members, g, q);
    }
  }

  lemma CaptureBindsStore(env: Env, s: Store, captures: seq<Local>)
    ensures CaptureBinds(env, s, captures).Ok? ==> CaptureBinds(env, s, captures).store == s
  {
  }

  // ----- calls -----

  /** Running a body: the parameters are bound, and the body is evaluated. */
  lemma {:induction false} SimBody(
    P: seq<Fun>, F: seq<Fun>, fuel: nat, p: Point, ss: Store, ts: Store, parameters: seq<Local>, vals: seq<Val>,
    vals': seq<Val>,
    body: Expr, body': Expr)
    requires Ready0(P, F) && Inv(F, p, ss, ts) && p.unit.count == |P| && p.own == {} && p.frozen == {}
    requires Fresh(p.unit, p.taken, parameters) && |parameters| == |vals|
    requires ValsRel(F, vals, vals') && SafeAll({}, |ts|, vals')
    requires Scoped(p.unit, p.taken + IdSet(parameters), p.scope + IdSet(parameters), IdSet(parameters), body)
    requires OnlyMutates(p.unit.mutated, body) && Rel(F, p.unit, p.ctx, body, body')
    ensures var (senv, ss') := BindAll(p.senv, ss, parameters, vals);
            var (tenv, ts') := BindAll(p.tenv, ts, parameters, vals');
            var r, r' := Eval(P, fuel, senv, ss', body), Eval(F, fuel, tenv, ts', body');
            ResRel(F, r, r') && (r.Ok?
                                 ==> |ts| <= |r'.store| && SafeStore({}, r'.store) && SafeVal({}, |r'.store|, r'.value))
    decreases fuel, 1
  {
    hide Inv, ProgOk, AllTame, StoreRel, SafeVal, Scoped, Rel, OnlyMutates, Eval, ValRel, BindAll, Tame;
    var p' := BindAllInv(F, p, ss, ts, parameters, vals, vals');
    var (senv, ss') := BindAll(p.senv, ss, parameters, vals);
    var (tenv, ts') := BindAll(p.tenv, ts, parameters, vals');
    assert p'.own == IdSet(parameters);
    SimStep(P, F, fuel, p', ss', ts', body, body');
    var r' := Eval(F, fuel, tenv, ts', body');
    if r'.Ok? {
      InvFrame(F, p, ss, ts);
      BindAllSafe({}, p.tenv, ts, parameters, vals', {});
      Kept1(P, F, fuel, p', ss', ts', body, body');
      Thawed(p'.frozen, r'.store, r'.value);
    }
  }

  /** What is safe for some frozen cells is safe for none. */
  lemma Thawed(frozen: set<nat>, s: Store, v: Val)
    requires SafeStore(frozen, s) && SafeVal(frozen, |s|, v)
    ensures SafeStore({}, s) && SafeVal({}, |s|, v)
  {
    hide SafeVal;
    SafeFewer(frozen, {}, |s|, v);
    forall l | 0 <= l < |s| ensures SafeVal({}, |s|, s[l]) {
      SafeFewer(frozen, {}, |s|, s[l]);
    }
  }

  /** A function value that waits for more arguments. */
  lemma PartialRel(F: seq<Fun>, f: Val, f': Val, args: seq<Val>, args': seq<Val>)
    requires ValRel(F, f, f') && ValsRel(F, args, args') && (f.VClosure? || f.VLambda? || f.VRec?)
    ensures ValRel(F, WithArguments(f, args), WithArguments(f', args'))
  {
    if f.VRec? {
      var g := F[f'.fid].origin.info;
      var vals := f'.vals + args';
      forall k | 0 <= k < |f.binds| ensures CaptureRel(F, g, GroupCaptures(f.members)[k].id, f.binds[k], vals) {
        var x := GroupCaptures(f.members)[k].id;
        assert CaptureRel(F, g, x, f.binds[k], f'.vals);
        if x in g.direct {
          assert Select(g.captured, vals, g.direct[x].captures) == Select(g.captured, f'.vals, g.direct[x].captures);
        }
      }
    }
  }

  /** A call with enough arguments: `before` are the leading parameters that the frame of `p` stands for. */
  lemma {:induction false} SimRun(
    P: seq<Fun>, F: seq<Fun>, fuel: nat, p: Point, ss: Store, ts: Store, f: Val, f': Val, args: seq<Val>,
    args': seq<Val>,
    parameters: seq<Local>, body: Expr, body': Expr, before: seq<Local>, vals: seq<Val>, applied: seq<Val>,
    applied': seq<Val>)
    requires Ready0(P, F) && Inv(F, p, ss, ts) && p.unit.count == |P| && p.own == {} && p.frozen == {}
    requires CodeOf(P, f) == Code(parameters, body, p.senv, applied)
    requires CodeOf(F, f') == Code(before + parameters, body', map[], vals + applied')
    requires |before| == |vals| && BindAll(map[], ts, before, vals) == (p.tenv, ts)
    requires ValsRel(F, applied + args, applied' + args') && SafeAll({}, |ts|, applied' + args')
    requires |parameters| <= |applied + args|
    requires Fresh(p.unit, p.taken, parameters)
    requires Scoped(p.unit, p.taken + IdSet(parameters), p.scope + IdSet(parameters), IdSet(parameters), body)
    requires OnlyMutates(p.unit.mutated, body) && Rel(F, p.unit, p.ctx, body, body')
    ensures ResRel(F, Apply(P, fuel, ss, f, args), Apply(F, fuel, ts, f', args'))
    decreases fuel, 2
  {
    hide Inv, ProgOk, AllTame, StoreRel, SafeVal, ValRel, CodeOf, Scoped, Rel, OnlyMutates, Fresh, Eval;
    var all, all' := applied + args, applied' + args';
    var n := |parameters|;
    var now, now' := all[..n], all'[..n];
    assert vals + applied' + args' == vals + all';
    assert (vals + all')[..|before| + n] == vals + now';
    assert (vals + all')[|before| + n..] == all'[n..];
    BindAllConcat(map[], ts, before, parameters, vals, now');
    SimBody(P, F, fuel, p, ss, ts, parameters, now, now', body, body');
    var (senv, ss') := BindAll(p.senv, ss, parameters, now);
    var (tenv, ts') := BindAll(p.tenv, ts, parameters, now');
    var r, r' := Eval(P, fuel, senv, ss', body), Eval(F, fuel, tenv, ts', body');
    if r.Ok? && |all| > n && fuel > 0 {
      SafeAllGrows({}, |ts|, |r'.store|, all'[n..]);
      SimApply(P, F, fuel - 1, r.store, r'.store, r.value, r'.value, all[n..], all'[n..]);
    }
  }

  /** Calling related function values with related arguments gives related results. */
  lemma {:induction false} SimApply(
    P: seq<Fun>, F: seq<Fun>, fuel: nat, ss: Store, ts: Store, f: Val, f': Val, args: seq<Val>, args': seq<Val>)
    requires Ready0(P, F) && StoreRel(F, ss, ts) && ValRel(F, f, f') && ValsRel(F, args, args')
    requires SafeStore({}, ts) && SafeVal({}, |ts|, f') && SafeAll({}, |ts|, args')
    ensures ResRel(F, Apply(P, fuel, ss, f, args), Apply(F, fuel, ts, f', args'))
    decreases fuel, 4
  {
    match f
    case VClosure(_, _) => ApplyOriginal(P, F, fuel, ss, ts, f, f', args, args');
    case VLambda(_, _, _) => ApplyLambda(P, F, fuel, ss, ts, f, f', args, args');
    case VRec(_, _, _, _) => ApplyMember(P, F, fuel, ss, ts, f, f', args, args');
    case _ =>
  }

  lemma {:induction false} ApplyOriginal(
    P: seq<Fun>, F: seq<Fun>, fuel: nat, ss: Store, ts: Store, f: Val, f': Val, args: seq<Val>, args': seq<Val>)
    requires f.VClosure? && Ready0(P, F) && StoreRel(F, ss, ts) && ValRel(F, f, f') && ValsRel(F, args, args')
    requires SafeStore({}, ts) && SafeVal({}, |ts|, f') && SafeAll({}, |ts|, args')
    ensures ResRel(F, Apply(P, fuel, ss, f, args), Apply(F, fuel, ts, f', args'))
    decreases fuel, 3
  {
    hide AllTame, Rel, Scoped, Eval, OnlyMutates;
    assert FunOk(P, F, f.fid);
    PartialRel(F, f, f', args, args');
    var unit := F[f.fid].origin.unit;
    var parameters := P[f.fid].parameters;
    if |parameters| <= |f.vals + args| {
      var p := Point(unit, NO_CTX, {}, {}, {}, {}, map[], map[]);
      assert Inv(F, p, ss, ts);
      assert [] + parameters == parameters && [] + f'.vals == f'.vals;
      assert {} + IdSet(parameters) == IdSet(parameters);
      SimRun(P, F, fuel, p, ss, ts, f, f', args, args', parameters, P[f.fid].body, F[f.fid].body, [], [], f.vals,
             f'.vals);
    }
  }

  lemma {:induction false} ApplyLambda(
    P: seq<Fun>, F: seq<Fun>, fuel: nat, ss: Store, ts: Store, f: Val, f': Val, args: seq<Val>, args': seq<Val>)
    requires f.VLambda? && Ready0(P, F) && StoreRel(F, ss, ts) && ValRel(F, f, f') && ValsRel(F, args, args')
    requires SafeStore({}, ts) && SafeVal({}, |ts|, f') && SafeAll({}, |ts|, args')
    ensures ResRel(F, Apply(P, fuel, ss, f, args), Apply(F, fuel, ts, f', args'))
    decreases fuel, 3
  {
    hide AllTame, Rel, Scoped, Eval, OnlyMutates;
    assert FunOk(P, F, f'.fid);
    PartialRel(F, f, f', args, args');
    var lambda, unit := f.lambda, F[f'.fid].origin.unit;
    var taken :| LambdaOk(unit, lambda, taken);
    var n := |f.captured|;
    var vals, applied' := f'.vals[..n], f'.vals[n..];
    assert vals + applied' == f'.vals;
    if |lambda.parameters| <= |f.applied + args| {
      var p := LambdaFrame(F, unit, lambda, taken, ss, ts, f.captured, vals);
      SimRun(P, F, fuel, p, ss, ts, f, f', args, args', lambda.parameters, lambda.body, F[f'.fid].body,
             lambda.captures, vals, f.applied, applied');
    }
  }

  lemma {:induction false} ApplyMember(
    P: seq<Fun>, F: seq<Fun>, fuel: nat, ss: Store, ts: Store, f: Val, f': Val, args: seq<Val>, args': seq<Val>)
    requires f.VRec? && Ready0(P, F) && StoreRel(F, ss, ts) && ValRel(F, f, f') && ValsRel(F, args, args')
    requires SafeStore({}, ts) && SafeVal({}, |ts|, f') && SafeAll({}, |ts|, args')
    ensures ResRel(F, Apply(P, fuel, ss, f, args), Apply(F, fuel, ts, f', args'))
    decreases fuel, 3
  {
    var taken, g := MemberFacts(P, F, f, f');
    PartialRel(F, f, f', args, args');
    MemberCode(P, F, f, f', g, args, args');
    hide AllTame, ProgOk, GroupOk, Rel, Scoped, Eval, OnlyMutates, StoreRel, CaptureRel, SafeVal, SafeStore, Inv, Fresh,
      CodeOf, ValRel;
    var lambda := g.members[f.index].value;
    var n := |g.captured|;
    var vals, applied' := f'.vals[..n], f'.vals[n..];
    if |lambda.parameters| <= |f.applied + args| {
      var p := GroupFrame(P, F, taken, ss, ts, f, f');
      AppliedSafe(ts, f', args', n);
      SimRun(P, F, fuel, p, ss, ts, f, f', args, args', lambda.parameters, lambda.body, F[f'.fid].body,
             Parameters(g.captured), vals, f.applied, applied');
    }
  }

  lemma MemberCode(P: seq<Fun>, F: seq<Fun>, f: Val, f': Val, g: Group, args: seq<Val>, args': seq<Val>)
    requires f.VRec? && ValRel(F, f, f') && g == F[f'.fid].origin.info && ValsRel(F, args, args')
    requires f.index < |g.members| && g.members[f.index].value.Lambda?
    requires F[f'.fid].parameters == Parameters(g.captured) + g.members[f.index].value.parameters
    ensures f'.VClosure? && |g.captured| <= |f'.vals| && f.members == g.members
    ensures (forall k | 0 <= k < |f.members| :: f.members[k].value.Lambda?) && |f.binds| == |GroupCaptures(f.members)|
    ensures var lambda := g.members[f.index].value;
            CodeOf(P, f) == Code(lambda.parameters, lambda.body, MemberEnv(f.members, f.binds), f.applied)
    ensures CodeOf(F, f') == Code(F[f'.fid].parameters, F[f'.fid].body, map[],
                                  f'.vals[..|g.captured|] + f'.vals[|g.captured|..])
    ensures ValsRel(F, f.applied + args, f'.vals[|g.captured|..] + args')
  {
    assert f'.vals[..|g.captured|] + f'.vals[|g.captured|..] == f'.vals;
  }

  lemma AppliedSafe(ts: Store, f': Val, args': seq<Val>, n: nat)
    requires f'.VClosure? && n <= |f'.vals| && SafeVal({}, |ts|, f') && SafeAll({}, |ts|, args')
    ensures SafeAll({}, |ts|, f'.vals[n..] + args')
  {
  }

  /** What is known of the lifted function that stands for a member of a group. */
  lemma MemberFacts(P: seq<Fun>, F: seq<Fun>, f: Val, f': Val) returns (taken: set<nat>, g: Group)
    requires ProgOk(P, F) && f.VRec? && ValRel(F, f, f')
    ensures g == F[f'.fid].origin.info && g.unit.count == |P| && GroupOk(g, taken) && f.index < |g.members|
    ensures var lambda := g.members[f.index].value;
            && lambda.Lambda?
            && F[f'.fid].parameters == Parameters(g.captured) + lambda.parameters
            && Fresh(g.unit, taken + BoundIds(g.members), lambda.parameters)
            && Scoped(g.unit, taken + BoundIds(g.members) + IdSet(lambda.parameters),
                      IdSet(GroupCaptures(g.members)) + BoundIds(g.members) + IdSet(lambda.parameters),
                      IdSet(lambda.parameters), lambda.body)
            && OnlyMutates(g.unit.mutated, lambda.body)
            && Rel(F, g.unit, GroupCtx(g), lambda.body, F[f'.fid].body)
  {
    assert FunOk(P, F, f'.fid);
    g := F[f'.fid].origin.info;
    taken :| GroupOk(g, taken);
    assert MemberOk(g, taken, f.index);
  }
}

/**
  Lowered code is closed and environments fit: a function of the lowered program reads only its
  parameters and what it binds itself, at their types, and whoever calls or closes over a lifted
  function supplies exactly its captures, in the order and the mode in which it declares them.
 */
module LetRecClosed {
  import opened LetRecSyntax
  import opened LetRecEval
  import opened LetRecLowering
  import opened LetRecRelation
  import opened LetRecFrames
  import opened LetRecEntry
  import opened LetRecBinding
  import opened LetRecGrowth
  import opened LetRecStatic
  import opened LetRecSound
  import opened LetRecProgram

  // ----- closed code -----

  /** `value` supplies the local that the parameter is for: the local itself, what a reference to it
      reads, a reference to it, a reference passed on, or the lifted function of that name. */
  ghost predicate Provides(F: seq<Fun>, value: Expr, parameter: Local) {
    var x, ty := parameter.id, parameter.ty;
    || value == Var(x, ty)
    || value == Deref(Var(x, Reference(ty, false)))
    || (ty.Reference? && !ty.mutable && value == Borrow(Var(x, ty.inner), false))
    || (ty.Reference? && !ty.mutable && value == Borrow(Deref(Var(x, ty)), false))
    || (value.Closure? && value.closureTy == ty && value.lifted < |F| && F[value.lifted].origin.FromGroup?
        && var g, j := F[value.lifted].origin.info, F[value.lifted].origin.index;
        j < |g.members| && g.members[j].local.id == x)
  }

  /** `values` are the captures of the function `fid`, one for each of its leading parameters. */
  ghost predicate Supplies(F: seq<Fun>, fid: nat, values: seq<Expr>) {
    && fid < |F|
    && |values| == F[fid].captureCount <= |F[fid].parameters|
    && (forall k | 0 <= k < |values| :: Provides(F, values[k], F[fid].parameters[k]))
  }

  /** `e` reads only locals of `scope`, at their types, and supplies the functions it mentions. */
  ghost predicate Closed(F: seq<Fun>, scope: map<nat, Ty>, e: Expr)
    decreases e
  {
    match e
    case Literal(_) => true
    case Var(x, ty) => x in scope && scope[x] == ty
    case FunctionRef(fid) => Supplies(F, fid, [])
    case Binary(_, left, right) => Closed(F, scope, left) && Closed(F, scope, right)
    case Pipe(argument, piped) => Closed(F, scope, argument) && Closed(F, scope, piped)
    case Call(callee, arguments) =>
      && ClosedAll(F, scope, arguments)
      && (if callee.FunctionRef?
          then callee.fid < |F| && F[callee.fid].captureCount <= |arguments|
               && Supplies(F, callee.fid, arguments[..F[callee.fid].captureCount])
          else Closed(F, scope, callee))
    case If(condition, thenBranch, elseBranch) =>
      Closed(F, scope, condition) && Closed(F, scope, thenBranch) && Closed(F, scope, elseBranch)
    case Lambda(_, _, _, _, _) => false
    case Closure(lifted, values, _) => Supplies(F, lifted, values) && ClosedAll(F, scope, values)
    case Block(_, _) => ClosedBlock(F, scope, e, 0)
    case Assign(target, newValue) => Closed(F, scope, target) && Closed(F, scope, newValue)
    case Borrow(place, _) => Closed(F, scope, place)
    case Deref(reference) => Closed(F, scope, reference)
  }

  ghost predicate ClosedAll(F: seq<Fun>, scope: map<nat, Ty>, es: seq<Expr>)
    decreases es
  {
    forall k | 0 <= k < |es| :: Closed(F, scope, es[k])
  }

  ghost predicate ClosedBlock(F: seq<Fun>, scope: map<nat, Ty>, block: Expr, i: nat)
    requires block.Block? && i <= |block.bindings|
    decreases block, |block.bindings| - i
  {
    if i == |block.bindings| then Closed(F, scope, block.result)
    else
      var b := block.bindings[i];
      Closed(F, scope, b.value) && ClosedBlock(F, scope[b.local.id := b.local.ty], block, i + 1)
  }

  function ScopeOf(locals: seq<Local>): map<nat, Ty> {
    if locals == [] then map[]
    else
      var last := locals[|locals| - 1];
      ScopeOf(locals[..|locals| - 1])[last.id := last.ty]
  }

  /** The function `fid` is closed: its parameters are all that it starts from. */
  ghost predicate ClosedFun(F: seq<Fun>, fid: nat)
    requires fid < |F|
  {
    F[fid].captureCount <= |F[fid].parameters| && Closed(F, ScopeOf(F[fid].parameters), F[fid].body)
  }

  // ----- what the lowered frame holds -----

  /** The frame holds `x`, as a reference where it is borrowed. */
  ghost predicate Held(unit: Unit, ctx: Ctx, scope': map<nat, Ty>, x: nat) {
    && x in unit.types && x in scope'
    && scope'[x] == (if x in ctx.borrowed then Reference(unit.types[x], false) else unit.types[x])
  }

  ghost predicate HeldAll(unit: Unit, ctx: Ctx, scope': map<nat, Ty>, cs: seq<Captured>) {
    forall k | 0 <= k < |cs| :: Held(unit, ctx, scope', cs[k].local.id)
  }

  /** A point of a lowered body: the frame holds the visible locals, and the captures of the functions
      that can be called directly. */
  ghost predicate Fitting(
    F: seq<Fun>, unit: Unit, ctx: Ctx, taken: set<nat>, scope: set<nat>, own: set<nat>, scope': map<nat, Ty>)
  {
    && CtxOk(unit, ctx, taken, own)
    && AllLift(F, ctx.callable)
    && scope <= taken
    && (forall x | x in scope && x !in ctx.direct :: Held(unit, ctx, scope', x))
    && (forall x | x in ctx.callable :: HeldAll(unit, ctx, scope', ctx.callable[x].captures))
  }

  lemma DirectClosed(
    F: seq<Fun>, unit: Unit, ctx: Ctx, taken: set<nat>, scope: set<nat>, own: set<nat>, scope': map<nat, Ty>, x: nat)
    requires Fitting(F, unit, ctx, taken, scope, own, scope') && x in ctx.direct
    ensures var f := ctx.direct[x];
            && f.fid < |F| && F[f.fid].captureCount == |f.captures|
            && Supplies(F, f.fid, InBodies(f.captures)) && ClosedAll(F, scope', InBodies(f.captures))
            && F[f.fid].origin.FromGroup?
            && F[f.fid].origin.index < |F[f.fid].origin.info.members|
            && F[f.fid].origin.info.members[F[f.fid].origin.index].local.id == x
  {
    var cs := ctx.direct[x].captures;
    assert ctx.callable[x] == ctx.direct[x];
    assert Lifts(F, x, ctx.callable[x]) && HeldAll(unit, ctx, scope', cs);
    assert CallableOk(unit, ctx, taken, x);
    forall k | 0 <= k < |cs| ensures Closed(F, scope', InBodies(cs)[k]) {
      assert CapturedOk(unit, cs[k]) && Held(unit, ctx, scope', cs[k].local.id);
    }
  }

  /** A local, as a lowered body reads it. */
  lemma VarClosed(
    F: seq<Fun>, unit: Unit, ctx: Ctx, taken: set<nat>, scope: set<nat>, own: set<nat>, scope': map<nat, Ty>,
    local: Local)
    requires Fitting(F, unit, ctx, taken, scope, own, scope') && local.id in scope && Typed(unit, local)
    ensures var t := RewriteVar(ctx.direct, ctx.borrowed, local.id, local.ty);
            Closed(F, scope', t) && Provides(F, t, local)
  {
    if local.id in ctx.direct {
      DirectClosed(F, unit, ctx, taken, scope, own, scope', local.id);
    }
  }

  /** A capture, as the closure of a group takes it. */
  lemma CaptureClosed(F: seq<Fun>, unit: Unit, ctx: Ctx, scope': map<nat, Ty>, c: Captured)
    requires Held(unit, ctx, scope', c.local.id) && CapturedOk(unit, c) && c.local.id !in ctx.direct
    requires c.local.id in ctx.borrowed ==> c.borrowed && ctx.borrowed[c.local.id] == c.local.ty
    ensures Closed(F, scope', RewriteAtBinding(ctx, c)) && Provides(F, RewriteAtBinding(ctx, c), Parameter(c))
  {
    var t := RewriteVar(ctx.direct, ctx.borrowed, c.local.id, c.local.ty);
    if c.local.id in ctx.borrowed {
      assert t == Deref(Var(c.local.id, Reference(c.local.ty, false)));
      assert Closed(F, scope', t.reference);
    }
    assert Closed(F, scope', t);
  }

  // ----- binding names -----

  lemma FittingLocal(
    F: seq<Fun>, unit: Unit, ctx: Ctx, taken: set<nat>, scope: set<nat>, own: set<nat>, scope': map<nat, Ty>,
    local: Local)
    requires Fitting(F, unit, ctx, taken, scope, own, scope') && local.id !in taken && Typed(unit, local)
    ensures var x := local.id;
            Fitting(F, unit, ctx, taken + {x}, scope + {x}, own + {x}, scope'[x := local.ty])
  {
    hide AllLift;
    var x := local.id;
    CtxWithNames(unit, ctx, taken, own, {x}, {x});
    forall y | y in ctx.callable ensures HeldAll(unit, ctx, scope'[x := local.ty], ctx.callable[y].captures) {
      assert CallableOk(unit, ctx, taken, y) && HeldAll(unit, ctx, scope', ctx.callable[y].captures);
    }
  }

  /** The scope with the names of `bindings` in it. */
  function ScopeWith(scope': map<nat, Ty>, bindings: seq<Binding>): map<nat, Ty> {
    if bindings == [] then scope'
    else
      var last := bindings[|bindings| - 1].local;
      ScopeWith(scope', bindings[..|bindings| - 1])[last.id := last.ty]
  }

  lemma {:induction false} ScopeWithKeeps(scope': map<nat, Ty>, bindings: seq<Binding>, x: nat)
    requires x !in BoundIds(bindings) && x in scope'
    ensures x in ScopeWith(scope', bindings) && ScopeWith(scope', bindings)[x] == scope'[x]
    decreases |bindings|
  {
    if bindings != [] {
      BoundIdsAppend(bindings);
      ScopeWithKeeps(scope', bindings[..|bindings| - 1], x);
    }
  }

  ghost predicate NewNames(unit: Unit, taken: set<nat>, bindings: seq<Binding>) {
    DistinctNames(bindings) && forall k | 0 <= k < |bindings| ::
      bindings[k].local.id !in taken && Typed(unit, bindings[k].local)
  }

  lemma {:induction false} FittingNames(
    F: seq<Fun>, unit: Unit, ctx: Ctx, taken: set<nat>, scope: set<nat>, own: set<nat>, scope': map<nat, Ty>,
    bindings: seq<Binding>)
    requires Fitting(F, unit, ctx, taken, scope, own, scope') && NewNames(unit, taken, bindings)
    ensures var names := BoundIds(bindings);
            Fitting(F, unit, ctx, taken + names, scope + names, own + names, ScopeWith(scope', bindings))
    decreases |bindings|
  {
    hide Fitting;
    if bindings == [] {
      assert taken + BoundIds(bindings) == taken && scope + BoundIds(bindings) == scope
             && own + BoundIds(bindings) == own;
    } else {
      var front, last := bindings[..|bindings| - 1], bindings[|bindings| - 1].local;
      var names := BoundIds(front);
      FittingNames(F, unit, ctx, taken, scope, own, scope', front);
      BoundIdsAppend(bindings);
      FittingLocal(F, unit, ctx, taken + names, scope + names, own + names, ScopeWith(scope', front), last);
      assert taken + names + {last.id} == taken + BoundIds(bindings);
      assert scope + names + {last.id} == scope + BoundIds(bindings);
      assert own + names + {last.id} == own + BoundIds(bindings);
    }
  }

  /** The binding `i + k` is closed where the bindings from `i` on have been bound. */
  ghost predicate ValueClosed(F: seq<Fun>, scope': map<nat, Ty>, t: Expr, i: nat, k: nat)
    requires t.Block? && i + k < |t.bindings|
  {
    Closed(F, ScopeWith(scope', t.bindings[i..i + k]), t.bindings[i + k].value)
  }

  /** A block that binds closed values one after the other, and is closed from there on. */
  lemma {:induction false} UnrollBlock(F: seq<Fun>, scope': map<nat, Ty>, t: Expr, i: nat, j: nat)
    requires t.Block? && i + j <= |t.bindings|
    requires forall k | 0 <= k < j :: ValueClosed(F, scope', t, i, k)
    requires ClosedBlock(F, ScopeWith(scope', t.bindings[i..i + j]), t, i + j)
    ensures ClosedBlock(F, scope', t, i)
    decreases j
  {
    hide Closed;
    if j == 0 {
      assert t.bindings[i..i] == [];
    } else {
      assert t.bindings[i..i + j][..j - 1] == t.bindings[i..i + (j - 1)];
      assert ValueClosed(F, scope', t, i, j - 1);
      UnrollBlock(F, scope', t, i, j - 1);
    }
  }

  // ----- groups -----

  lemma GroupAtCtx(unit: Unit, ctx: Ctx, taken: set<nat>, scope: set<nat>, own: set<nat>, g: Group)
    requires CtxOk(unit, ctx, taken, own) && scope <= taken && g.unit == unit
    requires forall k | 0 <= k < |g.members| :: g.members[k].value.Lambda?
    requires GroupHeader(unit, taken, scope, g.members)
    requires g == GroupOf(g.members, g.first, ctx.callable, g.boundIn, unit)
    ensures GroupAt(g, ctx.callable, taken, scope)
  {
    hide GroupOf, GroupHeader;
    forall x | x in ctx.callable ensures x in taken && CapturesOk(unit, ctx.callable, taken, ctx.callable[x].captures) {
      assert CallableOk(unit, ctx, taken, x);
    }
  }

  /** The frame that binds a group holds the captures of the group. */
  lemma GroupHeld(
    F: seq<Fun>, unit: Unit, ctx: Ctx, taken: set<nat>, scope: set<nat>, own: set<nat>, scope': map<nat, Ty>, g: Group,
    q: nat)
    requires Fitting(F, unit, ctx, taken, scope, own, scope') && GroupAt(g, ctx.callable, taken, scope)
             && g.unit == unit
    requires q < |g.captured|
    ensures var c := g.captured[q];
            && Held(unit, ctx, scope', c.local.id) && CapturedOk(unit, c) && c.local.id !in ctx.direct
            && c.local.id !in BoundIds(g.members) && c.local.id in taken
            && (c.local.id in ctx.borrowed ==> c.borrowed && ctx.borrowed[c.local.id] == c.local.ty)
  {
    CapturedStatic(g, ctx.callable, taken, scope, q);
    var captures := GroupCaptures(g.members);
    SharedFrom(captures, ctx.callable);
    var local := Shared(captures, ctx.callable)[q];
    assert g.captured[q] == NewCaptured(local);
    assert SharedBy(captures, ctx.callable, local);
    if local in captures && local.id !in ctx.callable {
      assert local.id in scope;
    } else {
      var k :| 0 <= k < |captures| && captures[k].id in ctx.callable
        && local in CapturedLocals(ctx.callable[captures[k].id].captures);
      var cs := ctx.callable[captures[k].id].captures;
      assert HeldAll(unit, ctx, scope', cs);
      var m :| 0 <= m < |cs| && CapturedLocals(cs)[m] == local;
      assert cs[m].local == local;
    }
  }

  /** The closure of a member is closed, whichever names of the group are bound already. */
  lemma MemberClosed(
    P: seq<Fun>, F: seq<Fun>, unit: Unit, ctx: Ctx, taken: set<nat>, scope: set<nat>, own: set<nat>,
    scope': map<nat, Ty>, g: Group, j: nat,
    bound: seq<Binding>)
    requires Fitting(F, unit, ctx, taken, scope, own, scope') && GroupAt(g, ctx.callable, taken, scope)
             && g.unit == unit
    requires BoundIds(bound) <= BoundIds(g.members)
    requires j < |g.members| && g.members[j].value.Lambda? && g.first + j < |F|
             && F[g.first + j].origin == FromGroup(g, j) && FunOk(P, F, g.first + j)
    ensures Closed(F, ScopeWith(scope', bound),
                   Closure(g.first + j, RewriteAtBindings(ctx, g.captured), g.members[j].value.lambdaTy))
  {
    hide Fitting, GroupAt, Closed, FunOk, Provides, GroupOf, Held, CapturedOk;
    var values, within := RewriteAtBindings(ctx, g.captured), ScopeWith(scope', bound);
    MemberParameters(P, F, g, j);
    forall q | 0 <= q < |values|
      ensures Closed(F, within, values[q]) && Provides(F, values[q], F[g.first + j].parameters[q])
    {
      var c := g.captured[q];
      GroupHeld(F, unit, ctx, taken, scope, own, scope', g, q);
      HeldWithin(unit, ctx, scope', bound, c.local.id);
      CaptureClosed(F, unit, ctx, within, c);
    }
    ClosureClosed(F, within, g.first + j, values, g.members[j].value.lambdaTy);
  }

  lemma HeldWithin(unit: Unit, ctx: Ctx, scope': map<nat, Ty>, bound: seq<Binding>, x: nat)
    requires Held(unit, ctx, scope', x) && x !in BoundIds(bound)
    ensures Held(unit, ctx, ScopeWith(scope', bound), x)
  {
    ScopeWithKeeps(scope', bound, x);
  }

  lemma MemberParameters(P: seq<Fun>, F: seq<Fun>, g: Group, j: nat)
    requires j < |g.members| && g.first + j < |F| && F[g.first + j].origin == FromGroup(g, j)
             && FunOk(P, F, g.first + j)
    ensures F[g.first + j].captureCount == |g.captured| <= |F[g.first + j].parameters|
    ensures forall q | 0 <= q < |g.captured| :: F[g.first + j].parameters[q] == Parameter(g.captured[q])
  {
    hide Rel, GroupOk, AllLift, GroupLifted;
  }

  lemma ClosureClosed(F: seq<Fun>, scope': map<nat, Ty>, fid: nat, values: seq<Expr>, ty: Ty)
    requires Supplies(F, fid, values) && ClosedAll(F, scope', values)
    ensures Closed(F, scope', Closure(fid, values, ty))
  {
  }

  /** After a group, with its names bound. */
  lemma FittingAfterGroup(
    F: seq<Fun>, unit: Unit, ctx: Ctx, taken: set<nat>, scope: set<nat>, own: set<nat>, scope': map<nat, Ty>, g: Group)
    requires Fitting(F, unit, ctx, taken, scope, own, scope') && GroupAt(g, ctx.callable, taken, scope)
             && g.unit == unit
    requires AllLift(F, AfterGroup(ctx, g).callable)
    ensures var names := BoundIds(g.members);
            Fitting(F, unit, AfterGroup(ctx, g), taken + names, scope + names, own + names,
                    ScopeWith(scope', g.members))
  {
    hide AllLift, Lifts, GroupOf, GroupAt;
    var names, ctx', within := BoundIds(g.members), AfterGroup(ctx, g), ScopeWith(scope', g.members);
    HeaderNames(g, ctx.callable, taken, scope);
    FittingNames(F, unit, ctx, taken, scope, own, scope', g.members);
    AfterGroupCtxOk(unit, ctx, taken, scope, own, g);
    forall x | x in ctx'.callable ensures HeldAll(unit, ctx', within, ctx'.callable[x].captures) {
      AfterCallable(ctx, g, x);
      if x in names && x !in ctx.callable {
        forall q | 0 <= q < |g.captured| ensures Held(unit, ctx', within, g.captured[q].local.id) {
          GroupHeld(F, unit, ctx, taken, scope, own, scope', g, q);
          ScopeWithKeeps(scope', g.members, g.captured[q].local.id);
        }
      } else {
        assert x in taken;
        assert HeldAll(unit, ctx, within, ctx.callable[x].captures);
      }
    }
  }

  lemma HeaderNames(g: Group, callable: map<nat, RecursiveFunction>, taken: set<nat>, scope: set<nat>)
    requires GroupAt(g, callable, taken, scope)
    ensures NewNames(g.unit, taken, g.members) && BoundIds(g.members) !! taken
  {
    hide GroupOf, CallOk;
    NamesFresh(g.unit, taken, scope, g.members);
  }

  lemma AfterGroupCtxOk(unit: Unit, ctx: Ctx, taken: set<nat>, scope: set<nat>, own: set<nat>, g: Group)
    requires CtxOk(unit, ctx, taken, own) && GroupAt(g, ctx.callable, taken, scope) && g.unit == unit
    ensures CtxOk(unit, AfterGroup(ctx, g), taken + BoundIds(g.members), own + BoundIds(g.members))
  {
    hide GroupOf, GroupAt;
    var names, ctx' := BoundIds(g.members), AfterGroup(ctx, g);
    HeaderNames(g, ctx.callable, taken, scope);
    CtxWithNames(unit, ctx, taken, own, names, names);
    if Unchanged(g.captured, unit.mutated) {
      BindEachAt(ctx.callable, g.members, LiftedFunctions(|g.members|, g.first, g.captured, g.boundIn));
      forall q | 0 <= q < |g.captured|
        ensures CapturedOk(unit, g.captured[q]) && g.captured[q].local.id in taken
                && g.captured[q].local.id !in ctx'.callable
      {
        CapturedStatic(g, ctx.callable, taken, scope, q);
      }
      forall x | x in ctx'.callable ensures CallableOk(unit, ctx', taken + names, x) {
        if x !in names {
          assert CallableOk(unit, ctx, taken, x);
        } else {
          assert ctx'.callable[x].captures == g.captured;
        }
      }
    }
  }

  // ----- expressions -----

  /** What stands for a well-scoped expression is closed. */
  lemma {:induction false} RelClosed(
    P: seq<Fun>, F: seq<Fun>, unit: Unit, ctx: Ctx, taken: set<nat>, scope: set<nat>, own: set<nat>,
    scope': map<nat, Ty>, e: Expr, t: Expr)
    requires ProgOk(P, F) && unit.count == |P|
    requires Fitting(F, unit, ctx, taken, scope, own, scope') && Scoped(unit, taken, scope, own, e)
             && Rel(F, unit, ctx, e, t)
    ensures Closed(F, scope', t)
    decreases e, 2
  {
    hide Fitting, ProgOk;
    match e
    case Literal(_) =>
    case Var(x, ty) => VarClosed(F, unit, ctx, taken, scope, own, scope', Local(x, ty, false));
    case FunctionRef(fid) => SourceSupplied(P, F, fid);
    case Binary(_, left, right) =>
      RelClosed(P, F, unit, ctx, taken, scope, own, scope', left, t.left);
      RelClosed(P, F, unit, ctx, taken, scope, own, scope', right, t.right);
    case Pipe(argument, piped) =>
      if CallsDirectly(ctx.direct, piped) {
        var f := ctx.direct[piped.id];
        RelClosed(P, F, unit, ctx, taken, scope, own, scope', argument, t.arguments[|f.captures|]);
        DirectCallClosed(F, unit, ctx, taken, scope, own, scope', piped.id, t, 1);
      } else {
        RelClosed(P, F, unit, ctx, taken, scope, own, scope', argument, t.argument);
        RelClosed(P, F, unit, ctx, taken, scope, own, scope', piped, t.piped);
      }
    case Call(_, _) => CallClosed(P, F, unit, ctx, taken, scope, own, scope', e, t);
    case If(condition, thenBranch, elseBranch) =>
      RelClosed(P, F, unit, ctx, taken, scope, own, scope', condition, t.condition);
      RelClosed(P, F, unit, ctx, taken, scope, own, scope', thenBranch, t.thenBranch);
      RelClosed(P, F, unit, ctx, taken, scope, own, scope', elseBranch, t.elseBranch);
    case Lambda(_, _, _, _, _) => LambdaClosed(P, F, unit, ctx, taken, scope, own, scope', e, t);
    case Closure(_, _, _) => assert false;
    case Block(_, _) => BlockClosed(P, F, unit, ctx, taken, scope, own, scope', e, t, 0);
    case Assign(target, newValue) =>
      RelClosed(P, F, unit, ctx, taken, scope, own, scope', target, t.target);
      RelClosed(P, F, unit, ctx, taken, scope, own, scope', newValue, t.newValue);
    case Borrow(place, _) => RelClosed(P, F, unit, ctx, taken, scope, own, scope', place, t.place);
    case Deref(reference) => RelClosed(P, F, unit, ctx, taken, scope, own, scope', reference, t.reference);
  }

  lemma SourceSupplied(P: seq<Fun>, F: seq<Fun>, fid: nat)
    requires ProgOk(P, F) && fid < |P|
    ensures fid < |F| && F[fid].captureCount == 0 && Supplies(F, fid, [])
  {
    hide Rel, Scoped, OnlyMutates;
    assert FunOk(P, F, fid);
  }

  lemma {:induction false} AllClosed(
    P: seq<Fun>, F: seq<Fun>, unit: Unit, ctx: Ctx, taken: set<nat>, scope: set<nat>, own: set<nat>,
    scope': map<nat, Ty>,
    es: seq<Expr>, ts: seq<Expr>)
    requires ProgOk(P, F) && unit.count == |P|
    requires Fitting(F, unit, ctx, taken, scope, own, scope') && ScopedAll(unit, taken, scope, own, es)
             && RelAll(F, unit, ctx, es, ts)
    ensures ClosedAll(F, scope', ts)
    decreases es
  {
    if es != [] {
      hide Fitting, ProgOk, Scoped, Rel, Closed;
      RelClosed(P, F, unit, ctx, taken, scope, own, scope', es[0], ts[0]);
      AllClosed(P, F, unit, ctx, taken, scope, own, scope', es[1..], ts[1..]);
      assert forall k | 1 <= k < |ts| :: ts[k] == ts[1..][k - 1];
    }
  }

  /** A direct call passes on the captures, and then the arguments. */
  lemma DirectCallClosed(
    F: seq<Fun>, unit: Unit, ctx: Ctx, taken: set<nat>, scope: set<nat>, own: set<nat>, scope': map<nat, Ty>, x: nat,
    t: Expr, count: nat)
    requires Fitting(F, unit, ctx, taken, scope, own, scope') && x in ctx.direct
             && IsDirectCall(ctx.direct[x], t, count)
    requires var n := |ctx.direct[x].captures|; forall k | n <= k < |t.arguments| :: Closed(F, scope', t.arguments[k])
    ensures Closed(F, scope', t)
  {
    hide Fitting;
    DirectClosed(F, unit, ctx, taken, scope, own, scope', x);
    var n := |ctx.direct[x].captures|;
    forall k | 0 <= k < |t.arguments| ensures Closed(F, scope', t.arguments[k]) {
      if k < n { assert t.arguments[k] == t.arguments[..n][k]; }
    }
  }

  lemma {:induction false} CallClosed(
    P: seq<Fun>, F: seq<Fun>, unit: Unit, ctx: Ctx, taken: set<nat>, scope: set<nat>, own: set<nat>,
    scope': map<nat, Ty>, e: Expr, t: Expr)
    requires e.Call? && ProgOk(P, F) && unit.count == |P|
    requires Fitting(F, unit, ctx, taken, scope, own, scope') && Scoped(unit, taken, scope, own, e)
             && Rel(F, unit, ctx, e, t)
    ensures Closed(F, scope', t)
    decreases e, 1
  {
    hide Fitting, ProgOk;
    if CallsDirectly(ctx.direct, e.callee) {
      var f := ctx.direct[e.callee.id];
      var rest := t.arguments[|f.captures|..];
      AllClosed(P, F, unit, ctx, taken, scope, own, scope', e.arguments, rest);
      assert forall k | |f.captures| <= k < |t.arguments| :: t.arguments[k] == rest[k - |f.captures|];
      DirectCallClosed(F, unit, ctx, taken, scope, own, scope', e.callee.id, t, |e.arguments|);
    } else {
      AllClosed(P, F, unit, ctx, taken, scope, own, scope', e.arguments, t.arguments);
      RelClosed(P, F, unit, ctx, taken, scope, own, scope', e.callee, t.callee);
      if t.callee.FunctionRef? {
        SourceSupplied(P, F, t.callee.fid);
      }
    }
  }

  lemma LambdaClosed(
    P: seq<Fun>, F: seq<Fun>, unit: Unit, ctx: Ctx, taken: set<nat>, scope: set<nat>, own: set<nat>,
    scope': map<nat, Ty>, e: Expr, t: Expr)
    requires e.Lambda? && ProgOk(P, F) && unit.count == |P|
    requires Fitting(F, unit, ctx, taken, scope, own, scope') && Scoped(unit, taken, scope, own, e)
             && Rel(F, unit, ctx, e, t)
    ensures Closed(F, scope', t)
  {
    hide Fitting, Closed, ProgOk;
    LambdaParameters(P, F, t.lifted, e);
    forall k | 0 <= k < |t.values|
      ensures Closed(F, scope', t.values[k]) && Provides(F, t.values[k], F[t.lifted].parameters[k])
    {
      VarClosed(F, unit, ctx, taken, scope, own, scope', e.captures[k]);
    }
    ClosureClosed(F, scope', t.lifted, t.values, t.closureTy);
  }

  lemma LambdaParameters(P: seq<Fun>, F: seq<Fun>, fid: nat, lambda: Expr)
    requires ProgOk(P, F) && fid < |F| && F[fid].origin.FromLambda? && F[fid].origin.lambda == lambda && lambda.Lambda?
    ensures F[fid].captureCount == |lambda.captures| && F[fid].parameters == lambda.captures + lambda.parameters
  {
    hide Rel, Scoped, OnlyMutates;
    assert FunOk(P, F, fid);
  }

  // ----- blocks -----

  lemma {:induction false} BlockClosed(
    P: seq<Fun>, F: seq<Fun>, unit: Unit, ctx: Ctx, taken: set<nat>, scope: set<nat>, own: set<nat>,
    scope': map<nat, Ty>, e: Expr, t: Expr, i: nat)
    requires e.Block? && t.Block? && |t.bindings| == |e.bindings| && i <= |e.bindings| && ProgOk(P, F)
             && unit.count == |P|
    requires Fitting(F, unit, ctx, taken, scope, own, scope')
    requires ScopedBlock(unit, taken, scope, own, e, i) && RelBlock(F, unit, ctx, e, t, i)
    ensures ClosedBlock(F, scope', t, i)
    decreases e, 1, |e.bindings| - i, 1
  {
    hide Fitting, Closed, ProgOk, GroupLen, CtxAfter, Scoped, Rel, HeadNames, Width;
    if i == |e.bindings| {
      RelClosed(P, F, unit, ctx, taken, scope, own, scope', e.result, t.result);
    } else if GroupLen(e.bindings, i) == Members(0) {
      PlainClosed(P, F, unit, ctx, taken, scope, own, scope', e, t, i);
    } else {
      GroupClosed(P, F, unit, ctx, taken, scope, own, scope', e, t, i);
    }
  }

  lemma {:induction false} PlainClosed(
    P: seq<Fun>, F: seq<Fun>, unit: Unit, ctx: Ctx, taken: set<nat>, scope: set<nat>, own: set<nat>,
    scope': map<nat, Ty>, e: Expr, t: Expr, i: nat)
    requires e.Block? && t.Block? && |t.bindings| == |e.bindings| && i < |e.bindings| && ProgOk(P, F)
             && unit.count == |P|
    requires Fitting(F, unit, ctx, taken, scope, own, scope') && GroupLen(e.bindings, i) == Members(0)
    requires ScopedBlock(unit, taken, scope, own, e, i) && RelBlock(F, unit, ctx, e, t, i)
    ensures ClosedBlock(F, scope', t, i)
    decreases e, 1, |e.bindings| - i, 0
  {
    hide Fitting, Closed, ProgOk, GroupLen, Scoped, Rel;
    var local := e.bindings[i].local;
    BlockParts(unit, taken, scope, own, e, i);
    PlainName(e.bindings, i);
    assert [local][0] == local;
    RelClosed(P, F, unit, ctx, taken, scope, own, scope', e.bindings[i].value, t.bindings[i].value);
    FittingLocal(F, unit, ctx, taken, scope, own, scope', local);
    BlockClosed(P, F, unit, ctx, taken + {local.id}, scope + {local.id}, own + {local.id},
                scope'[local.id := local.ty], e, t, i + 1);
  }

  lemma {:induction false} GroupClosed(
    P: seq<Fun>, F: seq<Fun>, unit: Unit, ctx: Ctx, taken: set<nat>, scope: set<nat>, own: set<nat>,
    scope': map<nat, Ty>, e: Expr, t: Expr, i: nat)
    requires e.Block? && t.Block? && |t.bindings| == |e.bindings| && i < |e.bindings| && ProgOk(P, F)
             && unit.count == |P|
    requires Fitting(F, unit, ctx, taken, scope, own, scope') && GroupLen(e.bindings, i) != Members(0)
    requires ScopedBlock(unit, taken, scope, own, e, i) && RelBlock(F, unit, ctx, e, t, i)
    ensures ClosedBlock(F, scope', t, i)
    decreases e, 1, |e.bindings| - i, 0
  {
    hide Fitting, Closed, ProgOk, GroupLen, Scoped, Rel, ClosedBlock, CtxAfter, ScopedHead, RelHead, HeadNames, Width,
      GroupAt, AfterGroup,
      ScopedBlock, AllLift;
    BlockParts(unit, taken, scope, own, e, i);
    HeadIsGroup(unit, taken, scope, own, e, i);
    var count := GroupLen(e.bindings, i).count;
    var g := HeadMade(P, F, unit, ctx, taken, scope, own, scope', e, t, i, count);
    var names := BoundIds(g.members);
    ClosuresClosed(P, F, unit, ctx, taken, scope, own, scope', e, t, i, count, g);
    FittingAfterGroup(F, unit, ctx, taken, scope, own, scope', g);
    BlockClosed(P, F, unit, AfterGroup(ctx, g), taken + names, scope + names, own + names,
                ScopeWith(scope', g.members), e, t, i + count);
    UnrollBlock(F, scope', t, i, count);
  }

  /** The group that the bindings at `i` were made from. */
  lemma HeadMade(
    P: seq<Fun>, F: seq<Fun>, unit: Unit, ctx: Ctx, taken: set<nat>, scope: set<nat>, own: set<nat>,
    scope': map<nat, Ty>, e: Expr, t: Expr,
    i: nat, count: nat)
    returns (g: Group)
    requires e.Block? && t.Block? && |t.bindings| == |e.bindings| && i < |e.bindings| && ProgOk(P, F)
    requires GroupLen(e.bindings, i) == Members(count) && count > 0
    requires Fitting(F, unit, ctx, taken, scope, own, scope') && ScopedHead(unit, taken, scope, own, e, i)
             && RelHead(F, unit, ctx, e, t, i)
    ensures g.members == e.bindings[i..i + count] && g.unit == unit && GroupAt(g, ctx.callable, taken, scope)
    ensures forall j | 0 <= j < count :: ClosureAt(F, ctx, g, t, i, j)
    ensures CtxAfter(F, ctx, e, t, i) == AfterGroup(ctx, g)
    ensures AllLift(F, AfterGroup(ctx, g).callable)
  {
    hide GroupOf, Scoped, Rel, AfterGroup, AllLift, ProgOk, GroupHeader;
    var members, closures := e.bindings[i..i + count], t.bindings[i..i + count];
    assert closures[0] == t.bindings[i];
    g := F[closures[0].value.lifted].origin.info;
    GroupAtCtx(unit, ctx, taken, scope, own, g);
    forall j | 0 <= j < count ensures ClosureAt(F, ctx, g, t, i, j) {
      assert closures[j] == t.bindings[i + j];
    }
    hide GroupAt, RelHead, ScopedHead, CtxAfter, ClosureAt;
    AfterLifts(P, F, ctx, taken, scope, t, i, g);
  }

  lemma AfterLifts(P: seq<Fun>, F: seq<Fun>, ctx: Ctx, taken: set<nat>, scope: set<nat>, t: Expr, i: nat, g: Group)
    requires t.Block? && ProgOk(P, F) && AllLift(F, ctx.callable) && GroupAt(g, ctx.callable, taken, scope)
    requires forall j | 0 <= j < |g.members| :: ClosureAt(F, ctx, g, t, i, j)
    ensures AllLift(F, AfterGroup(ctx, g).callable)
  {
    hide GroupOf, AfterGroup, AllLift, ProgOk, GroupAt;
    forall j | 0 <= j < |g.members| ensures MemberLifts(F, g, j) {
      assert ClosureAt(F, ctx, g, t, i, j);
      MemberLifted(P, F, g, j);
    }
    DirectLifts(F, g, ctx.callable, taken, scope);
    AfterSame(ctx, g);
  }

  lemma AfterSame(ctx: Ctx, g: Group)
    ensures AfterGroup(ctx, g).callable == AfterGroup(PlainCtx(ctx.callable), g).callable
  {
  }

  ghost predicate ClosureAt(F: seq<Fun>, ctx: Ctx, g: Group, t: Expr, i: nat, j: nat)
    requires t.Block?
  {
    && j < |g.members| && i + j < |t.bindings| && g.members[j].value.Lambda?
    && g.first + j < |F| && F[g.first + j].origin == FromGroup(g, j)
    && t.bindings[i + j] == Binding(g.members[j].local,
                                    Closure(g.first + j, RewriteAtBindings(ctx, g.captured),
                                            g.members[j].value.lambdaTy))
  }

  lemma MemberLifted(P: seq<Fun>, F: seq<Fun>, g: Group, j: nat)
    requires ProgOk(P, F) && j < |g.members| && g.members[j].value.Lambda?
    requires g.first + j < |F| && F[g.first + j].origin == FromGroup(g, j)
    ensures MemberLifts(F, g, j)
  {
    hide Rel, GroupOk, GroupLifted, AllLift;
    assert FunOk(P, F, g.first + j);
  }

  lemma ClosuresClosed(
    P: seq<Fun>, F: seq<Fun>, unit: Unit, ctx: Ctx, taken: set<nat>, scope: set<nat>, own: set<nat>,
    scope': map<nat, Ty>, e: Expr, t: Expr,
    i: nat, count: nat, g: Group)
    requires e.Block? && t.Block? && |t.bindings| == |e.bindings| && i + count <= |e.bindings| && ProgOk(P, F)
    requires Fitting(F, unit, ctx, taken, scope, own, scope')
    requires g.members == e.bindings[i..i + count] && g.unit == unit && GroupAt(g, ctx.callable, taken, scope)
    requires forall j | 0 <= j < count :: ClosureAt(F, ctx, g, t, i, j)
    ensures forall k | 0 <= k < count :: ValueClosed(F, scope', t, i, k)
    ensures ScopeWith(scope', t.bindings[i..i + count]) == ScopeWith(scope', g.members)
  {
    hide Fitting, GroupAt, Closed, FunOk;
    forall k | 0 <= k < count ensures ValueClosed(F, scope', t, i, k) {
      assert ClosureAt(F, ctx, g, t, i, k);
      var bound := t.bindings[i..i + k];
      forall x | x in BoundIds(bound) ensures x in BoundIds(g.members) {
        var m :| 0 <= m < k && bound[m].local.id == x;
        assert ClosureAt(F, ctx, g, t, i, m);
      }
      assert FunOk(P, F, g.first + k);
      MemberClosed(P, F, unit, ctx, taken, scope, own, scope', g, k, bound);
    }
    forall j | 0 <= j < count ensures t.bindings[i..i + count][j].local == g.members[j].local {
      assert ClosureAt(F, ctx, g, t, i, j);
    }
    SameScope(scope', t.bindings[i..i + count], g.members);
  }

  lemma {:induction false} SameScope(scope': map<nat, Ty>, a: seq<Binding>, b: seq<Binding>)
    requires |a| == |b| && forall k | 0 <= k < |a| :: a[k].local == b[k].local
    ensures ScopeWith(scope', a) == ScopeWith(scope', b)
    decreases |a|
  {
    if a != [] {
      SameScope(scope', a[..|a| - 1], b[..|b| - 1]);
    }
  }

  // ----- the parameters of a function -----

  lemma {:induction false} ScopeOfTyped(unit: Unit, locals: seq<Local>, x: nat)
    requires (forall k | 0 <= k < |locals| :: Typed(unit, locals[k])) && x in IdSet(locals)
    ensures x in unit.types && x in ScopeOf(locals) && ScopeOf(locals)[x] == unit.types[x]
    decreases |locals|
  {
    var front, last := locals[..|locals| - 1], locals[|locals| - 1];
    if x != last.id {
      var k :| 0 <= k < |locals| && locals[k].id == x;
      assert front[k].id == x;
      ScopeOfTyped(unit, front, x);
    }
  }

  lemma {:induction false} ScopeOfAppend(a: seq<Local>, b: seq<Local>, x: nat)
    ensures x in IdSet(b) && x in ScopeOf(b) ==> x in ScopeOf(a + b) && ScopeOf(a + b)[x] == ScopeOf(b)[x]
    ensures x !in IdSet(b) && x in ScopeOf(a) ==> x in ScopeOf(a + b) && ScopeOf(a + b)[x] == ScopeOf(a)[x]
    decreases |b|
  {
    if b == [] {
      assert a + b == a;
    } else {
      var front, last := b[..|b| - 1], b[|b| - 1];
      assert (a + b)[..|a + b| - 1] == a + front && (a + b)[|a + b| - 1] == last;
      assert b == front + [last];
      IdSetAppend(front, last);
      ScopeOfAppend(a, front, x);
    }
  }

  lemma {:induction false} ScopeOfDistinct(locals: seq<Local>, k: nat)
    requires DistinctIds(locals) && k < |locals|
    ensures locals[k].id in ScopeOf(locals) && ScopeOf(locals)[locals[k].id] == locals[k].ty
    decreases |locals|
  {
    var front := locals[..|locals| - 1];
    if k < |front| {
      ScopeOfDistinct(front, k);
    }
  }

  // ----- functions -----

  lemma SourceFits(F: seq<Fun>, unit: Unit, parameters: seq<Local>)
    requires Fresh(unit, {}, parameters)
    ensures var ids := IdSet(parameters);
            Fitting(F, unit, NO_CTX, ids, ids, ids, ScopeOf(parameters))
  {
    forall x | x in IdSet(parameters) ensures Held(unit, NO_CTX, ScopeOf(parameters), x) {
      ScopeOfTyped(unit, parameters, x);
    }
  }

  lemma LambdaFits(F: seq<Fun>, unit: Unit, lambda: Expr, taken: set<nat>)
    requires LambdaOk(unit, lambda, taken)
    ensures var ids := IdSet(lambda.parameters);
            Fitting(F, unit, NO_CTX, taken + ids, IdSet(lambda.captures) + ids, ids,
                    ScopeOf(lambda.captures + lambda.parameters))
  {
    hide Scoped, OnlyMutates;
    var all := lambda.captures + lambda.parameters;
    forall x | x in IdSet(lambda.captures) + IdSet(lambda.parameters) ensures Held(unit, NO_CTX, ScopeOf(all), x) {
      if x in IdSet(lambda.parameters) {
        var k :| 0 <= k < |lambda.parameters| && lambda.parameters[k].id == x;
        assert all[|lambda.captures| + k].id == x;
      } else {
        var k :| 0 <= k < |lambda.captures| && lambda.captures[k].id == x;
        assert all[k].id == x;
      }
      ScopeOfTyped(unit, all, x);
    }
  }

  /** A lifted function holds what the group captured. */
  lemma CapturedHeld(g: Group, taken: set<nat>, index: nat, p: nat)
    requires GroupOk(g, taken) && index < |g.members| && p < |g.captured|
    ensures Held(g.unit, GroupCtx(g), ScopeOf(Parameters(g.captured) + g.members[index].value.parameters),
                 g.captured[p].local.id)
  {
    hide Scoped, OnlyMutates, CtxOk, AllLift;
    var first, rest := Parameters(g.captured), g.members[index].value.parameters;
    var c := g.captured[p];
    assert MemberOk(g, taken, index);
    BorrowedIs(g.captured, p);
    ParametersDistinct(g.captured);
    ScopeOfDistinct(first, p);
    ScopeOfAppend(first, rest, c.local.id);
  }

  lemma ParametersDistinct(cs: seq<Captured>)
    requires DistinctIds(CapturedLocals(cs))
    ensures DistinctIds(Parameters(cs))
  {
    var locals, ps := CapturedLocals(cs), Parameters(cs);
    forall i, j | 0 <= i < j < |ps| ensures ps[i].id != ps[j].id {
      assert locals[i].id != locals[j].id;
    }
  }

  lemma ParameterHeld(g: Group, taken: set<nat>, index: nat, x: nat)
    requires GroupOk(g, taken) && index < |g.members| && x in IdSet(g.members[index].value.parameters)
    ensures Held(g.unit, GroupCtx(g), ScopeOf(Parameters(g.captured) + g.members[index].value.parameters), x)
  {
    hide Scoped, OnlyMutates, CtxOk;
    var first, rest := Parameters(g.captured), g.members[index].value.parameters;
    assert MemberOk(g, taken, index);
    ScopeOfTyped(g.unit, rest, x);
    ScopeOfAppend(first, rest, x);
    BorrowedFrom(g.captured, x);
  }

  lemma MemberFits(F: seq<Fun>, g: Group, taken: set<nat>, index: nat)
    requires GroupOk(g, taken) && AllLift(F, g.direct) && index < |g.members|
    ensures var names, ids := BoundIds(g.members), IdSet(g.members[index].value.parameters);
            Fitting(F, g.unit, GroupCtx(g), taken + names + ids, IdSet(GroupCaptures(g.members)) + names + ids, ids,
                    ScopeOf(Parameters(g.captured) + g.members[index].value.parameters))
  {
    var names, ids := BoundIds(g.members), IdSet(g.members[index].value.parameters);
    var captures := IdSet(GroupCaptures(g.members));
    var scope' := ScopeOf(Parameters(g.captured) + g.members[index].value.parameters);
    MemberCtxOk(g, taken, index);
    hide Scoped, OnlyMutates, CtxOk, AllLift, Held;
    forall x | x in captures + names + ids && x !in g.direct ensures Held(g.unit, GroupCtx(g), scope', x) {
      if x in ids {
        ParameterHeld(g, taken, index, x);
      } else {
        var k :| 0 <= k < |GroupCaptures(g.members)| && GroupCaptures(g.members)[k].id == x;
        CapturedHeld(g, taken, index, Position(g.captured, x));
      }
    }
    forall x | x in g.direct ensures HeldAll(g.unit, GroupCtx(g), scope', g.direct[x].captures) {
      DirectHeld(g, taken, index, x);
    }
  }

  lemma DirectHeld(g: Group, taken: set<nat>, index: nat, x: nat)
    requires GroupOk(g, taken) && index < |g.members| && x in g.direct
    ensures HeldAll(g.unit, GroupCtx(g), ScopeOf(Parameters(g.captured) + g.members[index].value.parameters),
                    g.direct[x].captures)
  {
    hide Scoped, OnlyMutates, CtxOk, Held;
    var cs := g.direct[x].captures;
    assert Offers(g.captured, cs);
    forall k | 0 <= k < |cs|
      ensures Held(g.unit, GroupCtx(g), ScopeOf(Parameters(g.captured) + g.members[index].value.parameters),
                   cs[k].local.id)
    {
      CapturedHeld(g, taken, index, Position(g.captured, cs[k].local.id));
    }
  }

  lemma MemberCtxOk(g: Group, taken: set<nat>, index: nat)
    requires GroupOk(g, taken) && index < |g.members|
    ensures var names, ids := BoundIds(g.members), IdSet(g.members[index].value.parameters);
            CtxOk(g.unit, GroupCtx(g), taken + names + ids, ids)
            && IdSet(GroupCaptures(g.members)) + names + ids <= taken + names + ids
  {
    hide Scoped, OnlyMutates, CtxOk;
    assert MemberOk(g, taken, index);
    var ids := IdSet(g.members[index].value.parameters);
    assert ids !! taken + BoundIds(g.members);
    CtxWithNames(g.unit, GroupCtx(g), taken + BoundIds(g.members), {}, ids, ids);
    assert {} + ids == ids;
  }

  lemma FunClosed(P: seq<Fun>, F: seq<Fun>, fid: nat)
    requires ProgOk(P, F) && fid < |F|
    ensures ClosedFun(F, fid)
  {
    hide Fitting, Closed, Scoped, Rel, OnlyMutates, GroupOk, AllLift, GroupLifted, LambdaOk, Fresh;
    assert FunOk(P, F, fid);
    match F[fid].origin
    case Original(unit) =>
      var ids := IdSet(P[fid].parameters);
      SourceFits(F, unit, P[fid].parameters);
      RelClosed(P, F, unit, NO_CTX, ids, ids, ids, ScopeOf(P[fid].parameters), P[fid].body, F[fid].body);
    case FromLambda(lambda, unit) =>
      var taken :| LambdaOk(unit, lambda, taken);
      LambdaFits(F, unit, lambda, taken);
      LambdaBody(unit, lambda, taken);
      var ids := IdSet(lambda.parameters);
      RelClosed(P, F, unit, NO_CTX, taken + ids, IdSet(lambda.captures) + ids, ids, ScopeOf(F[fid].parameters),
                lambda.body, F[fid].body);
    case FromGroup(g, index) =>
      var taken :| GroupOk(g, taken);
      MemberFits(F, g, taken, index);
      MemberBody(g, taken, index);
      var names, ids := BoundIds(g.members), IdSet(g.members[index].value.parameters);
      RelClosed(P, F, g.unit, GroupCtx(g), taken + names + ids, IdSet(GroupCaptures(g.members)) + names + ids, ids,
                ScopeOf(F[fid].parameters), g.members[index].value.body, F[fid].body);
  }

  lemma LambdaBody(unit: Unit, lambda: Expr, taken: set<nat>)
    requires LambdaOk(unit, lambda, taken)
    ensures lambda.Lambda?
    ensures var ids := IdSet(lambda.parameters);
            Scoped(unit, taken + ids, IdSet(lambda.captures) + ids, ids, lambda.body)
  {
  }

  lemma MemberBody(g: Group, taken: set<nat>, index: nat)
    requires GroupOk(g, taken) && index < |g.members|
    ensures forall k | 0 <= k < |g.members| :: g.members[k].value.Lambda?
    ensures var names, ids := BoundIds(g.members), IdSet(g.members[index].value.parameters);
            Scoped(g.unit, taken + names + ids, IdSet(GroupCaptures(g.members)) + names + ids, ids,
                   g.members[index].value.body)
  {
    assert MemberOk(g, taken, index);
  }

  /** Every function of the lowered program is closed, and every call and closure in it supplies the
      function that it is for. */
  lemma LoweredIsClosed(P: seq<Fun>, fid: nat)
    requires WellFormed(P)
    ensures LowerProgram(P).Lowered?
    ensures fid < |LowerProgram(P).value| ==> ClosedFun(LowerProgram(P).value, fid)
  {
    LoweringIsSound(P);
    if fid < |LowerProgram(P).value| {
      FunClosed(P, LowerProgram(P).value, fid);
    }
  }
}

/**
  Binding a `let rec` group: the closures that the lowered block makes stand for the members of the
  group, whether a capture is taken from the frame or taken over from an earlier function.
 */
module LetRecBinding {
  import opened LetRecSyntax
  import opened LetRecEval
  import opened LetRecLowering
  import opened LetRecRelation
  import opened LetRecFrozen
  import opened LetRecFrames
  import opened LetRecEntry

  // ----- what a group shares -----

  /** `local` is a capture that cannot be called directly, or is captured by one that can. */
  ghost predicate SharedBy(captures: seq<Local>, callable: map<nat, RecursiveFunction>, local: Local) {
    || (local in captures && local.id !in callable)
    || (exists k | 0 <= k < |captures| :: captures[k].id in callable
                                          && local in CapturedLocals(callable[captures[k].id].captures))
  }

  lemma {:induction false} SharedFrom(captures: seq<Local>, callable: map<nat, RecursiveFunction>)
    ensures Ordered(Shared(captures, callable))
    ensures forall c | c in Shared(captures, callable) :: SharedBy(captures, callable, c)
  {
    if captures != [] {
      var front, last := captures[..|captures| - 1], captures[|captures| - 1];
      SharedFrom(front, callable);
      var shared := Shared(front, callable);
      forall c | SharedBy(front, callable, c) ensures SharedBy(captures, callable, c) {
        if k :| 0 <= k < |front| && front[k].id in callable && c in CapturedLocals(callable[front[k].id].captures) {
          assert captures[k] == front[k];
        }
      }
      if last.id in callable {
        OrInsertAllIds(shared, CapturedLocals(callable[last.id].captures));
        assert captures[|captures| - 1] == last;
      } else {
        OrInsertOrdered(shared, last);
        OrInsertFrom(shared, last);
      }
    }
  }

  lemma {:induction false} SharedHas(captures: seq<Local>, callable: map<nat, RecursiveFunction>, k: nat)
    requires k < |captures|
    ensures captures[k].id !in callable ==> captures[k].id in IdSet(Shared(captures, callable))
    ensures captures[k].id in callable ==>
              IdSet(CapturedLocals(callable[captures[k].id].captures)) <= IdSet(Shared(captures, callable))
  {
    var front, last := captures[..|captures| - 1], captures[|captures| - 1];
    if k < |front| {
      SharedHas(front, callable, k);
      assert front[k] == captures[k];
    }
    if last.id in callable {
      OrInsertAllIds(Shared(front, callable), CapturedLocals(callable[last.id].captures));
    } else {
      OrInsertIds(Shared(front, callable), last);
    }
  }

  // ----- the closures of the group, in the lowered program -----

  lemma EvalAtBinding(F: seq<Fun>, fuel: nat, ctx: Ctx, env: Env, s: Store, c: Captured)
    requires Ready(ctx, env, s, c)
    ensures Eval(F, fuel, env, s, RewriteAtBinding(ctx, c)) == Ok(AtVal(ctx, env, s, c), s)
  {
    var x := c.local.id;
    if x in ctx.borrowed {
      assert RewriteAtBinding(ctx, c) == Borrow(Deref(Var(x, Reference(c.local.ty, false))), false);
      assert Eval(F, fuel, env, s, Var(x, Reference(c.local.ty, false))) == Ok(env[x].v, s);
    } else {
      assert RewriteVar(ctx.direct, ctx.borrowed, x, c.local.ty) == Var(x, c.local.ty);
    }
  }

  lemma {:induction false} EvalAtBindings(F: seq<Fun>, fuel: nat, ctx: Ctx, env: Env, s: Store, cs: seq<Captured>)
    requires ReadyAll(ctx, env, s, cs)
    ensures EvalAll(F, fuel, env, s, RewriteAtBindings(ctx, cs)) == Ok(AtVals(ctx, env, s, cs), s)
    decreases |cs|
  {
    if cs == [] {
      assert RewriteAtBindings(ctx, cs) == [] && AtVals(ctx, env, s, cs) == [];
    } else {
      assert Ready(ctx, env, s, cs[0]);
      EvalAtBinding(F, fuel, ctx, env, s, cs[0]);
      assert ReadyAll(ctx, env, s, cs[1..]);
      EvalAtBindings(F, fuel, ctx, env, s, cs[1..]);
      assert RewriteAtBindings(ctx, cs)[1..] == RewriteAtBindings(ctx, cs[1..]);
      assert AtVals(ctx, env, s, cs) == [AtVal(ctx, env, s, cs[0])] + AtVals(ctx, env, s, cs[1..]);
    }
  }

  /** The closures of a group's lifted functions. */
  function ClosureValues(count: nat, first: nat, vals: seq<Val>): (r: seq<Bind>)
    ensures |r| == count
    ensures forall k | 0 <= k < |r| :: r[k] == Imm(VClosure(first + k, vals))
  {
    seq(count, k requires 0 <= k < count => Imm(VClosure(first + k, vals)))
  }

  /** The names of a group bound to closures of its lifted functions. */
  function BindClosures(env: Env, members: seq<Binding>, first: nat, vals: seq<Val>): Env {
    BindEach(env, members, ClosureValues(|members|, first, vals))
  }

  /** The bindings of the lowered block from `i` on are the closures of `g`. */
  ghost predicate ClosuresAt(t: Expr, i: nat, ctx: Ctx, g: Group)
    requires forall k | 0 <= k < |g.members| :: g.members[k].value.Lambda?
  {
    && t.Block? && i + |g.members| <= |t.bindings|
    && (forall k | 0 <= k < |g.members| ::
          t.bindings[i..i + |g.members|][k]
          == Binding(g.members[k].local,
                     Closure(g.first + k, RewriteAtBindings(ctx, g.captured), g.members[k].value.lambdaTy)))
  }

  /** The lowered block binds the closures one after the other. */
  lemma {:induction false} EvalClosures(
    F: seq<Fun>, fuel: nat, env: Env, s: Store, t: Expr, i: nat, ctx: Ctx, g: Group, j: nat)
    requires forall k | 0 <= k < |g.members| :: g.members[k].value.Lambda? && !g.members[k].local.mutable
    requires ClosuresAt(t, i, ctx, g) && j <= |g.members|
    requires ReadyAll(ctx, env, s, g.captured)
    requires forall k | 0 <= k < |g.captured| :: g.captured[k].local.id !in BoundIds(g.members)
    ensures var vals := AtVals(ctx, env, s, g.captured);
            EvalBlock(F, fuel, env, s, t, i)
            == EvalBlock(F, fuel, BindClosures(env, g.members[..j], g.first, vals), s, t, i + j)
  {
    hide EvalBlock, Eval, BindClosures, ClosuresAt, ReadyAll;
    ClosuresFit(t, i, ctx, g);
    var vals := AtVals(ctx, env, s, g.captured);
    if j > 0 {
      EvalClosures(F, fuel, env, s, t, i, ctx, g, j - 1);
      NextClosure(F, fuel, env, s, t, i, ctx, g, vals, j - 1);
    } else {
      assert g.members[..0] == [];
      NoClosures(env, g.first, vals);
    }
  }

  lemma ClosuresFit(t: Expr, i: nat, ctx: Ctx, g: Group)
    requires (forall k | 0 <= k < |g.members| :: g.members[k].value.Lambda?) && ClosuresAt(t, i, ctx, g)
    ensures t.Block? && i + |g.members| <= |t.bindings|
  {
  }

  lemma NoClosures(env: Env, first: nat, vals: seq<Val>)
    ensures BindClosures(env, [], first, vals) == env
  {
  }

  lemma NextClosure(
    F: seq<Fun>, fuel: nat, env: Env, s: Store, t: Expr, i: nat, ctx: Ctx, g: Group, vals: seq<Val>, j: nat)
    requires forall k | 0 <= k < |g.members| :: g.members[k].value.Lambda? && !g.members[k].local.mutable
    requires ClosuresAt(t, i, ctx, g) && j < |g.members|
    requires ReadyAll(ctx, env, s, g.captured) && vals == AtVals(ctx, env, s, g.captured)
    requires forall k | 0 <= k < |g.captured| :: g.captured[k].local.id !in BoundIds(g.members)
    ensures EvalBlock(F, fuel, BindClosures(env, g.members[..j], g.first, vals), s, t, i + j)
            == EvalBlock(F, fuel, BindClosures(env, g.members[..j + 1], g.first, vals), s, t, i + j + 1)
  {
    hide EvalBlock, Eval, ReadyAll, AtVals, BindClosures;
    var env1 := BindClosures(env, g.members[..j], g.first, vals);
    ClosuresOutside(env, g.members[..j], g.first, vals, g.members, g.captured);
    ReadyOutside(ctx, env, env1, s, g.captured);
    ClosuresAppend(env, g.members[..j + 1], g.first, vals);
    assert g.members[..j + 1][..j] == g.members[..j];
    assert t.bindings[i..i + |g.members|][j] == t.bindings[i + j];
    var member := g.members[j];
    ClosureStep(F, fuel, env1, s, t, i + j, ctx, g.captured, member.local, g.first + j, member.value.lambdaTy);
  }

  lemma ClosuresAppend(env: Env, members: seq<Binding>, first: nat, vals: seq<Val>)
    requires members != []
    ensures var last := |members| - 1;
            BindClosures(env, members, first, vals)
            == BindClosures(env, members[..last], first,
                            vals)[members[last].local.id := Imm(VClosure(first + last, vals))]
  {
    var last := |members| - 1;
    assert ClosureValues(|members|, first, vals)[..last] == ClosureValues(last, first, vals);
  }

  /** Names that are bound do not hide the captures. */
  lemma {:induction false} ClosuresOutside(
    env: Env, front: seq<Binding>, first: nat, vals: seq<Val>, members: seq<Binding>, cs: seq<Captured>)
    requires |front| <= |members| && front == members[..|front|]
    requires forall k | 0 <= k < |cs| :: cs[k].local.id !in BoundIds(members)
    ensures forall k | 0 <= k < |cs| && cs[k].local.id in env ::
              && cs[k].local.id in BindClosures(env, front, first, vals)
              && BindClosures(env, front, first, vals)[cs[k].local.id] == env[cs[k].local.id]
    decreases |front|
  {
    if front != [] {
      var last := |front| - 1;
      ClosuresOutside(env, front[..last], first, vals, members, cs);
      assert ClosureValues(|front|, first, vals)[..last] == ClosureValues(last, first, vals);
      assert front[last].local.id == members[last].local.id && members[last].local.id in BoundIds(members);
    }
  }

  lemma ClosureStep(F: seq<Fun>, fuel: nat, env: Env, s: Store, t: Expr, i: nat, ctx: Ctx, cs: seq<Captured>,
                    local: Local, lifted: nat, ty: Ty)
    requires t.Block? && i < |t.bindings| && !local.mutable
    requires t.bindings[i] == Binding(local, Closure(lifted, RewriteAtBindings(ctx, cs), ty))
    requires ReadyAll(ctx, env, s, cs)
    ensures EvalBlock(F, fuel, env, s, t, i)
            == EvalBlock(F, fuel, env[local.id := Imm(VClosure(lifted, AtVals(ctx, env, s, cs)))], s, t, i + 1)
  {
    assert GroupLen(t.bindings, i) == Members(0);
    EvalAtBindings(F, fuel, ctx, env, s, cs);
  }

  lemma ReadyOutside(ctx: Ctx, env: Env, env': Env, s: Store, cs: seq<Captured>)
    requires ReadyAll(ctx, env, s, cs)
    requires forall k | 0 <= k < |cs| && cs[k].local.id in env ::
             cs[k].local.id in env' && env'[cs[k].local.id] == env[cs[k].local.id]
    ensures ReadyAll(ctx, env', s, cs) && AtVals(ctx, env', s, cs) == AtVals(ctx, env, s, cs)
  {
    forall k | 0 <= k < |cs|
      ensures Ready(ctx, env', s, cs[k]) && AtVal(ctx, env', s, cs[k]) == AtVal(ctx, env, s, cs[k])
    {
      assert Ready(ctx, env, s, cs[k]);
    }
  }

  // ----- the captures, in the source program -----

  lemma {:induction false} CaptureBindsOk(env: Env, s: Store, captures: seq<Local>)
    requires forall k | 0 <= k < |captures| :: captures[k].id in env
    requires forall x | x in env && env[x].Cell? :: env[x].loc < |s|
    ensures var r := CaptureBinds(env, s, captures);
            && r.Ok? && |r.value| == |captures|
            && (forall k | 0 <= k < |captures| ::
                  r.value[k] == (if captures[k].ty.Cheap() then Imm(Load(env[captures[k].id], s).value)
                                 else env[captures[k].id]))
  {
    if captures != [] {
      CaptureBindsOk(env, s, captures[..|captures| - 1]);
    }
  }

  // ----- a capture in the two frames -----

  /** The source keeps its cells in the same places. */
  lemma SourceCells(F: seq<Fun>, p: Point, ss: Store, ts: Store)
    requires Inv(F, p, ss, ts)
    ensures forall x | x in p.senv && p.senv[x].Cell? :: p.senv[x].loc < |ss|
  {
    forall x | x in p.senv && p.senv[x].Cell? ensures p.senv[x].loc < |ss| {
      assert EnvAt(F, p.ctx, p.tenv, x, p.senv[x]);
      if x in p.ctx.borrowed {
        assert SafeBind(p.frozen, |ts|, p.tenv[x]);
        assert SafeVal(p.frozen, |ts|, p.tenv[x].v);
        assert SafeBind(p.frozen, |ts|, p.tenv[x].v.to);
      }
    }
  }

  lemma ReadyCapture(F: seq<Fun>, p: Point, ss: Store, ts: Store, local: Local)
    requires Inv(F, p, ss, ts) && local.id in p.senv && local.id !in p.ctx.callable && Typed(p.unit, local)
    ensures Ready(p.ctx, p.tenv, ts, NewCaptured(local))
  {
    assert EnvAt(F, p.ctx, p.tenv, local.id, p.senv[local.id]);
  }

  /** A directly called function passes on what a closure made here would take. */
  lemma DirectVals(F: seq<Fun>, p: Point, ss: Store, ts: Store, x: nat)
    requires Inv(F, p, ss, ts) && x in p.senv && x in p.ctx.direct
    ensures ReadyAll(p.ctx, p.tenv, ts, p.ctx.direct[x].captures)
    ensures AtVals(p.ctx, p.tenv, ts, p.ctx.direct[x].captures) == BodyVals(p.tenv, p.ctx.direct[x].captures)
  {
    var cs := p.ctx.direct[x].captures;
    assert EnvAt(F, p.ctx, p.tenv, x, p.senv[x]);
    assert CallableOk(p.unit, p.ctx, p.taken, x);
    forall k | 0 <= k < |cs|
      ensures Ready(p.ctx, p.tenv, ts, cs[k]) && AtVal(p.ctx, p.tenv, ts, cs[k]) == p.tenv[cs[k].local.id].v
    {
      assert CapturedOk(p.unit, cs[k]);
    }
  }

  /** Whatever the frame can call directly, a closure of it made now is the function itself. */
  lemma CallableVal(F: seq<Fun>, p: Point, ss: Store, ts: Store, x: nat)
    requires Inv(F, p, ss, ts) && x in p.senv && x in p.ctx.callable
    ensures p.senv[x].Imm? && ReadyAll(p.ctx, p.tenv, ts, p.ctx.callable[x].captures)
    ensures ValRel(F, p.senv[x].v,
                   VClosure(p.ctx.callable[x].fid, AtVals(p.ctx, p.tenv, ts, p.ctx.callable[x].captures)))
  {
    if x in p.ctx.direct {
      DirectVals(F, p, ss, ts, x);
      assert EnvAt(F, p.ctx, p.tenv, x, p.senv[x]);
    } else {
      assert BoundAt(F, p.ctx, p.senv, p.tenv, ts, x);
    }
  }

  /** The capture of a local that is no directly callable function, by value or by reference. */
  lemma CaptureVal(F: seq<Fun>, p: Point, ss: Store, ts: Store, local: Local)
    requires Inv(F, p, ss, ts) && local.id in p.senv && local.id !in p.ctx.callable && Typed(p.unit, local)
    ensures Ready(p.ctx, p.tenv, ts, NewCaptured(local))
    ensures var v := AtVal(p.ctx, p.tenv, ts, NewCaptured(local));
            if local.ty.Cheap()
            then Load(p.senv[local.id], ss).Ok? && ValRel(F, Load(p.senv[local.id], ss).value, v)
            else v.VRef? && !v.exclusive && BindRel(F, p.senv[local.id], v.to)
  {
    ReadyCapture(F, p, ss, ts, local);
    assert EnvAt(F, p.ctx, p.tenv, local.id, p.senv[local.id]);
    if local.ty.Cheap() {
      assert local.id !in p.ctx.borrowed;
      LoadRel(F, p.senv[local.id], p.tenv[local.id], ss, ts);
    }
  }

  // ----- the group -----

  /** The group `g` was made from `members` at the point `p`. */
  ghost predicate GroupHere(F: seq<Fun>, p: Point, members: seq<Binding>, g: Group) {
    && (forall k | 0 <= k < |members| :: members[k].value.Lambda?)
    && GroupHeader(p.unit, p.taken, p.scope, members)
    && g == GroupOf(members, g.first, p.ctx.callable, g.boundIn, p.unit)
    && GroupLifted(F, g)
  }

  lemma CapturesInScope(F: seq<Fun>, p: Point, ss: Store, ts: Store, members: seq<Binding>, g: Group, k: nat)
    requires Inv(F, p, ss, ts) && GroupHere(F, p, members, g) && k < |GroupCaptures(members)|
    ensures var local := GroupCaptures(members)[k];
            local.id in p.senv && Typed(p.unit, local) && !local.mutable && local.id !in BoundIds(members)
  {
  }

  /** Every shared capture is canonical, at hand in the frame, and none of the group's own names. */
  lemma SharedReady(F: seq<Fun>, p: Point, ss: Store, ts: Store, members: seq<Binding>, g: Group, q: nat)
    requires Inv(F, p, ss, ts) && GroupHere(F, p, members, g) && q < |g.captured|
    ensures CapturedOk(p.unit, g.captured[q]) && Ready(p.ctx, p.tenv, ts, g.captured[q])
    ensures g.captured[q].local.id in p.taken && g.captured[q].local.id !in p.ctx.callable
    ensures g.captured[q].local.id !in BoundIds(members)
  {
    var captures := GroupCaptures(members);
    var local := Shared(captures, p.ctx.callable)[q];
    assert g.captured[q] == NewCaptured(local);
    SharedFrom(captures, p.ctx.callable);
    assert SharedBy(captures, p.ctx.callable, local);
    SharedLocalReady(F, p, ss, ts, members, g, local);
    NamesFresh(p.unit, p.taken, p.scope, members);
  }

  lemma SharedLocalReady(F: seq<Fun>, p: Point, ss: Store, ts: Store, members: seq<Binding>, g: Group, local: Local)
    requires Inv(F, p, ss, ts) && GroupHere(F, p, members, g)
    requires SharedBy(GroupCaptures(members), p.ctx.callable, local)
    ensures CapturedOk(p.unit, NewCaptured(local)) && Ready(p.ctx, p.tenv, ts, NewCaptured(local))
    ensures local.id in p.taken && local.id !in p.ctx.callable
  {
    var captures := GroupCaptures(members);
    if local in captures && local.id !in p.ctx.callable {
      var k :| 0 <= k < |captures| && captures[k] == local;
      CapturesInScope(F, p, ss, ts, members, g, k);
      ReadyCapture(F, p, ss, ts, local);
    } else {
      var k :| 0 <= k < |captures| && captures[k].id in p.ctx.callable
               && local in CapturedLocals(p.ctx.callable[captures[k].id].captures);
      CapturesInScope(F, p, ss, ts, members, g, k);
      TakenReady(F, p, ss, ts, captures[k].id, local);
    }
  }

  lemma NamesFresh(unit: Unit, taken: set<nat>, scope: set<nat>, members: seq<Binding>)
    requires forall k | 0 <= k < |members| :: members[k].value.Lambda?
    requires GroupHeader(unit, taken, scope, members)
    ensures BoundIds(members) !! taken
  {
    forall x | x in BoundIds(members) ensures x !in taken {
      var k :| 0 <= k < |members| && members[k].local.id == x;
    }
  }

  lemma TakenReady(F: seq<Fun>, p: Point, ss: Store, ts: Store, x: nat, local: Local)
    requires Inv(F, p, ss, ts) && x in p.senv && x in p.ctx.callable
    requires local in CapturedLocals(p.ctx.callable[x].captures)
    ensures CapturedOk(p.unit, NewCaptured(local)) && Ready(p.ctx, p.tenv, ts, NewCaptured(local))
    ensures local.id in p.taken && local.id !in p.ctx.callable
  {
    var cs := p.ctx.callable[x].captures;
    var m :| 0 <= m < |cs| && CapturedLocals(cs)[m] == local;
    assert CallableOk(p.unit, p.ctx, p.taken, x);
    assert cs[m] == NewCaptured(local);
    CallableVal(F, p, ss, ts, x);
  }

  /** The closure of `x` that a member builds from the group's captures is the one made here. */
  lemma SelectTaken(F: seq<Fun>, p: Point, ss: Store, ts: Store, members: seq<Binding>, g: Group, k: nat)
    requires Inv(F, p, ss, ts) && GroupHere(F, p, members, g) && k < |GroupCaptures(members)|
    requires GroupCaptures(members)[k].id in p.ctx.callable
    requires ReadyAll(p.ctx, p.tenv, ts, g.captured)
    ensures var cs := p.ctx.callable[GroupCaptures(members)[k].id].captures;
            && Offers(g.captured, cs)
            && ReadyAll(p.ctx, p.tenv, ts, cs)
            && Select(g.captured, AtVals(p.ctx, p.tenv, ts, g.captured), cs) == AtVals(p.ctx, p.tenv, ts, cs)
  {
    hide GroupCaptures, Shared, Position, AllLift, Rel, Scoped, StoreRel;
    var captures := GroupCaptures(members);
    var x := captures[k].id;
    var cs := p.ctx.callable[x].captures;
    CapturesInScope(F, p, ss, ts, members, g, k);
    CallableVal(F, p, ss, ts, x);
    assert CallableOk(p.unit, p.ctx, p.taken, x);
    SharedHas(captures, p.ctx.callable, k);
    forall m | 0 <= m < |cs|
      ensures Position(g.captured, cs[m].local.id) < |g.captured|
      ensures g.captured[Position(g.captured, cs[m].local.id)] == cs[m]
    {
      assert CapturedLocals(cs)[m].id in IdSet(CapturedLocals(cs));
      SharedPosition(captures, p.ctx.callable, cs[m].local.id);
      SharedReady(F, p, ss, ts, members, g, Position(g.captured, cs[m].local.id));
    }
  }

  lemma SharedPosition(captures: seq<Local>, callable: map<nat, RecursiveFunction>, x: nat)
    requires x in IdSet(Shared(captures, callable))
    ensures Position(NewCaptures(Shared(captures, callable)), x) < |Shared(captures, callable)|
  {
    var shared := Shared(captures, callable);
    var q :| 0 <= q < |shared| && shared[q].id == x;
    assert NewCaptures(shared)[q].local.id == x;
  }

  lemma DirectOf(members: seq<Binding>, first: nat, callable: map<nat, RecursiveFunction>, boundIn: nat, unit: Unit)
    requires forall k | 0 <= k < |members| :: members[k].value.Lambda?
    requires DistinctNames(members)
    ensures var g := GroupOf(members, first, callable, boundIn, unit);
            && (forall j | 0 <= j < |members| ::
                  members[j].local.id in g.direct
                  && g.direct[members[j].local.id] == RecursiveFunction(first + j, g.captured, boundIn))
            && (forall x | x !in BoundIds(members) ::
                  (x in g.direct <==> x in IdSet(GroupCaptures(members)) && x in callable)
                  && (x in g.direct ==> g.direct[x] == callable[x]))
  {
    var captures := GroupCaptures(members);
    var captured := NewCaptures(Shared(captures, callable));
    BindEachAt(TakenOver(captures, callable), members, LiftedFunctions(|members|, first, captured, boundIn));
  }

  /** Each capture of the group, as a member's closure holds it. */
  lemma GroupCaptureRel(
    F: seq<Fun>, p: Point, ss: Store, ts: Store, members: seq<Binding>, g: Group, binds: seq<Bind>, k: nat)
    requires Inv(F, p, ss, ts) && GroupHere(F, p, members, g) && k < |GroupCaptures(members)|
    requires ReadyAll(p.ctx, p.tenv, ts, g.captured)
    requires CaptureBinds(p.senv, ss, GroupCaptures(members)) == Ok(binds, ss)
    requires |binds| == |GroupCaptures(members)|
    ensures CaptureRel(F, g, GroupCaptures(members)[k].id, binds[k], AtVals(p.ctx, p.tenv, ts, g.captured))
  {
    var captures := GroupCaptures(members);
    var local := captures[k];
    var x := local.id;
    CapturesInScope(F, p, ss, ts, members, g, k);
    DirectOf(members, g.first, p.ctx.callable, g.boundIn, p.unit);
    SourceCells(F, p, ss, ts);
    forall i | 0 <= i < |captures| ensures captures[i].id in p.senv { CapturesInScope(F, p, ss, ts, members, g, i); }
    CaptureBindsOk(p.senv, ss, captures);
    if x in p.ctx.callable {
      assert x in IdSet(captures);
      SelectTaken(F, p, ss, ts, members, g, k);
      CallableVal(F, p, ss, ts, x);
    } else {
      SharedHas(captures, p.ctx.callable, k);
      SharedPosition(captures, p.ctx.callable, x);
      var q := Position(g.captured, x);
      SharedReady(F, p, ss, ts, members, g, q);
      assert g.captured[q].local == local.(mutable := false);
      CaptureVal(F, p, ss, ts, local);
    }
  }

  lemma MemberRel(
    F: seq<Fun>, p: Point, ss: Store, ts: Store, members: seq<Binding>, g: Group, binds: seq<Bind>, j: nat)
    requires Inv(F, p, ss, ts) && GroupHere(F, p, members, g) && j < |members|
    requires ReadyAll(p.ctx, p.tenv, ts, g.captured)
    requires CaptureBinds(p.senv, ss, GroupCaptures(members)) == Ok(binds, ss)
    requires |binds| == |GroupCaptures(members)|
    ensures ValRel(F, VRec(members, j, binds, []), VClosure(g.first + j, AtVals(p.ctx, p.tenv, ts, g.captured)))
  {
    hide Inv, CaptureRel, Select, Position;
    var vals := AtVals(p.ctx, p.tenv, ts, g.captured);
    assert LiftedAs(F, g, j);
    forall k | 0 <= k < |binds| ensures CaptureRel(F, g, GroupCaptures(members)[k].id, binds[k], vals) {
      GroupCaptureRel(F, p, ss, ts, members, g, binds, k);
    }
    assert References(g.captured, vals) by {
      forall q | 0 <= q < |g.captured| && g.captured[q].borrowed ensures vals[q].VRef? && !vals[q].exclusive {
        assert Ready(p.ctx, p.tenv, ts, g.captured[q]);
      }
    }
  }

  /** The values of captures are as safe as the frame. */
  lemma AtValsSafe(F: seq<Fun>, p: Point, ss: Store, ts: Store, cs: seq<Captured>)
    requires Inv(F, p, ss, ts) && ReadyAll(p.ctx, p.tenv, ts, cs)
    ensures SafeAll(p.frozen, |ts|, AtVals(p.ctx, p.tenv, ts, cs))
  {
    forall k | 0 <= k < |cs| ensures SafeVal(p.frozen, |ts|, AtVal(p.ctx, p.tenv, ts, cs[k])) {
      assert Ready(p.ctx, p.tenv, ts, cs[k]);
      assert SafeBind(p.frozen, |ts|, p.tenv[cs[k].local.id]);
    }
  }

  function WithGroup(p: Point, g: Group, binds: seq<Bind>, vals: seq<Val>): Point {
    p.(ctx := AfterGroup(p.ctx, g),
       taken := p.taken + BoundIds(g.members),
       scope := p.scope + BoundIds(g.members),
       own := p.own + BoundIds(g.members),
       senv := BindGroup(p.senv, g.members, binds),
       tenv := BindClosures(p.tenv, g.members, g.first, vals))
  }

  lemma AfterGroupOk(F: seq<Fun>, p: Point, ss: Store, ts: Store, members: seq<Binding>, g: Group)
    requires Inv(F, p, ss, ts) && GroupHere(F, p, members, g)
    ensures CtxOk(p.unit, AfterGroup(p.ctx, g), p.taken + BoundIds(members), p.own + BoundIds(members))
  {
    var names := BoundIds(members);
    var ctx' := AfterGroup(p.ctx, g);
    NamesFresh(p.unit, p.taken, p.scope, members);
    CtxWithNames(p.unit, p.ctx, p.taken, p.own, names, names);
    if Unchanged(g.captured, p.unit.mutated) {
      BindEachAt(p.ctx.callable, members, LiftedFunctions(|members|, g.first, g.captured, g.boundIn));
      forall q | 0 <= q < |g.captured|
        ensures CapturedOk(p.unit, g.captured[q]) && g.captured[q].local.id in p.taken
                && g.captured[q].local.id !in p.ctx.callable && g.captured[q].local.id !in names
      {
        SharedReady(F, p, ss, ts, members, g, q);
      }
      forall x | x in ctx'.callable ensures CallableOk(p.unit, ctx', p.taken + names, x) {
        if x !in names {
          assert CallableOk(p.unit, p.ctx, p.taken, x);
        } else {
          assert ctx'.callable[x].captures == g.captured;
        }
      }
    }
  }

  /** The names of the group, in the two environments. */
  lemma GroupEnvs(p: Point, members: seq<Binding>, g: Group, binds: seq<Bind>, vals: seq<Val>)
    requires p.senv.Keys <= p.taken && p.tenv.Keys <= p.taken && BoundIds(members) !! p.taken
    requires DistinctNames(members) && g.members == members
    ensures var p' := WithGroup(p, g, binds, vals);
            && p'.senv.Keys == p.senv.Keys + BoundIds(members)
            && p'.tenv.Keys == p.tenv.Keys + BoundIds(members)
            && (forall x | x in p.senv :: p'.senv[x] == p.senv[x])
            && (forall x | x in p.tenv :: p'.tenv[x] == p.tenv[x])
            && (forall j | 0 <= j < |members| ::
                  && p'.senv[members[j].local.id] == Imm(VRec(members, j, binds, []))
                  && p'.tenv[members[j].local.id] == Imm(VClosure(g.first + j, vals)))
  {
    GroupNames(p.senv, p.tenv, members, g.first, binds, vals);
  }

  lemma GroupNames(senv: Env, tenv: Env, members: seq<Binding>, first: nat, binds: seq<Bind>, vals: seq<Val>)
    requires DistinctNames(members) && BoundIds(members) !! senv.Keys && BoundIds(members) !! tenv.Keys
    ensures var senv', tenv' := BindGroup(senv, members, binds), BindClosures(tenv, members, first, vals);
            && senv'.Keys == senv.Keys + BoundIds(members)
            && tenv'.Keys == tenv.Keys + BoundIds(members)
            && (forall x | x in senv :: senv'[x] == senv[x])
            && (forall x | x in tenv :: tenv'[x] == tenv[x])
            && (forall j | 0 <= j < |members| ::
                  && senv'[members[j].local.id] == Imm(VRec(members, j, binds, []))
                  && tenv'[members[j].local.id] == Imm(VClosure(first + j, vals)))
  {
    BindEachAt(senv, members, GroupValues(members, binds));
    BindEachAt(tenv, members, ClosureValues(|members|, first, vals));
  }

  /** The members of a group whose by-value captures are never mutated are callable from now on. */
  lemma NameBound(
    F: seq<Fun>, ctx: Ctx, tenv: Env, ts: Store, ctx': Ctx, senv': Env, tenv': Env, cs: seq<Captured>, x: nat)
    requires ctx'.direct == ctx.direct && ctx'.borrowed == ctx.borrowed
    requires ReadyAll(ctx, tenv, ts, cs)
    requires forall y | y in tenv :: y in tenv' && tenv'[y] == tenv[y]
    requires x in ctx'.callable && ctx'.callable[x].captures == cs
    requires x in senv' && senv'[x].Imm?
             && ValRel(F, senv'[x].v, VClosure(ctx'.callable[x].fid, AtVals(ctx, tenv, ts, cs)))
    ensures BoundAt(F, ctx', senv', tenv', ts, x)
  {
    ReadyOutside(ctx, tenv, tenv', ts, cs);
    ReadySame(ctx, ctx', tenv', ts, cs);
  }

  /** What is callable after a group is bound. */
  lemma AfterCallable(ctx: Ctx, g: Group, x: nat)
    requires DistinctNames(g.members) && x in AfterGroup(ctx, g).callable
    ensures x !in BoundIds(g.members) ==> x in ctx.callable && AfterGroup(ctx, g).callable[x] == ctx.callable[x]
    ensures x in BoundIds(g.members) && x !in ctx.callable ==>
              exists j | 0 <= j < |g.members| ::
                g.members[j].local.id == x
                && AfterGroup(ctx, g).callable[x] == RecursiveFunction(g.first + j, g.captured, g.boundIn)
  {
    BindEachAt(ctx.callable, g.members, LiftedFunctions(|g.members|, g.first, g.captured, g.boundIn));
    if x in BoundIds(g.members) && x !in ctx.callable {
      var j :| 0 <= j < |g.members| && g.members[j].local.id == x;
    }
  }

  lemma AfterGroupBound(
    F: seq<Fun>, p: Point, ss: Store, ts: Store, members: seq<Binding>, g: Group, binds: seq<Bind>, x: nat)
    requires Inv(F, p, ss, ts) && GroupHere(F, p, members, g)
    requires ReadyAll(p.ctx, p.tenv, ts, g.captured)
    requires CaptureBinds(p.senv, ss, GroupCaptures(members)) == Ok(binds, ss)
    requires |binds| == |GroupCaptures(members)|
    requires var p' := WithGroup(p, g, binds, AtVals(p.ctx, p.tenv, ts, g.captured));
             x in p'.ctx.callable && x !in p'.ctx.direct && x in p'.senv
    ensures var p' := WithGroup(p, g, binds, AtVals(p.ctx, p.tenv, ts, g.captured));
            BoundAt(F, p'.ctx, p'.senv, p'.tenv, ts, x)
  {
    var vals := AtVals(p.ctx, p.tenv, ts, g.captured);
    var p' := WithGroup(p, g, binds, vals);
    if x in BoundIds(members) {
      NamesFresh(p.unit, p.taken, p.scope, members);
      AfterCallable(p.ctx, g, x);
      var j :| 0 <= j < |members| && members[j].local.id == x
               && p'.ctx.callable[x] == RecursiveFunction(g.first + j, g.captured, g.boundIn);
      NewBound(F, p, ss, ts, members, g, binds, j);
    } else {
      OldBound(F, p, ss, ts, members, g, binds, vals, x);
    }
  }

  lemma NewBound(F: seq<Fun>, p: Point, ss: Store, ts: Store, members: seq<Binding>, g: Group, binds: seq<Bind>, j: nat)
    requires Inv(F, p, ss, ts) && GroupHere(F, p, members, g) && j < |members|
    requires ReadyAll(p.ctx, p.tenv, ts, g.captured)
    requires CaptureBinds(p.senv, ss, GroupCaptures(members)) == Ok(binds, ss)
    requires |binds| == |GroupCaptures(members)|
    requires var p' := WithGroup(p, g, binds, AtVals(p.ctx, p.tenv, ts, g.captured));
             var x := members[j].local.id;
             x in p'.ctx.callable && x in p'.senv
             && p'.ctx.callable[x] == RecursiveFunction(g.first + j, g.captured, g.boundIn)
    ensures var p' := WithGroup(p, g, binds, AtVals(p.ctx, p.tenv, ts, g.captured));
            BoundAt(F, p'.ctx, p'.senv, p'.tenv, ts, members[j].local.id)
  {
    var vals := AtVals(p.ctx, p.tenv, ts, g.captured);
    var p' := WithGroup(p, g, binds, vals);
    NamesFresh(p.unit, p.taken, p.scope, members);
    GroupEnvs(p, members, g, binds, vals);
    MemberRel(F, p, ss, ts, members, g, binds, j);
    NameBound(F, p.ctx, p.tenv, ts, p'.ctx, p'.senv, p'.tenv, g.captured, members[j].local.id);
  }

  lemma InvKeys(F: seq<Fun>, p: Point, ss: Store, ts: Store)
    requires Inv(F, p, ss, ts)
    ensures p.senv.Keys <= p.taken && p.tenv.Keys <= p.taken
  {
  }

  lemma InvBound(F: seq<Fun>, p: Point, ss: Store, ts: Store, x: nat)
    requires Inv(F, p, ss, ts) && x in p.ctx.callable && x !in p.ctx.direct && x in p.senv
    ensures BoundAt(F, p.ctx, p.senv, p.tenv, ts, x)
  {
  }

  lemma OldBound(
    F: seq<Fun>, p: Point, ss: Store, ts: Store, members: seq<Binding>, g: Group, binds: seq<Bind>, vals: seq<Val>,
    x: nat)
    requires Inv(F, p, ss, ts) && GroupHere(F, p, members, g) && x !in BoundIds(members)
    requires var p' := WithGroup(p, g, binds, vals);
             x in p'.ctx.callable && x !in p'.ctx.direct && x in p'.senv
    ensures var p' := WithGroup(p, g, binds, vals);
            BoundAt(F, p'.ctx, p'.senv, p'.tenv, ts, x)
  {
    hide Inv, ValRel, BoundAt, GroupOf, GroupCaptures;
    var p' := WithGroup(p, g, binds, vals);
    AfterCallable(p.ctx, g, x);
    NamesFresh(p.unit, p.taken, p.scope, members);
    InvKeys(F, p, ss, ts);
    GroupEnvs(p, members, g, binds, vals);
    InvBound(F, p, ss, ts, x);
    BoundKept(F, p.ctx, p.senv, p.tenv, ts, p'.ctx, p'.senv, p'.tenv, x);
  }

  lemma BoundKept(F: seq<Fun>, ctx: Ctx, senv: Env, tenv: Env, ts: Store, ctx': Ctx, senv': Env, tenv': Env, x: nat)
    requires ctx'.direct == ctx.direct && ctx'.borrowed == ctx.borrowed
    requires x in ctx.callable && x in ctx'.callable && ctx'.callable[x] == ctx.callable[x]
    requires x in senv && BoundAt(F, ctx, senv, tenv, ts, x)
    requires x in senv' && senv'[x] == senv[x]
    requires forall y | y in tenv :: y in tenv' && tenv'[y] == tenv[y]
    ensures BoundAt(F, ctx', senv', tenv', ts, x)
  {
    BoundAtStays(F, ctx, senv, tenv, ts, senv', tenv', ts, x);
    BoundSame(F, ctx, ctx', senv', tenv', ts, x);
  }

  lemma BoundSame(F: seq<Fun>, ctx: Ctx, ctx': Ctx, senv: Env, tenv: Env, ts: Store, x: nat)
    requires ctx'.direct == ctx.direct && ctx'.borrowed == ctx.borrowed
    requires x in ctx.callable && x in ctx'.callable && ctx'.callable[x] == ctx.callable[x] && x in senv
    requires BoundAt(F, ctx, senv, tenv, ts, x)
    ensures BoundAt(F, ctx', senv, tenv, ts, x)
  {
    ReadySame(ctx, ctx', tenv, ts, ctx.callable[x].captures);
  }

  lemma ReadySame(ctx: Ctx, ctx': Ctx, env: Env, s: Store, cs: seq<Captured>)
    requires ctx'.direct == ctx.direct && ctx'.borrowed == ctx.borrowed
    requires ReadyAll(ctx, env, s, cs)
    ensures ReadyAll(ctx', env, s, cs) && AtVals(ctx', env, s, cs) == AtVals(ctx, env, s, cs)
  {
    forall k | 0 <= k < |cs|
      ensures Ready(ctx', env, s, cs[k]) && AtVal(ctx', env, s, cs[k]) == AtVal(ctx, env, s, cs[k])
    {
      assert Ready(ctx, env, s, cs[k]);
    }
  }

  lemma AfterGroupAt(
    F: seq<Fun>, p: Point, ss: Store, ts: Store, members: seq<Binding>, g: Group, binds: seq<Bind>, x: nat)
    requires Inv(F, p, ss, ts) && GroupHere(F, p, members, g)
    requires ReadyAll(p.ctx, p.tenv, ts, g.captured)
    requires CaptureBinds(p.senv, ss, GroupCaptures(members)) == Ok(binds, ss)
    requires |binds| == |GroupCaptures(members)|
    requires var p' := WithGroup(p, g, binds, AtVals(p.ctx, p.tenv, ts, g.captured)); x in p'.senv
    ensures var p' := WithGroup(p, g, binds, AtVals(p.ctx, p.tenv, ts, g.captured));
            EnvAt(F, p'.ctx, p'.tenv, x, p'.senv[x])
  {
    var vals := AtVals(p.ctx, p.tenv, ts, g.captured);
    var p' := WithGroup(p, g, binds, vals);
    NamesFresh(p.unit, p.taken, p.scope, members);
    GroupEnvs(p, members, g, binds, vals);
    if x in BoundIds(members) {
      var j :| 0 <= j < |members| && members[j].local.id == x;
      MemberRel(F, p, ss, ts, members, g, binds, j);
      BoundName(F, p', x);
    } else {
      EnvAtStays(F, p.ctx, p.tenv, p'.tenv, x, p.senv[x]);
    }
  }

  lemma BoundName(F: seq<Fun>, p: Point, x: nat)
    requires x !in p.ctx.direct && x !in p.ctx.borrowed && x in p.senv && x in p.tenv
    requires p.senv[x].Imm? && p.tenv[x].Imm? && ValRel(F, p.senv[x].v, p.tenv[x].v)
    ensures EnvAt(F, p.ctx, p.tenv, x, p.senv[x])
  {
  }

  /** Binding a group keeps the frames together, and makes its members callable when that is allowed. */
  lemma BindGroupInv(F: seq<Fun>, p: Point, ss: Store, ts: Store, members: seq<Binding>, g: Group, binds: seq<Bind>)
    requires Inv(F, p, ss, ts) && GroupHere(F, p, members, g)
    requires ReadyAll(p.ctx, p.tenv, ts, g.captured)
    requires CaptureBinds(p.senv, ss, GroupCaptures(members)) == Ok(binds, ss)
    requires |binds| == |GroupCaptures(members)|
    ensures Inv(F, WithGroup(p, g, binds, AtVals(p.ctx, p.tenv, ts, g.captured)), ss, ts)
  {
    var vals := AtVals(p.ctx, p.tenv, ts, g.captured);
    var p' := WithGroup(p, g, binds, vals);
    AfterGroupOk(F, p, ss, ts, members, g);
    NamesFresh(p.unit, p.taken, p.scope, members);
    GroupEnvs(p, members, g, binds, vals);
    AtValsSafe(F, p, ss, ts, g.captured);
    forall x | x in p'.senv ensures EnvAt(F, p'.ctx, p'.tenv, x, p'.senv[x]) {
      AfterGroupAt(F, p, ss, ts, members, g, binds, x);
    }
    forall x | x in p'.ctx.callable && x !in p'.ctx.direct && x in p'.senv
      ensures BoundAt(F, p'.ctx, p'.senv, p'.tenv, ts, x)
    {
      AfterGroupBound(F, p, ss, ts, members, g, binds, x);
    }
    AfterGroupSafe(p, ts, members, g, binds, vals);
  }

  lemma AfterGroupSafe(p: Point, ts: Store, members: seq<Binding>, g: Group, binds: seq<Bind>, vals: seq<Val>)
    requires SafeEnv(p.frozen, |ts|, p.tenv) && SafeAll(p.frozen, |ts|, vals)
    requires g.members == members
    requires var p' := WithGroup(p, g, binds, vals);
             && p'.tenv.Keys == p.tenv.Keys + BoundIds(members)
             && (forall x | x in p.tenv :: p'.tenv[x] == p.tenv[x])
             && (forall j | 0 <= j < |members| :: p'.tenv[members[j].local.id] == Imm(VClosure(g.first + j, vals)))
    ensures var p' := WithGroup(p, g, binds, vals);
            && SafeEnv(p.frozen, |ts|, p'.tenv)
            && (forall x | x in p'.tenv && p'.tenv[x].Cell? :: x in p.tenv && p.tenv[x] == p'.tenv[x])
  {
    var p' := WithGroup(p, g, binds, vals);
    forall x | x in p'.tenv && x !in p.tenv ensures p'.tenv[x].Imm? && SafeBind(p.frozen, |ts|, p'.tenv[x]) {
      var j :| 0 <= j < |members| && members[j].local.id == x;
      assert SafeVal(p.frozen, |ts|, VClosure(g.first + j, vals));
    }
  }
}

/**
  Frames of the source program and the frames of the lowered program that stand for them: what it
  takes to read a local, to bind one, to bind a group, and to enter a lifted function.
 */
module LetRecFrames {
  import opened LetRecSyntax
  import opened LetRecEval
  import opened LetRecLowering
  import opened LetRecRelation
  import opened LetRecFrozen

  // ----- the values of captures in a frame -----

  ghost predicate Holds(env: Env, cs: seq<Captured>) {
    forall k | 0 <= k < |cs| :: cs[k].local.id in env && env[cs[k].local.id].Imm?
  }

  /** The values of the captures `cs` in the frame of a member. */
  function BodyVals(env: Env, cs: seq<Captured>): (r: seq<Val>)
    requires forall k | 0 <= k < |cs| :: cs[k].local.id in env && env[cs[k].local.id].Imm?
    ensures |r| == |cs|
    ensures forall k | 0 <= k < |r| :: r[k] == env[cs[k].local.id].v
  {
    seq(|cs|, k requires 0 <= k < |cs| => env[cs[k].local.id].v)
  }

  /** Whether the frame can take the capture `c` for a closure. */
  ghost predicate Ready(ctx: Ctx, env: Env, s: Store, c: Captured) {
    && c.local.id in env
    && c.local.id !in ctx.direct
    && (env[c.local.id].Cell? ==> env[c.local.id].loc < |s|)
    && (c.local.id in ctx.borrowed ==>
          c.borrowed && ctx.borrowed[c.local.id] == c.local.ty
          && env[c.local.id].Imm? && env[c.local.id].v.VRef? && !env[c.local.id].v.exclusive)
  }

  ghost function AtVal(ctx: Ctx, env: Env, s: Store, c: Captured): Val
    requires Ready(ctx, env, s, c)
  {
    var b := env[c.local.id];
    if c.local.id in ctx.borrowed then b.v
    else if c.borrowed then VRef(b, false)
    else if b.Imm? then b.v
    else s[b.loc]
  }

  ghost predicate ReadyAll(ctx: Ctx, env: Env, s: Store, cs: seq<Captured>) {
    forall k | 0 <= k < |cs| :: Ready(ctx, env, s, cs[k])
  }

  /** What a closure that is made in the frame takes for the captures `cs`. */
  ghost function AtVals(ctx: Ctx, env: Env, s: Store, cs: seq<Captured>): (r: seq<Val>)
    requires ReadyAll(ctx, env, s, cs)
    ensures |r| == |cs|
    ensures forall k | 0 <= k < |r| :: r[k] == AtVal(ctx, env, s, cs[k])
  {
    seq(|cs|, k requires 0 <= k < |cs| => AtVal(ctx, env, s, cs[k]))
  }

  // ----- a point of an evaluation -----

  /** Where two evaluations stand: the unit, what the lowered frame knows, the names, the frozen cells of
      the frame, and the two environments. */
  datatype Point = Point(
    unit: Unit,
    ctx: Ctx,
    taken: set<nat>,
    scope: set<nat>,
    own: set<nat>,
    frozen: set<nat>,
    senv: Env,
    tenv: Env)

  /** The local `x`, which the source binds to `b`, is what the lowered frame has for it. */
  ghost predicate EnvAt(F: seq<Fun>, ctx: Ctx, tenv: Env, x: nat, b: Bind) {
    if x in ctx.direct then
      && b.Imm?
      && Holds(tenv, ctx.direct[x].captures)
      && ValRel(F, b.v, VClosure(ctx.direct[x].fid, BodyVals(tenv, ctx.direct[x].captures)))
    else if x in ctx.borrowed then
      x in tenv && tenv[x].Imm? && tenv[x].v.VRef? && !tenv[x].v.exclusive && BindRel(F, b, tenv[x].v.to)
    else x in tenv && BindRel(F, b, tenv[x])
  }

  /** A function that was bound in this frame and can be called directly: a closure of it made now would
      be the one that was made when it was bound. */
  ghost predicate BoundAt(F: seq<Fun>, ctx: Ctx, senv: Env, tenv: Env, ts: Store, x: nat)
    requires x in ctx.callable && x in senv
  {
    var f := ctx.callable[x];
    && senv[x].Imm?
    && ReadyAll(ctx, tenv, ts, f.captures)
    && ValRel(F, senv[x].v, VClosure(f.fid, AtVals(ctx, tenv, ts, f.captures)))
  }

  ghost predicate EnvRel(F: seq<Fun>, p: Point, ts: Store) {
    && p.scope <= p.senv.Keys <= p.taken
    && p.tenv.Keys <= p.taken
    && p.own <= p.taken
    && (forall x | x in p.senv :: EnvAt(F, p.ctx, p.tenv, x, p.senv[x]))
    && (forall x | x in p.ctx.callable && x !in p.ctx.direct && x in p.senv :: BoundAt(F, p.ctx, p.senv, p.tenv, ts, x))
    && (forall x | x in p.ctx.borrowed ::
          x in p.tenv && p.tenv[x].Imm? && p.tenv[x].v.VRef? && !p.tenv[x].v.exclusive)
    && (forall x | x in p.tenv && p.tenv[x].Cell? ::
          p.tenv[x].loc < |ts| && (p.tenv[x].loc in p.frozen <==> x !in p.unit.mutated))
  }

  ghost predicate Inv(F: seq<Fun>, p: Point, ss: Store, ts: Store) {
    && CtxOk(p.unit, p.ctx, p.taken, p.own)
    && EnvRel(F, p, ts)
    && StoreRel(F, ss, ts)
    && SafeStore(p.frozen, ts)
    && SafeEnv(p.frozen, |ts|, p.tenv)
  }

  /** The stores have moved on, and the frozen cells have not changed. */
  lemma Advance(F: seq<Fun>, p: Point, ss: Store, ts: Store, ss': Store, ts': Store)
    requires Inv(F, p, ss, ts) && StoreRel(F, ss', ts') && Kept(p.frozen, ts, ts')
    ensures Inv(F, p, ss', ts')
  {
    SafeEnvGrows(p.frozen, |ts|, |ts'|, p.tenv);
    forall x | x in p.ctx.callable && x !in p.ctx.direct && x in p.senv
      ensures BoundAt(F, p.ctx, p.senv, p.tenv, ts', x)
    {
      BoundStays(F, p, ss, ts, ts', x);
    }
  }

  lemma BoundStays(F: seq<Fun>, p: Point, ss: Store, ts: Store, ts': Store, x: nat)
    requires Inv(F, p, ss, ts) && Kept(p.frozen, ts, ts')
    requires x in p.ctx.callable && x !in p.ctx.direct && x in p.senv
    ensures BoundAt(F, p.ctx, p.senv, p.tenv, ts', x)
  {
    var cs := p.ctx.callable[x].captures;
    assert BoundAt(F, p.ctx, p.senv, p.tenv, ts, x);
    assert CallableOk(p.unit, p.ctx, p.taken, x);
    forall k | 0 <= k < |cs|
      ensures Ready(p.ctx, p.tenv, ts', cs[k])
      ensures AtVal(p.ctx, p.tenv, ts', cs[k]) == AtVal(p.ctx, p.tenv, ts, cs[k])
    {
      assert Ready(p.ctx, p.tenv, ts, cs[k]);
    }
    assert AtVals(p.ctx, p.tenv, ts', cs) == AtVals(p.ctx, p.tenv, ts, cs);
  }

  // ----- reading -----

  lemma LoadRel(F: seq<Fun>, b: Bind, b': Bind, ss: Store, ts: Store)
    requires BindRel(F, b, b') && StoreRel(F, ss, ts)
    ensures ResRel(F, Load(b, ss), Load(b', ts))
  {
  }

  lemma {:induction false} EvalInBodies(F: seq<Fun>, fuel: nat, env: Env, s: Store, cs: seq<Captured>)
    requires Holds(env, cs)
    ensures EvalAll(F, fuel, env, s, InBodies(cs)) == Ok(BodyVals(env, cs), s)
    decreases |cs|
  {
    if cs == [] {
      assert InBodies(cs) == [] && BodyVals(env, cs) == [];
    } else {
      assert Holds(env, cs[1..]);
      EvalInBodies(F, fuel, env, s, cs[1..]);
      assert InBodies(cs)[1..] == InBodies(cs[1..]);
      assert InBodies(cs)[0] == InBody(cs[0]);
      assert Eval(F, fuel, env, s, InBody(cs[0])) == Ok(env[cs[0].local.id].v, s);
      assert BodyVals(env, cs) == [env[cs[0].local.id].v] + BodyVals(env, cs[1..]);
    }
  }

  lemma VarRel(F: seq<Fun>, fuel: nat, p: Point, ss: Store, ts: Store, x: nat, ty: Ty)
    requires Inv(F, p, ss, ts) && x in p.senv && x in p.unit.types && p.unit.types[x] == ty
    ensures ResRel(F, Read(p.senv, ss, x), Eval(F, fuel, p.tenv, ts, RewriteVar(p.ctx.direct, p.ctx.borrowed, x, ty)))
    ensures var r' := Eval(F, fuel, p.tenv, ts, RewriteVar(p.ctx.direct, p.ctx.borrowed, x, ty));
            r'.Ok? ==> r'.store == ts
  {
    assert EnvAt(F, p.ctx, p.tenv, x, p.senv[x]);
    var t := RewriteVar(p.ctx.direct, p.ctx.borrowed, x, ty);
    assert Read(p.senv, ss, x) == Load(p.senv[x], ss);
    if x in p.ctx.direct {
      EvalInBodies(F, fuel, p.tenv, ts, p.ctx.direct[x].captures);
    } else if x in p.ctx.borrowed {
      assert t == Deref(Var(x, Reference(ty, false)));
      LoadRel(F, p.senv[x], p.tenv[x].v.to, ss, ts);
    } else {
      LoadRel(F, p.senv[x], p.tenv[x], ss, ts);
    }
  }

  // ----- binding a local -----

  function WithLocal(p: Point, local: Local, senv: Env, tenv: Env, loc: nat): Point {
    p.(taken := p.taken + {local.id},
       scope := p.scope + {local.id},
       own := p.own + {local.id},
       frozen := if local.mutable && local.id !in p.unit.mutated then p.frozen + {loc} else p.frozen,
       senv := senv,
       tenv := tenv)
  }

  /** A cell that does not exist yet is out of every value's reach. */
  lemma {:induction false} SafeFresh(frozen: set<nat>, size: nat, v: Val)
    requires SafeVal(frozen, size, v)
    ensures SafeVal(frozen + {size}, size + 1, v)
    decreases v
  {
    match v
    case VInt(_) =>
    case VUnit =>
    case VRef(to, _) => if to.Imm? { SafeFresh(frozen, size, to.v); }
    case VClosure(_, vals) =>
      forall k | 0 <= k < |vals| ensures SafeVal(frozen + {size}, size + 1, vals[k]) {
        SafeFresh(frozen, size, vals[k]);
      }
  }

  lemma {:induction false} SafeFewer(frozen: set<nat>, fewer: set<nat>, size: nat, v: Val)
    requires SafeVal(frozen, size, v) && fewer <= frozen
    ensures SafeVal(fewer, size, v)
    decreases v
  {
    match v
    case VInt(_) =>
    case VUnit =>
    case VRef(to, _) => if to.Imm? { SafeFewer(frozen, fewer, size, to.v); }
    case VClosure(_, vals) =>
      forall k | 0 <= k < |vals| ensures SafeVal(fewer, size, vals[k]) {
        SafeFewer(frozen, fewer, size, vals[k]);
      }
  }

  lemma SafeWithLocal(p: Point, ts: Store, local: Local, v': Val)
    requires SafeStore(p.frozen, ts) && SafeEnv(p.frozen, |ts|, p.tenv) && SafeVal(p.frozen, |ts|, v')
    ensures var (tenv', ts') := BindLocal(p.tenv, ts, local, v');
            var frozen' := WithLocal(p, local, p.senv, tenv', |ts|).frozen;
            SafeStore(frozen', ts') && SafeEnv(frozen', |ts'|, tenv')
  {
    if local.mutable {
      var grown := p.frozen + {|ts|};
      forall l | 0 <= l < |ts| ensures SafeVal(grown, |ts| + 1, ts[l]) && SafeVal(p.frozen, |ts| + 1, ts[l]) {
        SafeFresh(p.frozen, |ts|, ts[l]);
        SafeFewer(grown, p.frozen, |ts| + 1, ts[l]);
      }
      SafeFresh(p.frozen, |ts|, v');
      SafeFewer(grown, p.frozen, |ts| + 1, v');
      forall x | x in p.tenv
        ensures SafeBind(grown, |ts| + 1, p.tenv[x]) && SafeBind(p.frozen, |ts| + 1, p.tenv[x])
      {
        if p.tenv[x].Imm? {
          SafeFresh(p.frozen, |ts|, p.tenv[x].v);
          SafeFewer(grown, p.frozen, |ts| + 1, p.tenv[x].v);
        }
      }
    }
  }

  lemma EnvAtStays(F: seq<Fun>, ctx: Ctx, tenv: Env, tenv': Env, x: nat, b: Bind)
    requires EnvAt(F, ctx, tenv, x, b)
    requires forall y | y in tenv :: y in tenv' && tenv'[y] == tenv[y]
    ensures EnvAt(F, ctx, tenv', x, b)
  {
    if x in ctx.direct {
      assert BodyVals(tenv', ctx.direct[x].captures) == BodyVals(tenv, ctx.direct[x].captures);
    }
  }

  lemma BoundAtStays(F: seq<Fun>, ctx: Ctx, senv: Env, tenv: Env, ts: Store, senv': Env, tenv': Env, ts': Store, x: nat)
    requires x in ctx.callable && x in senv && BoundAt(F, ctx, senv, tenv, ts, x)
    requires x in senv' && senv'[x] == senv[x]
    requires forall y | y in tenv :: y in tenv' && tenv'[y] == tenv[y]
    requires ts <= ts'
    ensures BoundAt(F, ctx, senv', tenv', ts', x)
  {
    var cs := ctx.callable[x].captures;
    forall k | 0 <= k < |cs|
      ensures Ready(ctx, tenv', ts', cs[k]) && AtVal(ctx, tenv', ts', cs[k]) == AtVal(ctx, tenv, ts, cs[k])
    {
      assert Ready(ctx, tenv, ts, cs[k]);
    }
    assert AtVals(ctx, tenv', ts', cs) == AtVals(ctx, tenv, ts, cs);
  }

  lemma CtxWithNames(unit: Unit, ctx: Ctx, taken: set<nat>, own: set<nat>, names: set<nat>, more: set<nat>)
    requires CtxOk(unit, ctx, taken, own) && names !! taken && more <= names
    ensures CtxOk(unit, ctx, taken + names, own + more)
  {
    forall x | x in ctx.callable ensures CallableOk(unit, ctx, taken + names, x) {
      assert CallableOk(unit, ctx, taken, x);
    }
  }

  /** Binding one new local, a parameter or a `let`, keeps the frames together. */
  lemma BindLocalInv(F: seq<Fun>, p: Point, ss: Store, ts: Store, local: Local, v: Val, v': Val)
    requires Inv(F, p, ss, ts) && local.id !in p.taken
    requires ValRel(F, v, v') && SafeVal(p.frozen, |ts|, v')
    ensures var (senv', ss') := BindLocal(p.senv, ss, local, v);
            var (tenv', ts') := BindLocal(p.tenv, ts, local, v');
            Inv(F, WithLocal(p, local, senv', tenv', |ts|), ss', ts')
  {
    hide EnvRel, CtxOk, ValRel, SafeVal;
    SafeWithLocal(p, ts, local, v');
    CtxWithNames(p.unit, p.ctx, p.taken, p.own, {local.id}, {local.id});
    LocalEnvRel(F, p, ss, ts, local, v, v');
  }

  lemma LocalEnvRel(F: seq<Fun>, p: Point, ss: Store, ts: Store, local: Local, v: Val, v': Val)
    requires Inv(F, p, ss, ts) && local.id !in p.taken && ValRel(F, v, v')
    ensures var (senv', ss') := BindLocal(p.senv, ss, local, v);
            var (tenv', ts') := BindLocal(p.tenv, ts, local, v');
            EnvRel(F, WithLocal(p, local, senv', tenv', |ts|), ts')
  {
    hide ValRel, SafeVal, SafeEnv, SafeAll, EnvAt, BoundAt, CtxOk, StoreRel, SafeStore;
    var (senv', ss') := BindLocal(p.senv, ss, local, v);
    var (tenv', ts') := BindLocal(p.tenv, ts, local, v');
    forall x | x in senv' ensures EnvAt(F, p.ctx, tenv', x, senv'[x]) { LocalEnvAt(F, p, ss, ts, local, v, v', x); }
    forall x | x in p.ctx.callable && x !in p.ctx.direct && x in senv' ensures BoundAt(F, p.ctx, senv', tenv', ts', x) {
      LocalBoundAt(F, p, ss, ts, local, v, v', x);
    }
    LocalCells(F, p, ss, ts, local, v');
  }

  lemma LocalEnvAt(F: seq<Fun>, p: Point, ss: Store, ts: Store, local: Local, v: Val, v': Val, x: nat)
    requires Inv(F, p, ss, ts) && local.id !in p.taken && ValRel(F, v, v')
    requires x in BindLocal(p.senv, ss, local, v).0
    ensures EnvAt(F, p.ctx, BindLocal(p.tenv, ts, local, v').0, x, BindLocal(p.senv, ss, local, v).0[x])
  {
    hide ValRel, SafeVal, SafeStore, SafeEnv;
    if x != local.id {
      EnvAtStays(F, p.ctx, p.tenv, BindLocal(p.tenv, ts, local, v').0, x, p.senv[x]);
    }
  }

  lemma LocalBoundAt(F: seq<Fun>, p: Point, ss: Store, ts: Store, local: Local, v: Val, v': Val, x: nat)
    requires Inv(F, p, ss, ts) && local.id !in p.taken
    requires x in p.ctx.callable && x !in p.ctx.direct && x in BindLocal(p.senv, ss, local, v).0
    ensures var (tenv', ts') := BindLocal(p.tenv, ts, local, v');
            BoundAt(F, p.ctx, BindLocal(p.senv, ss, local, v).0, tenv', ts', x)
  {
    hide ValRel, SafeVal, SafeStore, SafeEnv, StoreRel;
    var (tenv', ts') := BindLocal(p.tenv, ts, local, v');
    assert x != local.id;
    BoundAtStays(F, p.ctx, p.senv, p.tenv, ts, BindLocal(p.senv, ss, local, v).0, tenv', ts', x);
  }

  lemma LocalCells(F: seq<Fun>, p: Point, ss: Store, ts: Store, local: Local, v': Val)
    requires Inv(F, p, ss, ts) && local.id !in p.taken
    ensures var (tenv', ts') := BindLocal(p.tenv, ts, local, v');
            var p' := WithLocal(p, local, p.senv, tenv', |ts|);
            && (forall x | x in p.ctx.borrowed ::
                x in tenv' && tenv'[x].Imm? && tenv'[x].v.VRef? && !tenv'[x].v.exclusive)
            && (forall x | x in tenv' && tenv'[x].Cell? ::
                  tenv'[x].loc < |ts'| && (tenv'[x].loc in p'.frozen <==> x !in p.unit.mutated))
  {
    hide SafeVal, SafeEnv, SafeAll, StoreRel, EnvAt, BoundAt;
  }

  /** The point after the parameters `locals` are bound. */
  ghost predicate Extends(p: Point, p': Point, locals: seq<Local>) {
    && p'.unit == p.unit && p'.ctx == p.ctx
    && p'.taken == p.taken + IdSet(locals)
    && p'.scope == p.scope + IdSet(locals)
    && p'.own == p.own + IdSet(locals)
  }

  lemma IdSetTail(locals: seq<Local>)
    requires locals != []
    ensures IdSet(locals) == {locals[0].id} + IdSet(locals[1..])
  {
    forall x | x in IdSet(locals) ensures x == locals[0].id || x in IdSet(locals[1..]) {
      var k :| 0 <= k < |locals| && locals[k].id == x;
      if k > 0 { assert locals[1..][k - 1].id == x; }
    }
    forall x | x in IdSet(locals[1..]) ensures x in IdSet(locals) {
      var k :| 0 <= k < |locals| - 1 && locals[1..][k].id == x;
      assert locals[k + 1].id == x;
    }
    assert locals[0].id in IdSet(locals);
  }

  lemma {:induction false} BindAllInv(
    F: seq<Fun>, p: Point, ss: Store, ts: Store, locals: seq<Local>, vals: seq<Val>, vals': seq<Val>)
    returns (p': Point)
    requires Inv(F, p, ss, ts) && |locals| == |vals|
    requires DistinctIds(locals) && forall k | 0 <= k < |locals| :: locals[k].id !in p.taken
    requires ValsRel(F, vals, vals') && SafeAll(p.frozen, |ts|, vals')
    ensures Extends(p, p', locals)
    ensures var (senv', ss') := BindAll(p.senv, ss, locals, vals);
            var (tenv', ts') := BindAll(p.tenv, ts, locals, vals');
            p'.senv == senv' && p'.tenv == tenv' && Inv(F, p', ss', ts')
    decreases |locals|
  {
    hide Inv, ValRel, SafeVal;
    if locals == [] {
      p' := p;
      assert IdSet(locals) == {};
    } else {
      var (senv1, ss1) := BindLocal(p.senv, ss, locals[0], vals[0]);
      var (tenv1, ts1) := BindLocal(p.tenv, ts, locals[0], vals'[0]);
      var p1 := WithLocal(p, locals[0], senv1, tenv1, |ts|);
      BindLocalInv(F, p, ss, ts, locals[0], vals[0], vals'[0]);
      forall k | 0 <= k < |vals'| ensures SafeVal(p1.frozen, |ts1|, vals'[k]) {
        SafeFresh(p.frozen, |ts|, vals'[k]);
        SafeFewer(p.frozen + {|ts|}, p1.frozen, |ts| + 1, vals'[k]);
      }
      IdSetTail(locals);
      p' := BindAllInv(F, p1, ss1, ts1, locals[1..], vals[1..], vals'[1..]);
    }
  }
}

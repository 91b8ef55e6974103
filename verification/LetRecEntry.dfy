/**
  Entering a function of the lowered program: the frame that its leading parameters make stands for
  the frame that the source function value starts from.
 */
module LetRecEntry {
  import opened LetRecSyntax
  import opened LetRecEval
  import opened LetRecLowering
  import opened LetRecRelation
  import opened LetRecFrozen
  import opened LetRecFrames

  lemma {:induction false} BindAllConcat(env: Env, s: Store, a: seq<Local>, b: seq<Local>, va: seq<Val>, vb: seq<Val>)
    requires |a| == |va| && |b| == |vb|
    ensures var (env1, s1) := BindAll(env, s, a, va);
            BindAll(env, s, a + b, va + vb) == BindAll(env1, s1, b, vb)
    decreases |a|
  {
    if a == [] {
      assert a + b == b && va + vb == vb;
    } else {
      var (env', s') := BindLocal(env, s, a[0], va[0]);
      assert (a + b)[1..] == a[1..] + b && (va + vb)[1..] == va[1..] + vb;
      BindAllConcat(env', s', a[1..], b, va[1..], vb);
    }
  }

  /** Immutable locals with distinct names are bound to their values, and the store stays. */
  lemma {:induction false} BindDistinct(env: Env, s: Store, locals: seq<Local>, vals: seq<Val>)
    requires |locals| == |vals| && DistinctIds(locals) && forall k | 0 <= k < |locals| :: !locals[k].mutable
    ensures var (env', s') := BindAll(env, s, locals, vals);
            && s' == s
            && env'.Keys == env.Keys + IdSet(locals)
            && (forall k | 0 <= k < |locals| :: env'[locals[k].id] == Imm(vals[k]))
            && (forall x | x in env && x !in IdSet(locals) :: env'[x] == env[x])
    decreases |locals|
  {
    if locals == [] {
      assert IdSet(locals) == {};
    } else {
      var (env1, _) := BindLocal(env, s, locals[0], vals[0]);
      IdSetTail(locals);
      BindDistinct(env1, s, locals[1..], vals[1..]);
      assert locals[0].id !in IdSet(locals[1..]);
      var env' := BindAll(env, s, locals, vals).0;
      forall k | 0 <= k < |locals| ensures k > 0 ==> locals[1..][k - 1] == locals[k] && vals[1..][k - 1] == vals[k] {}
    }
  }

  ghost predicate Twins(F: seq<Fun>, senv: Env, tenv: Env) {
    senv.Keys == tenv.Keys && forall x | x in senv :: tenv[x].Imm? && BindRel(F, senv[x], tenv[x])
  }

  lemma {:induction false} BindTwins(
    F: seq<Fun>, senv: Env, tenv: Env, ss: Store, ts: Store, locals: seq<Local>, vals: seq<Val>, vals': seq<Val>)
    requires Twins(F, senv, tenv) && |locals| == |vals| && ValsRel(F, vals, vals')
    requires forall k | 0 <= k < |locals| :: !locals[k].mutable
    ensures var (senv', _) := BindAll(senv, ss, locals, vals);
            var (tenv', ts') := BindAll(tenv, ts, locals, vals');
            Twins(F, senv', tenv') && ts' == ts && senv'.Keys == senv.Keys + IdSet(locals)
    decreases |locals|
  {
    if locals == [] {
      assert IdSet(locals) == {};
    } else {
      IdSetTail(locals);
      BindTwins(F, senv[locals[0].id := Imm(vals[0])], tenv[locals[0].id := Imm(vals'[0])], ss, ts,
                locals[1..], vals[1..], vals'[1..]);
    }
  }

  lemma {:induction false} BindCapturesLookup(env: Env, captures: seq<Local>, binds: seq<Bind>, x: nat)
    requires |captures| == |binds|
    ensures var r := BindCaptures(env, captures, binds);
            if x in IdSet(captures) then x in r && exists k | 0 <= k < |captures| ::
              captures[k].id == x && r[x] == binds[k]
            else (x in r <==> x in env) && (x in env ==> r[x] == env[x])
    decreases |captures|
  {
    if captures != [] {
      IdSetTail(captures);
      var env1 := env[captures[0].id := binds[0]];
      BindCapturesLookup(env1, captures[1..], binds[1..], x);
      var r := BindCaptures(env, captures, binds);
      if x in IdSet(captures[1..]) {
        var k :| 0 <= k < |captures| - 1 && captures[1..][k].id == x && r[x] == binds[1..][k];
        assert captures[k + 1].id == x && r[x] == binds[k + 1];
      } else if x == captures[0].id {
        assert r[x] == binds[0];
      }
    }
  }

  // ----- the frame of a lambda -----

  lemma LambdaFrame(
    F: seq<Fun>, unit: Unit, lambda: Expr, taken: set<nat>, ss: Store, ts: Store, vals: seq<Val>, vals': seq<Val>)
    returns (p: Point)
    requires LambdaOk(unit, lambda, taken) && |vals| == |lambda.captures|
    requires StoreRel(F, ss, ts) && SafeStore({}, ts) && ValsRel(F, vals, vals') && SafeAll({}, |ts|, vals')
    ensures p.unit == unit && p.ctx == NO_CTX && p.taken == taken && p.own == {} && p.frozen == {}
    ensures p.scope == IdSet(lambda.captures)
    ensures p.senv == BindAll(map[], [], Immutables(lambda.captures), vals).0
    ensures BindAll(map[], ts, lambda.captures, vals') == (p.tenv, ts)
    ensures Inv(F, p, ss, ts)
  {
    var captures := lambda.captures;
    assert Immutables(captures) == captures;
    BindTwins(F, map[], map[], [], ts, captures, vals, vals');
    BindAllSafe({}, map[], ts, captures, vals', {});
    var senv := BindAll(map[], [], Immutables(captures), vals).0;
    var tenv := BindAll(map[], ts, captures, vals').0;
    p := Point(unit, NO_CTX, taken, IdSet(captures), {}, {}, senv, tenv);
    assert IdSet(captures) <= taken;
  }

  // ----- the frame of a member of a group -----

  /** The parameters of the captures of a group, bound to `vals`. */
  ghost predicate CaptureFrame(g: Group, tenv: Env, vals: seq<Val>) {
    && |g.captured| <= |vals|
    && tenv.Keys == IdSet(CapturedLocals(g.captured))
    && (forall k | 0 <= k < |g.captured| ::
        g.captured[k].local.id in tenv && tenv[g.captured[k].local.id] == Imm(vals[k]))
  }

  lemma ParameterIds(cs: seq<Captured>)
    requires DistinctIds(CapturedLocals(cs))
    ensures DistinctIds(Parameters(cs)) && IdSet(Parameters(cs)) == IdSet(CapturedLocals(cs))
  {
    assert forall k | 0 <= k < |cs| :: Parameters(cs)[k].id == CapturedLocals(cs)[k].id;
  }

  lemma CaptureFrameOf(g: Group, ts: Store, vals: seq<Val>)
    returns (tenv: Env)
    requires DistinctIds(CapturedLocals(g.captured)) && |g.captured| <= |vals|
    requires forall k | 0 <= k < |g.captured| :: !g.captured[k].local.mutable
    requires SafeStore({}, ts) && SafeAll({}, |ts|, vals)
    ensures BindAll(map[], ts, Parameters(g.captured), vals[..|g.captured|]) == (tenv, ts)
    ensures CaptureFrame(g, tenv, vals) && SafeEnv({}, |ts|, tenv)
  {
    var parameters := Parameters(g.captured);
    ParameterIds(g.captured);
    BindDistinct(map[], ts, parameters, vals[..|g.captured|]);
    BindAllSafe({}, map[], ts, parameters, vals[..|g.captured|], {});
    tenv := BindAll(map[], ts, parameters, vals[..|g.captured|]).0;
    forall k | 0 <= k < |g.captured|
      ensures g.captured[k].local.id in tenv && tenv[g.captured[k].local.id] == Imm(vals[k])
    {
      assert parameters[k].id == g.captured[k].local.id;
    }
  }

  /** A function that a member calls directly gets what its own captures are. */
  lemma SelectedBodyVals(g: Group, taken: set<nat>, tenv: Env, vals: seq<Val>, x: nat)
    requires GroupOk(g, taken) && CaptureFrame(g, tenv, vals) && x in g.direct
    ensures Holds(tenv, g.direct[x].captures)
    ensures BodyVals(tenv, g.direct[x].captures) == Select(g.captured, vals, g.direct[x].captures)
  {
    var wanted := g.direct[x].captures;
    assert Offers(g.captured, wanted);
    forall k | 0 <= k < |wanted|
      ensures wanted[k].local.id in tenv
              && tenv[wanted[k].local.id] == Imm(vals[Position(g.captured, wanted[k].local.id)])
    {
      var p := Position(g.captured, wanted[k].local.id);
      assert g.captured[p].local.id == wanted[k].local.id;
    }
  }

  lemma SelfSelect(g: Group, taken: set<nat>, vals: seq<Val>)
    requires GroupOk(g, taken) && |g.captured| <= |vals|
    ensures Offers(g.captured, g.captured)
    ensures Select(g.captured, vals, g.captured) == vals[..|g.captured|]
  {
    forall k | 0 <= k < |g.captured| ensures Position(g.captured, g.captured[k].local.id) == k {
      var p := Position(g.captured, g.captured[k].local.id);
      assert p < |g.captured| && CapturedLocals(g.captured)[p].id == CapturedLocals(g.captured)[k].id;
    }
  }

  /** A member of the group as a member's body sees it. */
  lemma MemberValue(F: seq<Fun>, g: Group, v: Val, v': Val, j: nat)
    requires v.VRec? && ValRel(F, v, v') && F[v'.fid].origin.info == g && j < |g.members|
    requires g.first + j < |F| && F[g.first + j].origin == FromGroup(g, j)
    ensures ValRel(F, VRec(g.members, j, v.binds, []), VClosure(g.first + j, v'.vals[..|g.captured|]))
  {
    var vals := v'.vals;
    var front := vals[..|g.captured|];
    forall k | 0 <= k < |v.binds|
      ensures CaptureRel(F, g, GroupCaptures(g.members)[k].id, v.binds[k], front)
    {
      var x := GroupCaptures(g.members)[k].id;
      assert CaptureRel(F, g, x, v.binds[k], vals);
      if x in g.direct {
        assert Select(g.captured, front, g.direct[x].captures) == Select(g.captured, vals, g.direct[x].captures);
      }
    }
  }

  /** What the frame of a member holds before its parameters are bound. */
  ghost function MemberEnv(members: seq<Binding>, binds: seq<Bind>): Env
    requires forall k | 0 <= k < |members| :: members[k].value.Lambda?
    requires |binds| == |GroupCaptures(members)|
  {
    BindGroup(BindCaptures(map[], GroupCaptures(members), binds), members, binds)
  }

  lemma MemberEnvKeys(members: seq<Binding>, binds: seq<Bind>)
    requires forall k | 0 <= k < |members| :: members[k].value.Lambda?
    requires |binds| == |GroupCaptures(members)| && DistinctNames(members)
    ensures MemberEnv(members, binds).Keys == IdSet(GroupCaptures(members)) + BoundIds(members)
  {
    var captures := GroupCaptures(members);
    var frame := BindCaptures(map[], captures, binds);
    forall x ensures x in frame <==> x in IdSet(captures) {
      BindCapturesLookup(map[], captures, binds, x);
    }
    assert frame.Keys == IdSet(captures);
    BindEachAt(frame, members, GroupValues(members, binds));
  }

  lemma MemberEnvAt(members: seq<Binding>, binds: seq<Bind>, x: nat)
    requires forall k | 0 <= k < |members| :: members[k].value.Lambda?
    requires |binds| == |GroupCaptures(members)| && DistinctNames(members)
    requires x in MemberEnv(members, binds)
    ensures (exists j | 0 <= j < |members| ::
               members[j].local.id == x && MemberEnv(members, binds)[x] == Imm(VRec(members, j, binds, [])))
            || (exists k | 0 <= k < |binds| ::
                GroupCaptures(members)[k].id == x && MemberEnv(members, binds)[x] == binds[k])
  {
    var captures := GroupCaptures(members);
    var frame := BindCaptures(map[], captures, binds);
    BindCapturesLookup(map[], captures, binds, x);
    BindEachAt(frame, members, GroupValues(members, binds));
    if forall j | 0 <= j < |members| :: members[j].local.id != x {
      assert x in frame && MemberEnv(members, binds)[x] == frame[x];
    }
  }

  lemma CaptureAt(F: seq<Fun>, g: Group, taken: set<nat>, tenv: Env, v: Val, v': Val, k: nat)
    requires GroupOk(g, taken) && v.VRec? && ValRel(F, v, v') && F[v'.fid].origin.info == g
    requires k < |v.binds| && CaptureFrame(g, tenv, v'.vals)
    ensures EnvAt(F, GroupCtx(g), tenv, GroupCaptures(g.members)[k].id, v.binds[k])
  {
    var x := GroupCaptures(g.members)[k].id;
    assert CaptureRel(F, g, x, v.binds[k], v'.vals);
    if x in g.direct {
      SelectedBodyVals(g, taken, tenv, v'.vals, x);
    } else {
      var p := Position(g.captured, x);
      BorrowedIs(g.captured, p);
      assert tenv[g.captured[p].local.id] == Imm(v'.vals[p]);
    }
  }

  /** The borrowed captures are the ones that the body reads through references. */
  lemma {:induction false} BorrowedIs(captured: seq<Captured>, p: nat)
    requires p < |captured| && DistinctIds(CapturedLocals(captured))
    ensures captured[p].local.id in BorrowedMap(captured) <==> captured[p].borrowed
    ensures captured[p].borrowed ==> BorrowedMap(captured)[captured[p].local.id] == captured[p].local.ty
  {
    var last := |captured| - 1;
    var front := captured[..last];
    assert forall i, j | 0 <= i < j < |captured| :: CapturedLocals(captured)[i].id != CapturedLocals(captured)[j].id;
    assert forall i | 0 <= i < last :: CapturedLocals(front)[i] == CapturedLocals(captured)[i];
    if p == last {
      BorrowedFrom(front, captured[p].local.id);
      assert forall k | 0 <= k < last :: front[k].local.id != captured[p].local.id;
    } else {
      BorrowedIs(front, p);
      assert captured[p].local.id != captured[last].local.id;
    }
  }

  lemma {:induction false} BorrowedFrom(captured: seq<Captured>, x: nat)
    ensures x in BorrowedMap(captured)
            ==> exists k | 0 <= k < |captured| :: captured[k].borrowed && captured[k].local.id == x
  {
    if captured != [] {
      var front := captured[..|captured| - 1];
      BorrowedFrom(front, x);
      if x in BorrowedMap(front) {
        var k :| 0 <= k < |front| && front[k].borrowed && front[k].local.id == x;
        assert captured[k] == front[k];
      }
    }
  }

  lemma BorrowedHeld(g: Group, taken: set<nat>, tenv: Env, vals: seq<Val>, x: nat)
    requires GroupOk(g, taken) && CaptureFrame(g, tenv, vals) && References(g.captured, vals)
    requires x in BorrowedMap(g.captured)
    ensures x in tenv && tenv[x].Imm? && tenv[x].v.VRef? && !tenv[x].v.exclusive
  {
    BorrowedFrom(g.captured, x);
  }

  /** A member's frame, with the captures of the lifted function as its parameters. */
  lemma GroupFrame(P: seq<Fun>, F: seq<Fun>, taken: set<nat>, ss: Store, ts: Store, v: Val, v': Val)
    returns (p: Point)
    requires ProgOk(P, F) && v.VRec? && ValRel(F, v, v')
    requires GroupOk(F[v'.fid].origin.info, taken)
    requires StoreRel(F, ss, ts) && SafeStore({}, ts) && SafeVal({}, |ts|, v')
    ensures var g := F[v'.fid].origin.info;
            && p.unit == g.unit && p.ctx == GroupCtx(g) && p.taken == taken + BoundIds(g.members)
            && p.own == {} && p.frozen == {}
            && p.scope == IdSet(GroupCaptures(g.members)) + BoundIds(g.members)
            && p.senv == MemberEnv(v.members, v.binds)
            && BindAll(map[], ts, Parameters(g.captured), v'.vals[..|g.captured|]) == (p.tenv, ts)
    ensures Inv(F, p, ss, ts)
  {
    hide CaptureRel, Rel, Scoped, OnlyMutates, AllLift, Offers, StoreRel, EnvAt, MemberEnv;
    var g := F[v'.fid].origin.info;
    assert FunOk(P, F, v'.fid);
    var tenv := CaptureFrameOf(g, ts, v'.vals);
    var senv := MemberEnv(v.members, v.binds);
    p := Point(g.unit, GroupCtx(g), taken + BoundIds(g.members),
               IdSet(GroupCaptures(g.members)) + BoundIds(g.members), {}, {}, senv, tenv);
    MemberEnvKeys(g.members, v.binds);
    forall x | x in senv ensures EnvAt(F, GroupCtx(g), tenv, x, senv[x]) {
      MemberFrameAt(F, g, taken, tenv, v, v', x);
    }
    forall x | x in p.ctx.borrowed ensures x in tenv && tenv[x].Imm? && tenv[x].v.VRef? && !tenv[x].v.exclusive {
      BorrowedHeld(g, taken, tenv, v'.vals, x);
    }
    GroupKeys(g, taken, tenv, v'.vals);
  }

  lemma GroupKeys(g: Group, taken: set<nat>, tenv: Env, vals: seq<Val>)
    requires GroupOk(g, taken) && CaptureFrame(g, tenv, vals)
    ensures tenv.Keys <= taken && IdSet(GroupCaptures(g.members)) <= taken
    ensures forall x | x in tenv :: tenv[x].Imm?
  {
    forall x | x in tenv ensures x in taken && tenv[x].Imm? {
      var k :| 0 <= k < |CapturedLocals(g.captured)| && CapturedLocals(g.captured)[k].id == x;
      assert g.captured[k].local.id == x;
    }
  }

  lemma MemberFrameAt(F: seq<Fun>, g: Group, taken: set<nat>, tenv: Env, v: Val, v': Val, x: nat)
    requires v.VRec? && ValRel(F, v, v') && F[v'.fid].origin.info == g
    requires GroupOk(g, taken) && GroupLifted(F, g)
    requires CaptureFrame(g, tenv, v'.vals) && x in MemberEnv(v.members, v.binds)
    ensures EnvAt(F, GroupCtx(g), tenv, x, MemberEnv(v.members, v.binds)[x])
  {
    assert v.members == g.members;
    MemberEnvAt(v.members, v.binds, x);
    var b := MemberEnv(v.members, v.binds)[x];
    if exists j | 0 <= j < |g.members| :: g.members[j].local.id == x && b == Imm(VRec(g.members, j, v.binds, [])) {
      var j :| 0 <= j < |g.members| && g.members[j].local.id == x && b == Imm(VRec(g.members, j, v.binds, []));
      NameVals(g, taken, tenv, v'.vals, j);
      NameAt(F, g, tenv, v, v', j);
    } else {
      var k :| 0 <= k < |v.binds| && GroupCaptures(g.members)[k].id == x && b == v.binds[k];
      CaptureAt(F, g, taken, tenv, v, v', k);
    }
  }

  lemma NameAt(F: seq<Fun>, g: Group, tenv: Env, v: Val, v': Val, j: nat)
    requires v.VRec? && ValRel(F, v, v') && F[v'.fid].origin.info == g
    requires GroupLifted(F, g) && j < |g.members|
    requires var x := g.members[j].local.id;
             && x in g.direct && g.direct[x].fid == g.first + j
             && Holds(tenv, g.direct[x].captures)
             && |g.captured| <= |v'.vals|
             && BodyVals(tenv, g.direct[x].captures) == v'.vals[..|g.captured|]
    ensures EnvAt(F, GroupCtx(g), tenv, g.members[j].local.id, Imm(VRec(g.members, j, v.binds, [])))
  {
    assert LiftedAs(F, g, j);
    MemberValue(F, g, v, v', j);
    DirectAt(F, GroupCtx(g), tenv, g.members[j].local.id, VRec(g.members, j, v.binds, []), v'.vals[..|g.captured|]);
  }

  lemma DirectAt(F: seq<Fun>, ctx: Ctx, tenv: Env, x: nat, w: Val, vals: seq<Val>)
    requires x in ctx.direct && Holds(tenv, ctx.direct[x].captures) && BodyVals(tenv, ctx.direct[x].captures) == vals
    requires ValRel(F, w, VClosure(ctx.direct[x].fid, vals))
    ensures EnvAt(F, ctx, tenv, x, Imm(w))
  {
  }

  lemma NameVals(g: Group, taken: set<nat>, tenv: Env, vals: seq<Val>, j: nat)
    requires GroupOk(g, taken) && CaptureFrame(g, tenv, vals) && j < |g.members|
    ensures var x := g.members[j].local.id;
            && x in g.direct && g.direct[x].fid == g.first + j
            && Holds(tenv, g.direct[x].captures)
            && BodyVals(tenv, g.direct[x].captures) == vals[..|g.captured|]
  {
    SelectedBodyVals(g, taken, tenv, vals, g.members[j].local.id);
    SelfSelect(g, taken, vals);
  }
}

/**
  What the mutation test is for: if members whose by-value captures are assigned were called directly as
  well, the lowered form of this program would return something else.

      let mut x = 1
      let rec f a = x
      let u = x := 2
      let rec g b = f 0
      g 0
 */
module LetRecNeeded {
  import opened LetRecSyntax
  import opened LetRecEval
  import opened LetRecLowering
  import opened LetRecRelation
  import opened LetRecProgram

  const NUMBER := Ty.Plain(0, true, false)
  const PROCEDURE := Ty.Function([NUMBER], NUMBER)
  const X := Local(0, NUMBER, true)
  const F := Local(1, PROCEDURE, false)
  const A := Local(2, NUMBER, false)
  const U := Local(3, NUMBER, false)
  const G := Local(4, PROCEDURE, false)
  const B := Local(5, NUMBER, false)

  const BODY_OF_F := Var(0, NUMBER)
  const BODY_OF_G := Call(Var(1, PROCEDURE), [Literal(0)])
  const LAMBDA_F := Lambda([A], [Immutable(X)], BODY_OF_F, [F], PROCEDURE)
  const LAMBDA_G := Lambda([B], [F], BODY_OF_G, [G], PROCEDURE)
  const SETTING := Assign(Var(0, NUMBER), Literal(2))
  const CALLING := Call(Var(4, PROCEDURE), [Literal(0)])
  const BINDINGS := [Binding(X, Literal(1)), Binding(F, LAMBDA_F), Binding(U, SETTING), Binding(G, LAMBDA_G)]
  const BODY := Block(BINDINGS, CALLING)
  const TYPES: map<nat, Ty> := map[0 := NUMBER, 1 := PROCEDURE, 2 := NUMBER, 3 := NUMBER, 4 := PROCEDURE, 5 := NUMBER]
  const THE_UNIT := Unit(TYPES, MutatedIn(BODY), 1)
  const PROGRAM := [Fun([], BODY, 0, Original(THE_UNIT))]

  /** The state in which lowering starts, with the test switched off. */
  function Careless(): State {
    Start(PROGRAM, BODY, THE_UNIT).(mutated := {})
  }

  lemma Groups()
    ensures GroupLen(BINDINGS, 0) == Members(0)
    ensures GroupLen(BINDINGS, 1) == Members(1)
    ensures GroupLen(BINDINGS, 2) == Members(0)
    ensures GroupLen(BINDINGS, 3) == Members(1)
  {
    assert Ids([F]) == [1] && Ids([G]) == [4];
  }

  lemma OneGroup(b: Binding, c: Local)
    requires b.value.Lambda? && b.value.captures == [c] && c.id != b.local.id
    ensures BoundIds([b]) == {b.local.id} && GroupCaptures([b]) == [c]
  {
    var members, names := [b], BoundIds([b]);
    assert members[0] == b && forall x | x in names :: x == b.local.id;
    assert names == {b.local.id};
    assert members[..0] == [] && [c][..0] == [];
    assert CapturesOutside([], names) == [] && Without([], names) == [];
    assert Without([c], names) == [c];
  }

  const TAKEN := [Captured(Immutable(X), false)]
  const LIFTED_F := RecursiveFunction(1, TAKEN, 1)
  const LIFTED_G := RecursiveFunction(2, TAKEN, 1)
  const GROUP_F := Group([Binding(F, LAMBDA_F)], 1, TAKEN, map[1 := LIFTED_F], 1, THE_UNIT)
  const GROUP_G := Group([Binding(G, LAMBDA_G)], 2, TAKEN, map[1 := LIFTED_F, 4 := LIFTED_G], 1, THE_UNIT)
  const FUN_F := Fun([Immutable(X), A], BODY_OF_F, 1, FromGroup(GROUP_F, 0))
  const FUN_G := Fun([Immutable(X), B], Call(FunctionRef(1), [Var(0, NUMBER), Literal(0)]), 1, FromGroup(GROUP_G, 0))

  lemma GroupOne(b: Binding, c: Local, first: nat, callable: map<nat, RecursiveFunction>, shared: seq<Local>)
    requires b.value.Lambda? && b.value.captures == [c] && c.id != b.local.id
    requires shared == if c.id in callable then OrInsertAll([], CapturedLocals(callable[c.id].captures)) else [c]
    ensures var g := GroupOf([b], first, callable, 1, THE_UNIT);
            && g.captured == NewCaptures(shared)
            && g.direct == TakenOver([c], callable)[b.local.id := RecursiveFunction(first, g.captured, 1)]
  {
    OneGroup(b, c);
    assert [c][..0] == [] && Shared([], callable) == [];
    assert Shared([c], callable) == shared;
    var lifted := LiftedFunctions(1, first, NewCaptures(shared), 1);
    assert [b][..0] == [] && lifted[..0] == [];
    assert BindEach(TakenOver([c], callable), [], []) == TakenOver([c], callable);
  }

  lemma GroupIsF()
    ensures GroupOf([Binding(F, LAMBDA_F)], 1, map[], 1, THE_UNIT) == GROUP_F
  {
    GroupOne(Binding(F, LAMBDA_F), Immutable(X), 1, map[], [Immutable(X)]);
    assert NewCaptures([Immutable(X)]) == TAKEN;
    assert TakenOver([Immutable(X)], map[]) == map[];
  }

  lemma GroupIsG()
    ensures GroupOf([Binding(G, LAMBDA_G)], 2, map[1 := LIFTED_F], 1, THE_UNIT) == GROUP_G
  {
    var locals := CapturedLocals(TAKEN);
    assert locals == [Immutable(X)] && locals[..0] == [];
    assert OrInsertAll([], []) == [];
    assert OrInsertAll([], locals) == [Immutable(X)];
    GroupOne(Binding(G, LAMBDA_G), F, 2, map[1 := LIFTED_F], [Immutable(X)]);
    assert NewCaptures([Immutable(X)]) == TAKEN;
    assert 1 in IdSet([F]) by { assert [F][0].id == 1; }
    assert TakenOver([F], map[1 := LIFTED_F]) == map[1 := LIFTED_F];
  }

  // ----- lowering without the test -----

  /** The state after `f` is bound: it is taken for a function that can be called directly. */
  function AfterF(): State {
    Careless().(functions := PROGRAM + [FUN_F], recursive := map[1 := LIFTED_F], frames := 2)
  }

  function AfterG(): State {
    Careless().(functions := PROGRAM + [FUN_F, FUN_G], recursive := map[1 := LIFTED_F, 4 := LIFTED_G], frames := 3)
  }

  lemma Borrows()
    ensures BorrowedMap(TAKEN) == map[]
  {
    assert TAKEN[..0] == [];
    assert BorrowedMap([]) == map[];
  }

  /** Lowering a group with one member whose body binds nothing. */
  lemma LowerOneMember(block: Expr, i: nat, st: State, g: Group, body: Expr)
    requires block.Block? && i < |block.bindings| && block.bindings[i].value.Lambda?
    requires BlockGroup(block, i, 1, st) == g && g.members == [block.bindings[i]] && g.first == |st.functions|
    requires var inside := EnterFrame(Reserve(st, g), g.direct.Keys);
             LowerExpr(block.bindings[i].value.body, inside) == Lowered(block.bindings[i].value.body, inside)
    requires RewrittenBody(g, Reserve(st, g).recursive, block.bindings[i].value.body) == body
    ensures LowerGroup(block, i, 1, st)
            == Lowered(GroupClosures(g),
                       st.(functions := st.functions + [LiftedMember(g, 0, body)],
                           recursive := Reserve(st, g).recursive, frames := st.frames + 1))
  {
    hide RewrittenBody, GroupOf, LowerExpr, BlockGroup, GroupFunctions, LiftedMember, GroupClosures;
    var st0 := Reserve(st, g);
    assert st0.functions == st.functions + [LiftedMember(g, 0, Literal(0))];
    MemberSlot(g, st0, st, body);
    var st1 := LowerMember(g, 0, st0).state;
    assert st1.functions == st.functions + [LiftedMember(g, 0, body)];
    assert LowerMembers(block, i, g, 1, st1) == Lowered((), st1);
    assert LowerMembers(block, i, g, 0, st0) == Lowered((), st1);
  }

  lemma MemberSlot(g: Group, st0: State, st: State, body: Expr)
    requires |g.members| == 1 && g.members[0].value.Lambda? && g.first == |st.functions|
    requires st0.functions == st.functions + [LiftedMember(g, 0, Literal(0))]
    requires var inside := EnterFrame(st0, g.direct.Keys);
             LowerExpr(g.members[0].value.body, inside) == Lowered(g.members[0].value.body, inside)
    requires RewrittenBody(g, st0.recursive, g.members[0].value.body) == body
    ensures LowerMember(g, 0, st0)
            == Lowered((), st0.(functions := st.functions + [LiftedMember(g, 0, body)], frames := st0.frames + 1))
  {
    hide RewrittenBody, LowerExpr;
    var now := st0.functions[g.first := st0.functions[g.first].(body := body)];
    assert now == st.functions + [LiftedMember(g, 0, body)];
  }

  lemma LowerF()
    ensures LowerGroup(BODY, 1, 1, Careless()) == Lowered(GroupClosures(GROUP_F), AfterF())
  {
    var st := Careless();
    GroupIsF();
    assert BODY.bindings[1..2] == [Binding(F, LAMBDA_F)];
    assert Callable(st) == map[];
    var known := Reserve(st, GROUP_F).recursive;
    OneName(map[], Binding(F, LAMBDA_F), LIFTED_F);
    assert known == map[1 := LIFTED_F];
    assert DirectMap(known, GROUP_F.direct.Keys) == map[1 := LIFTED_F];
    Borrows();
    LowerOneMember(BODY, 1, st, GROUP_F, BODY_OF_F);
    assert Parameters(TAKEN) + [A] == [Immutable(X), A];
  }

  lemma OneName(known: map<nat, RecursiveFunction>, b: Binding, f: RecursiveFunction)
    ensures GroupFunctions(known, [b], f.fid, f.captures, f.boundIn) == known[b.local.id := f]
  {
    var lifted := LiftedFunctions(1, f.fid, f.captures, f.boundIn);
    assert [b][..0] == [] && lifted[..0] == [];
    assert BindEach(known, [], []) == known;
  }

  lemma LowerG()
    ensures LowerGroup(BODY, 3, 1, AfterF()) == Lowered(GroupClosures(GROUP_G), AfterG())
  {
    var st := AfterF();
    GroupIsG();
    assert BODY.bindings[3..4] == [Binding(G, LAMBDA_G)];
    assert Callable(st) == map[1 := LIFTED_F];
    var known := Reserve(st, GROUP_G).recursive;
    OneName(map[1 := LIFTED_F], Binding(G, LAMBDA_G), LIFTED_G);
    assert known == map[1 := LIFTED_F, 4 := LIFTED_G];
    assert DirectMap(known, GROUP_G.direct.Keys) == map[1 := LIFTED_F, 4 := LIFTED_G];
    Borrows();
    BodyStays(EnterFrame(Reserve(st, GROUP_G), GROUP_G.direct.Keys));
    RewritesG();
    LowerOneMember(BODY, 3, st, GROUP_G, FUN_G.body);
    assert Parameters(TAKEN) + [B] == [Immutable(X), B];
    assert PROGRAM + [FUN_F] + [FUN_G] == PROGRAM + [FUN_F, FUN_G];
  }

  lemma OneArgument(st: State)
    ensures LowerAll([Literal(0)], st) == Lowered([Literal(0)], st)
  {
    assert [Literal(0)][1..] == [] && [Literal(0)] + [] == [Literal(0)];
    assert LowerAll([], st) == Lowered([], st);
    assert LowerExpr(Literal(0), st) == Lowered(Literal(0), st);
  }

  lemma BodyStays(st: State)
    ensures LowerExpr(BODY_OF_G, st) == Lowered(BODY_OF_G, st)
  {
    OneArgument(st);
  }

  lemma RewritesG()
    ensures Rewrite(map[1 := LIFTED_F, 4 := LIFTED_G], map[], BODY_OF_G) == FUN_G.body
  {
    var direct := map[1 := LIFTED_F, 4 := LIFTED_G];
    assert InBodies(TAKEN) == [Var(0, NUMBER)];
    assert RewriteAll(direct, map[], [Literal(0)]) == [Literal(0)];
    assert InBodies(TAKEN) + [Literal(0)] == [Var(0, NUMBER), Literal(0)];
  }

  const LOWERED_BODY := Block(
    [Binding(X, Literal(1)), Binding(F, Closure(1, [Var(0, NUMBER)], PROCEDURE)), Binding(U, SETTING),
     Binding(G, Closure(2, [Var(0, NUMBER)], PROCEDURE))], CALLING)

  lemma Closures()
    ensures GroupClosures(GROUP_F) == [LOWERED_BODY.bindings[1]] && GroupClosures(GROUP_G) == [LOWERED_BODY.bindings[3]]
  {
    assert AtBindings(TAKEN) == [Var(0, NUMBER)];
  }

  lemma LowerCarelessly()
    ensures LowerExpr(BODY, Careless()) == Lowered(LOWERED_BODY, AfterG())
  {
    hide LowerGroup, GroupLen;
    Groups();
    Closures();
    LowerF();
    var st, bindings := AfterG(), LOWERED_BODY.bindings;
    LowerLater();
    assert [bindings[1]] + bindings[2..] == bindings[1..];
    assert LowerBlock(BODY, 1, Careless()) == Lowered((bindings[1..], CALLING), st);
    assert [bindings[0]] + bindings[1..] == bindings;
    assert LowerBlock(BODY, 0, Careless()) == Lowered((bindings, CALLING), st);
  }

  lemma LowerLater()
    ensures LowerBlock(BODY, 2, AfterF()) == Lowered((LOWERED_BODY.bindings[2..], CALLING), AfterG())
  {
    hide LowerGroup, GroupLen;
    Groups();
    Closures();
    LowerG();
    var st, bindings := AfterG(), LOWERED_BODY.bindings;
    OneArgument(st);
    assert LowerExpr(CALLING, st) == Lowered(CALLING, st);
    assert LowerBlock(BODY, 4, st) == Lowered(([], CALLING), st);
    assert [bindings[3]] + [] == bindings[3..];
    assert LowerBlock(BODY, 3, AfterF()) == Lowered((bindings[3..], CALLING), st);
    assert LowerExpr(SETTING, AfterF()) == Lowered(SETTING, AfterF());
    assert [bindings[2]] + bindings[3..] == bindings[2..];
    assert LowerBlock(BODY, 2, AfterF()) == Lowered((bindings[2..], CALLING), st);
  }

  // ----- what the two programs return -----

  const WRONGLY := [PROGRAM[0].(body := LOWERED_BODY), FUN_F, FUN_G]

  lemma BindTwo(s: Store, x: Local, y: Local, v: Val, w: Val)
    requires !x.mutable && !y.mutable
    ensures BindAll(map[], s, [x, y], [v, w]) == (map[x.id := Imm(v)][y.id := Imm(w)], s)
  {
    assert [x, y][1..] == [y] && [v, w][1..] == [w] && [y][1..] == [] && [w][1..] == [];
    assert BindAll(map[x.id := Imm(v)][y.id := Imm(w)], s, [], []) == (map[x.id := Imm(v)][y.id := Imm(w)], s);
    assert BindAll(map[x.id := Imm(v)], s, [y], [w]) == (map[x.id := Imm(v)][y.id := Imm(w)], s);
  }

  lemma BindOne(env: Env, s: Store, y: Local, w: Val)
    requires !y.mutable
    ensures BindAll(env, s, [y], [w]) == (env[y.id := Imm(w)], s)
  {
    assert [y][1..] == [] && [w][1..] == [];
    assert BindAll(env[y.id := Imm(w)], s, [], []) == (env[y.id := Imm(w)], s);
  }

  lemma EvalOne(P: seq<Fun>, fuel: nat, env: Env, s: Store, e: Expr, v: Val)
    requires Eval(P, fuel, env, s, e) == Ok(v, s)
    ensures EvalAll(P, fuel, env, s, [e]) == Ok([v], s)
  {
    assert [e][1..] == [] && [v] + [] == [v];
    assert EvalAll(P, fuel, env, s, []) == Ok([], s);
  }

  lemma EvalTwo(P: seq<Fun>, fuel: nat, env: Env, s: Store, d: Expr, e: Expr, v: Val, w: Val)
    requires Eval(P, fuel, env, s, d) == Ok(v, s) && Eval(P, fuel, env, s, e) == Ok(w, s)
    ensures EvalAll(P, fuel, env, s, [d, e]) == Ok([v, w], s)
  {
    EvalOne(P, fuel, env, s, e, w);
    assert [d, e][1..] == [e] && [v] + [w] == [v, w];
  }

  lemma RunF(fuel: nat, s: Store, n: int)
    ensures Apply(WRONGLY, fuel, s, VClosure(1, []), [VInt(n), VInt(0)]) == Ok(VInt(n), s)
  {
    var all := [VInt(n), VInt(0)];
    assert [] + all == all && all[..2] == all;
    BindTwo(s, Immutable(X), A, VInt(n), VInt(0));
    assert CodeOf(WRONGLY, VClosure(1, [])) == Code([Immutable(X), A], BODY_OF_F, map[], []);
  }

  lemma RunG(s: Store, n: int)
    ensures Apply(WRONGLY, 2, s, VClosure(2, [VInt(n)]), [VInt(0)]) == Ok(VInt(n), s)
  {
    var all := [VInt(n), VInt(0)];
    assert [VInt(n)] + [VInt(0)] == all && all[..2] == all;
    BindTwo(s, Immutable(X), B, VInt(n), VInt(0));
    assert CodeOf(WRONGLY, VClosure(2, [VInt(n)])) == Code([Immutable(X), B], FUN_G.body, map[], [VInt(n)]);
    var env: Env := map[0 := Imm(VInt(n))][5 := Imm(VInt(0))];
    EvalTwo(WRONGLY, 2, env, s, Var(0, NUMBER), Literal(0), VInt(n), VInt(0));
    RunF(1, s, n);
    assert Eval(WRONGLY, 2, env, s, FUN_G.body) == Ok(VInt(n), s);
  }

  /** The frame of the lowered program at the end of its block. */
  const LAST: Env := map[0 := Cell(0), 1 := Imm(VClosure(1, [VInt(1)])), 3 := Imm(VUnit),
                         4 := Imm(VClosure(2, [VInt(2)]))]

  lemma RunWrongly()
    ensures Eval(WRONGLY, 3, map[], [], LOWERED_BODY) == Ok(VInt(2), [VInt(2)])
  {
    hide Apply, GroupLen;
    RunWronglyFrom(map[0 := Cell(0)][1 := Imm(VClosure(1, [VInt(1)]))]);
    var env1: Env := map[0 := Cell(0)];
    PlainBindings();
    EvalOne(WRONGLY, 3, env1, [VInt(1)], Var(0, NUMBER), VInt(1));
    assert Eval(WRONGLY, 3, env1, [VInt(1)], LOWERED_BODY.bindings[1].value) == Ok(VClosure(1, [VInt(1)]), [VInt(1)]);
    assert EvalBlock(WRONGLY, 3, env1, [VInt(1)], LOWERED_BODY, 1) == Ok(VInt(2), [VInt(2)]);
    assert [] + [VInt(1)] == [VInt(1)];
    assert EvalBlock(WRONGLY, 3, map[], [], LOWERED_BODY, 0) == Ok(VInt(2), [VInt(2)]);
  }

  lemma PlainBindings()
    ensures forall k | 0 <= k < 4 :: GroupLen(LOWERED_BODY.bindings, k) == Members(0)
  {
  }

  lemma RunWronglyFrom(env2: Env)
    requires env2 == map[0 := Cell(0)][1 := Imm(VClosure(1, [VInt(1)]))]
    ensures EvalBlock(WRONGLY, 3, env2, [VInt(1)], LOWERED_BODY, 2) == Ok(VInt(2), [VInt(2)])
  {
    hide Apply, GroupLen;
    PlainBindings();
    var env3 := env2[3 := Imm(VUnit)];
    EvalOne(WRONGLY, 3, LAST, [VInt(2)], Literal(0), VInt(0));
    RunG([VInt(2)], 2);
    assert Eval(WRONGLY, 3, LAST, [VInt(2)], CALLING) == Ok(VInt(2), [VInt(2)]);
    assert EvalBlock(WRONGLY, 3, LAST, [VInt(2)], LOWERED_BODY, 4) == Ok(VInt(2), [VInt(2)]);
    EvalOne(WRONGLY, 3, env3, [VInt(2)], Var(0, NUMBER), VInt(2));
    assert env3[4 := Imm(VClosure(2, [VInt(2)]))] == LAST;
    assert Eval(WRONGLY, 3, env3, [VInt(2)], LOWERED_BODY.bindings[3].value) == Ok(VClosure(2, [VInt(2)]), [VInt(2)]);
    assert EvalBlock(WRONGLY, 3, env3, [VInt(2)], LOWERED_BODY, 3) == Ok(VInt(2), [VInt(2)]);
    assert [VInt(1)][0 := VInt(2)] == [VInt(2)];
    assert Eval(WRONGLY, 3, env2, [VInt(1)], SETTING) == Ok(VUnit, [VInt(2)]);
  }

  // ----- the source -----

  const VALUE_F := VRec([Binding(F, LAMBDA_F)], 0, [Imm(VInt(1))], [])
  const VALUE_G := VRec([Binding(G, LAMBDA_G)], 0, [Imm(VALUE_F)], [])

  /** The frame in which a member of one of the two groups runs. */
  lemma MemberCode(b: Binding, c: Local, bind: Bind)
    requires b.value.Lambda? && b.value.captures == [c] && c.id != b.local.id
    ensures CodeOf(PROGRAM, VRec([b], 0, [bind], []))
            == Code(b.value.parameters, b.value.body, map[c.id := bind][b.local.id := Imm(VRec([b], 0, [bind], []))],
                    [])
  {
    OneGroup(b, c);
    assert [c][1..] == [] && [bind][1..] == [];
    assert BindCaptures(map[c.id := bind], [], []) == map[c.id := bind];
    assert BindCaptures(map[], [c], [bind]) == map[c.id := bind];
    GroupBound(map[c.id := bind], b, bind);
  }

  lemma GroupBound(env: Env, b: Binding, bind: Bind)
    ensures BindGroup(env, [b], [bind]) == env[b.local.id := Imm(VRec([b], 0, [bind], []))]
  {
    var vals := GroupValues([b], [bind]);
    assert [b][..0] == [] && vals[..0] == [];
    assert BindEach(env, [], []) == env;
  }

  lemma RunMember(fuel: nat, s: Store, b: Binding, c: Local, bind: Bind, y: Local, v: Val)
    requires b.value.Lambda? && b.value.captures == [c] && c.id != b.local.id && b.value.parameters == [y] && !y.mutable
    requires Eval(PROGRAM, fuel, map[c.id := bind][b.local.id := Imm(VRec([b], 0, [bind], []))][y.id := Imm(VInt(0))],
                  s, b.value.body) == Ok(v, s)
    ensures Apply(PROGRAM, fuel, s, VRec([b], 0, [bind], []), [VInt(0)]) == Ok(v, s)
  {
    MemberCode(b, c, bind);
    assert [] + [VInt(0)] == [VInt(0)] && [VInt(0)][..1] == [VInt(0)];
    BindOne(map[c.id := bind][b.local.id := Imm(VRec([b], 0, [bind], []))], s, y, VInt(0));
  }

  lemma RunSource()
    ensures Eval(PROGRAM, 3, map[], [], BODY) == Ok(VInt(1), [VInt(2)])
  {
    hide GroupLen;
    Groups();
    var s := [VInt(2)];
    RunMember(1, s, Binding(F, LAMBDA_F), Immutable(X), Imm(VInt(1)), A, VInt(1));
    var inner: Env := map[1 := Imm(VALUE_F)][4 := Imm(VALUE_G)][5 := Imm(VInt(0))];
    EvalOne(PROGRAM, 2, inner, s, Literal(0), VInt(0));
    assert Eval(PROGRAM, 2, inner, s, BODY_OF_G) == Ok(VInt(1), s);
    RunMember(2, s, Binding(G, LAMBDA_G), F, Imm(VALUE_F), B, VInt(1));
    SourceBlock();
  }

  lemma SourceBlock()
    requires Apply(PROGRAM, 2, [VInt(2)], VALUE_G, [VInt(0)]) == Ok(VInt(1), [VInt(2)])
    ensures Eval(PROGRAM, 3, map[], [], BODY) == Ok(VInt(1), [VInt(2)])
  {
    hide GroupLen, Apply, GroupCaptures, BindGroup, CaptureBinds;
    SourceLater();
    Groups();
    var env1: Env := map[0 := Cell(0)];
    var env2 := env1[1 := Imm(VALUE_F)];
    CaptureOne(env1, [VInt(1)], Binding(F, LAMBDA_F), Immutable(X), Imm(VInt(1)));
    assert BODY.bindings[1..2] == [Binding(F, LAMBDA_F)];
    assert EvalBlock(PROGRAM, 3, env1, [VInt(1)], BODY, 1) == Ok(VInt(1), [VInt(2)]);
    assert [] + [VInt(1)] == [VInt(1)];
    assert EvalBlock(PROGRAM, 3, map[], [], BODY, 0) == Ok(VInt(1), [VInt(2)]);
  }

  lemma SourceLater()
    requires Apply(PROGRAM, 2, [VInt(2)], VALUE_G, [VInt(0)]) == Ok(VInt(1), [VInt(2)])
    ensures EvalBlock(PROGRAM, 3, map[0 := Cell(0)][1 := Imm(VALUE_F)], [VInt(1)], BODY, 2) == Ok(VInt(1), [VInt(2)])
  {
    hide GroupLen, Apply, GroupCaptures, BindGroup, CaptureBinds;
    Groups();
    var env2: Env := map[0 := Cell(0)][1 := Imm(VALUE_F)];
    var env3 := env2[3 := Imm(VUnit)];
    var env4 := env3[4 := Imm(VALUE_G)];
    EvalOne(PROGRAM, 3, env4, [VInt(2)], Literal(0), VInt(0));
    assert Eval(PROGRAM, 3, env4, [VInt(2)], CALLING) == Ok(VInt(1), [VInt(2)]);
    assert EvalBlock(PROGRAM, 3, env4, [VInt(2)], BODY, 4) == Ok(VInt(1), [VInt(2)]);
    CaptureOne(env3, [VInt(2)], Binding(G, LAMBDA_G), F, Imm(VALUE_F));
    assert BODY.bindings[3..4] == [Binding(G, LAMBDA_G)];
    assert EvalBlock(PROGRAM, 3, env3, [VInt(2)], BODY, 3) == Ok(VInt(1), [VInt(2)]);
    assert [VInt(1)][0 := VInt(2)] == [VInt(2)];
    assert Eval(PROGRAM, 3, env2, [VInt(1)], SETTING) == Ok(VUnit, [VInt(2)]);
    assert EvalBlock(PROGRAM, 3, env2, [VInt(1)], BODY, 2) == Ok(VInt(1), [VInt(2)]);
  }

  lemma CaptureOne(env: Env, s: Store, b: Binding, c: Local, bind: Bind)
    requires b.value.Lambda? && b.value.captures == [c] && c.id != b.local.id && c.id in env
    requires if c.ty.Cheap() then Read(env, s, c.id).Ok? && bind == Imm(Read(env, s, c.id).value) else bind == env[c.id]
    ensures CaptureBinds(env, s, GroupCaptures([b])) == Ok([bind], s)
    ensures BindGroup(env, [b], [bind]) == env[b.local.id := Imm(VRec([b], 0, [bind], []))]
  {
    OneGroup(b, c);
    assert [c][..0] == [] && [] + [bind] == [bind];
    assert CaptureBinds(env, s, []) == Ok([], s);
    GroupBound(env, b, bind);
  }

  // ----- the program is one that lowering takes -----

  lemma BodiesScoped()
    ensures Scoped(THE_UNIT, {0, 1, 2}, {0, 1, 2}, {2}, BODY_OF_F)
    ensures Scoped(THE_UNIT, {0, 1, 3, 4, 5}, {1, 4, 5}, {5}, BODY_OF_G)
    ensures Scoped(THE_UNIT, {0, 1, 3, 4}, {0, 1, 3, 4}, {0, 1, 3, 4}, CALLING)
  {
    forall taken, scope, own ensures ScopedAll(THE_UNIT, taken, scope, own, [Literal(0)]) {
      assert [Literal(0)][1..] == [];
      assert ScopedAll(THE_UNIT, taken, scope, own, []);
    }
  }

  lemma OneHeader(taken: set<nat>, b: Binding, c: Local, y: Local)
    requires b.value.Lambda? && b.value.captures == [c] && b.value.parameters == [y] && c.id != b.local.id
    requires b.local.id !in taken && c.id in taken && y.id !in taken && y.id != b.local.id
    requires Typed(THE_UNIT, b.local) && Typed(THE_UNIT, c) && Typed(THE_UNIT, y) && !b.local.mutable && !c.mutable
    ensures GroupHeader(THE_UNIT, taken, taken, [b])
  {
    OneGroup(b, c);
    assert [b][0] == b && [y][0] == y && [c][0] == c;
    assert Fresh(THE_UNIT, taken + {b.local.id}, [y]);
  }

  lemma OneId(local: Local)
    ensures IdSet([local]) == {local.id}
  {
    IdSetAppend([], local);
    assert [] + [local] == [local];
  }

  /** A group with one member. */
  lemma OneHead(block: Expr, i: nat, taken: set<nat>, b: Binding, c: Local, y: Local)
    requires block.Block? && i < |block.bindings| && block.bindings[i] == b && GroupLen(block.bindings, i) == Members(1)
    requires b.value.Lambda? && b.value.captures == [c] && b.value.parameters == [y] && c.id != b.local.id
    requires GroupHeader(THE_UNIT, taken, taken, [b])
    requires Scoped(THE_UNIT, taken + {b.local.id} + {y.id}, {c.id} + {b.local.id} + {y.id}, {y.id}, b.value.body)
    ensures ScopedHead(THE_UNIT, taken, taken, taken, block, i)
    ensures HeadNames(block.bindings, i) == {b.local.id} && Width(block.bindings, i) == 1
  {
    hide GroupLen, GroupHeader, Scoped, GroupCaptures, BoundIds, IdSet;
    OneGroup(b, c);
    OneId(c);
    OneId(y);
    assert block.bindings[i..i + 1] == [b];
  }

  lemma HeadF()
    ensures ScopedHead(THE_UNIT, {0}, {0}, {0}, BODY, 1) && HeadNames(BINDINGS, 1) == {1} && Width(BINDINGS, 1) == 1
  {
    hide GroupLen, GroupHeader, Scoped, ScopedHead, HeadNames, Width;
    Groups();
    BodiesScoped();
    OneHeader({0}, Binding(F, LAMBDA_F), Immutable(X), A);
    assert {0} + {1} + {2} == {0, 1, 2};
    OneHead(BODY, 1, {0}, Binding(F, LAMBDA_F), Immutable(X), A);
  }

  lemma HeadG()
    ensures ScopedHead(THE_UNIT, {0, 1, 3}, {0, 1, 3}, {0, 1, 3}, BODY, 3) && HeadNames(BINDINGS, 3) == {4}
            && Width(BINDINGS, 3) == 1
  {
    hide GroupLen, GroupHeader, Scoped, ScopedHead, HeadNames, Width;
    Groups();
    BodiesScoped();
    OneHeader({0, 1, 3}, Binding(G, LAMBDA_G), F, B);
    assert {0, 1, 3} + {4} + {5} == {0, 1, 3, 4, 5} && {1} + {4} + {5} == {1, 4, 5};
    OneHead(BODY, 3, {0, 1, 3}, Binding(G, LAMBDA_G), F, B);
  }

  lemma PlainHeads()
    ensures ScopedHead(THE_UNIT, {0, 1}, {0, 1}, {0, 1}, BODY, 2) && ScopedHead(THE_UNIT, {}, {}, {}, BODY, 0)
  {
    hide GroupLen, GroupHeader, GroupCaptures;
    Groups();
  }

  lemma BodyIsScoped()
    ensures ScopedBlock(THE_UNIT, {}, {}, {}, BODY, 0)
  {
    hide GroupLen, ScopedHead, Scoped, HeadNames, Width;
    Groups();
    BodiesScoped();
    HeadF();
    HeadG();
    PlainHeads();
    PlainName(BINDINGS, 0);
    PlainName(BINDINGS, 2);
    assert {0, 1, 3} + {4} == {0, 1, 3, 4} && {0, 1} + {3} == {0, 1, 3} && {0} + {1} == {0, 1} && {} + {0} == {0};
    assert ScopedBlock(THE_UNIT, {0, 1, 3, 4}, {0, 1, 3, 4}, {0, 1, 3, 4}, BODY, 4);
    assert ScopedBlock(THE_UNIT, {0, 1, 3}, {0, 1, 3}, {0, 1, 3}, BODY, 3);
    assert ScopedBlock(THE_UNIT, {0, 1}, {0, 1}, {0, 1}, BODY, 2);
    assert ScopedBlock(THE_UNIT, {0}, {0}, {0}, BODY, 1);
  }

  lemma ProgramIsWellFormed()
    ensures WellFormed(PROGRAM)
  {
    BodyIsScoped();
    assert IdSet([]) == {};
    IdsUnique();
  }

  /** An expression without binders. */
  lemma NoBinders(e: Expr)
    requires NodeBinders(e) == {} && forall c | c in Children(e) :: Binders(c) == {} && UniqueIds(c)
    ensures Binders(e) == {} && (!e.Block? ==> UniqueIds(e))
  {
  }

  lemma OneBinder(e: Expr, y: Local)
    requires e.Lambda? && e.parameters == [y] && Binders(e.body) == {} && UniqueIds(e.body)
    ensures Binders(e) == {y.id} && UniqueIds(e)
  {
    OneId(y);
    assert Children(e) == [e.body];
  }

  lemma IdsUnique()
    ensures UniqueIds(BODY)
  {
    hide Binders, UniqueIds;
    LeavesUnbound();
    OneBinder(LAMBDA_F, A); OneBinder(LAMBDA_G, B);
    BlockUnique();
  }

  lemma LeavesUnbound()
    ensures forall e | e in [BODY_OF_F, BODY_OF_G, Literal(1), SETTING, CALLING] :: Binders(e) == {} && UniqueIds(e)
  {
    hide Binders, UniqueIds;
    NoBinders(BODY_OF_F); NoBinders(Literal(0)); NoBinders(Literal(1)); NoBinders(Literal(2));
    NoBinders(Var(1, PROCEDURE)); NoBinders(Var(4, PROCEDURE)); NoBinders(Var(0, NUMBER));
    assert Children(BODY_OF_G) == [Var(1, PROCEDURE), Literal(0)]
           && Children(CALLING) == [Var(4, PROCEDURE), Literal(0)];
    NoBinders(BODY_OF_G); NoBinders(CALLING); NoBinders(SETTING);
  }

  lemma FiveChildren()
    ensures Children(BODY) == [Literal(1), LAMBDA_F, SETTING, LAMBDA_G, CALLING]
  {
  }

  lemma NameOf(x: nat)
    requires x in BoundIds(BINDINGS)
    ensures x in {0, 1, 3, 4}
  {
  }

  lemma UniqueBlock()
    requires forall c | c in Children(BODY) :: UniqueIds(c) && Binders(c) !! NodeBinders(BODY)
    requires forall i, j | 0 <= i < j < |Children(BODY)| :: Binders(Children(BODY)[i]) !! Binders(Children(BODY)[j])
    ensures UniqueIds(BODY)
  {
    hide Binders, Children, NodeBinders;
    assert DistinctNames(BINDINGS);
  }

  lemma BlockUnique()
    requires Binders(Literal(1)) == Binders(SETTING) == Binders(CALLING) == {} && Binders(LAMBDA_F) == {2}
             && Binders(LAMBDA_G) == {5}
    requires UniqueIds(Literal(1)) && UniqueIds(SETTING) && UniqueIds(CALLING) && UniqueIds(LAMBDA_F)
             && UniqueIds(LAMBDA_G)
    ensures UniqueIds(BODY)
  {
    hide Binders, BoundIds, UniqueIds, Children;
    FiveChildren();
    forall x | x in BoundIds(BINDINGS) ensures x in {0, 1, 3, 4} { NameOf(x); }
    var cs := Children(BODY);
    assert forall c | c in cs :: UniqueIds(c) && Binders(c) !! NodeBinders(BODY);
    assert forall i, j | 0 <= i < j < |cs| :: Binders(cs[i]) !! Binders(cs[j]);
    UniqueBlock();
  }

  /** Without the test, lowering turns a program that returns 1 into one that returns 2. */
  lemma TestIsNeeded()
    ensures WellFormed(PROGRAM)
    ensures LowerExpr(BODY, Careless()).Lowered? && |LowerExpr(BODY, Careless()).state.functions| == 3
    ensures var r := LowerExpr(BODY, Careless());
            var careless := r.state.functions[0 := PROGRAM[0].(body := r.value)];
            && Observe(Apply(PROGRAM, 3, [], VClosure(0, []), [])) == Returned(Seen.Number(1), [Seen.Number(2)])
            && Observe(Apply(careless, 3, [], VClosure(0, []), [])) == Returned(Seen.Number(2), [Seen.Number(2)])
  {
    ProgramIsWellFormed();
    LowerCarelessly();
    assert AfterG().functions[0 := PROGRAM[0].(body := LOWERED_BODY)] == WRONGLY;
    RunSource();
    RunWrongly();
    assert SeeAll([VInt(2)]) == [Seen.Number(2)];
  }
}

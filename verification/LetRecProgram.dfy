/**
  The main result about closure lowering: every well-scoped program is lowered, and the lowered
  program does what the source does, call by call and with the same fuel.
 */
module LetRecProgram {
  import opened LetRecSyntax
  import opened LetRecEval
  import opened LetRecLowering
  import opened LetRecRelation
  import opened LetRecFrozen
  import opened LetRecSimulation
  import opened LetRecGrowth
  import opened LetRecStatic
  import opened LetRecSound

  // ----- the programs that lowering takes -----

  ghost predicate WellFormedFun(P: seq<Fun>, f: Fun) {
    && f.origin.Original? && f.captureCount == 0
    && var unit := f.origin.unit;
    && unit.count == |P|
    && unit.mutated == MutatedIn(f.body)
    && Fresh(unit, {}, f.parameters)
    && Scoped(unit, IdSet(f.parameters), IdSet(f.parameters), IdSet(f.parameters), f.body)
    && UniqueIds(f.body)
  }

  /** Every function is well-scoped, and gives each of its locals an id of its own. */
  ghost predicate WellFormed(P: seq<Fun>) {
    && (forall id | 0 <= id < |P| :: P[id].origin.Original?)
    && (forall id | 0 <= id < |P| :: WellFormedFun(P, P[id]))
  }

  lemma {:induction false} MutatesMore(a: set<nat>, b: set<nat>, e: Expr)
    requires OnlyMutates(a, e) && a <= b
    ensures OnlyMutates(b, e)
    decreases e
  {
    forall c | c in Children(e) ensures OnlyMutates(b, c) {
      MutatesMore(a, b, c);
    }
  }

  /** `MutatedIn` finds everything that an expression mutates. */
  lemma {:induction false} MutatesFound(e: Expr)
    ensures OnlyMutates(MutatedIn(e), e)
    decreases e
  {
    forall c | c in Children(e) ensures OnlyMutates(MutatedIn(e), c) {
      MutatesFound(c);
      MutatesMore(MutatedIn(c), MutatedIn(e), c);
    }
  }

  /** It finds nothing else: it is the least such set. */
  lemma {:induction false} MutatesLeast(mutated: set<nat>, e: Expr)
    requires OnlyMutates(mutated, e)
    ensures MutatedIn(e) <= mutated
    decreases e
  {
    forall x | x in MutatedIn(e) ensures x in mutated {
      if x !in NodeRoots(e) {
        var c :| c in Children(e) && x in MutatedIn(c);
        MutatesLeast(mutated, c);
      }
    }
  }

  // ----- lowering the functions one after the other -----

  lemma StartLowerable(P: seq<Fun>, functions: seq<Fun>, id: nat)
    requires id < |P| <= |functions| && WellFormedFun(P, P[id])
    ensures var ids := IdSet(P[id].parameters);
            Lowerable(P, P[id].body, Start(functions, P[id].body, P[id].origin.unit), map[], ids, ids, ids)
  {
    hide Scoped, UniqueIds;
    MutatesFound(P[id].body);
  }

  /** The functions of the source program are where they were, with their own bodies from `id` on. */
  ghost predicate Sources(P: seq<Fun>, functions: seq<Fun>) {
    |P| <= |functions| && forall k | 0 <= k < |P| :: functions[k] == P[k].(body := functions[k].body)
  }

  lemma LowerOne(P: seq<Fun>, functions: seq<Fun>, id: nat)
    requires id < |P| && P[id].origin.Original? && WellFormedFun(P, P[id]) && Sources(P, functions)
    ensures var r := LowerExpr(P[id].body, Start(functions, P[id].body, P[id].origin.unit));
            && r.Lowered?
            && |functions| <= |r.state.functions|
            && Untouched(functions, r.state.functions, id, id)
            && Sources(P, r.state.functions[id := r.state.functions[id].(body := r.value)])
  {
    hide LowerExpr, Scoped, UniqueIds, WellFormedFun, Static, OnlyMutates, HasGroup;
    var st := Start(functions, P[id].body, P[id].origin.unit);
    StartLowerable(P, functions, id);
    LowerableGrows(P, P[id].body, st, map[], IdSet(P[id].parameters), IdSet(P[id].parameters), IdSet(P[id].parameters));
  }

  lemma {:induction false} FromKeeps(P: seq<Fun>, functions: seq<Fun>, id: nat)
    requires WellFormed(P) && Sources(P, functions) && id <= |P|
    ensures var r := LowerFrom(P, functions, id);
            r.Lowered? && Untouched(functions, r.value, id, |P|) && Sources(P, r.value)
    decreases |P| - id
  {
    hide LowerExpr, WellFormedFun;
    if id < |P| {
      LowerOne(P, functions, id);
      var r := LowerExpr(P[id].body, Start(functions, P[id].body, P[id].origin.unit));
      FromKeeps(P, r.state.functions[id := r.state.functions[id].(body := r.value)], id + 1);
    }
  }

  lemma MadeFromSource(P: seq<Fun>, F: seq<Fun>, id: nat)
    requires id < |P| && WellFormedFun(P, P[id]) && Sources(P, F)
    requires Rel(F, P[id].origin.unit, PlainCtx(map[]), P[id].body, F[id].body)
    ensures FunOk(P, F, id)
  {
    hide Rel, Scoped, UniqueIds;
    MutatesFound(P[id].body);
    assert PlainCtx(map[]) == NO_CTX;
  }

  lemma {:induction false} FromSound(P: seq<Fun>, F: seq<Fun>, functions: seq<Fun>, id: nat)
    requires WellFormed(P) && Sources(P, functions) && id <= |P|
    requires LowerFrom(P, functions, id).Lowered? && LowerFrom(P, functions, id).value == F
    ensures |P| <= |functions| <= |F|
    ensures forall k | id <= k < |P| :: FunOk(P, F, k)
    ensures NewOk(P, F, |functions|, |F|)
    decreases |P| - id
  {
    hide LowerExpr, WellFormedFun, FunOk, Rel;
    if id < |P| {
      LowerOne(P, functions, id);
      var st := Start(functions, P[id].body, P[id].origin.unit);
      var r := LowerExpr(P[id].body, st);
      var next := r.state.functions[id := r.state.functions[id].(body := r.value)];
      FromKeeps(P, next, id + 1);
      StartLowerable(P, functions, id);
      var ids := IdSet(P[id].parameters);
      LowerSound(P, F, P[id].body, st, map[], ids, ids, ids);
      MadeFromSource(P, F, id);
      FromSound(P, F, next, id + 1);
    }
  }

  /** Lowering a well-formed program never fails, and every function it makes stands for its source. */
  lemma LoweringIsSound(P: seq<Fun>)
    requires WellFormed(P)
    ensures LowerProgram(P).Lowered? && ProgOk(P, LowerProgram(P).value)
  {
    hide FunOk, LowerFrom, WellFormedFun;
    assert Sources(P, P);
    FromKeeps(P, P, 0);
    var F := LowerProgram(P).value;
    FromSound(P, F, P, 0);
    assert forall id | 0 <= id < |P| :: F[id].origin == P[id].origin;
  }

  // ----- what a caller can see -----

  /** What can be seen of a value without calling it. */
  datatype Seen = Number(n: int) | Nothing | Pointer(exclusive: bool) | Procedure

  function See(v: Val): Seen {
    match v
    case VInt(n) => Number(n)
    case VUnit => Nothing
    case VRef(_, exclusive) => Pointer(exclusive)
    case _ => Procedure
  }

  function SeeAll(s: Store): (r: seq<Seen>)
    ensures |r| == |s|
    ensures forall k | 0 <= k < |s| :: r[k] == See(s[k])
  {
    seq(|s|, k requires 0 <= k < |s| => See(s[k]))
  }

  /** How a run ends: with a value and the store it leaves, out of fuel, or in an error. */
  datatype Ending = Returned(result: Seen, cells: seq<Seen>) | OutOfFuel | Wrong

  function Observe(r: Res<Val>): Ending {
    match r
    case Ok(v, s) => Returned(See(v), SeeAll(s))
    case Timeout => OutOfFuel
    case Stuck => Wrong
  }

  /** Arguments that any caller has. */
  predicate Numbers(args: seq<Val>) {
    forall k | 0 <= k < |args| :: args[k].VInt? || args[k].VUnit?
  }

  lemma RelatedLooksAlike(F: seq<Fun>, r: Res<Val>, r': Res<Val>)
    requires ResRel(F, r, r')
    ensures Observe(r) == Observe(r')
  {
    if r.Ok? {
      assert See(r.value) == See(r'.value);
      forall l | 0 <= l < |r.store| ensures See(r.store[l]) == See(r'.store[l]) {
        assert ValRel(F, r.store[l], r'.store[l]);
      }
      assert SeeAll(r.store) == SeeAll(r'.store);
    }
  }

  /** Lowering preserves meaning: each function of a well-formed program, called with any numbers and
      any fuel, ends in the lowered program as it does in the source. */
  lemma LoweringPreservesMeaning(P: seq<Fun>, fuel: nat, fid: nat, args: seq<Val>)
    requires WellFormed(P) && fid < |P| && Numbers(args)
    ensures LowerProgram(P).Lowered?
    ensures Observe(Apply(LowerProgram(P).value, fuel, [], VClosure(fid, []), args))
            == Observe(Apply(P, fuel, [], VClosure(fid, []), args))
  {
    hide ProgOk, AllTame, Apply, LowerProgram;
    LoweringIsSound(P);
    var F := LowerProgram(P).value;
    ProgTame(P, F);
    var f := VClosure(fid, []);
    SourceValue(P, F, fid);
    SimApply(P, F, fuel, [], [], f, f, args, args);
    RelatedLooksAlike(F, Apply(P, fuel, [], f, args), Apply(F, fuel, [], f, args));
  }

  lemma SourceValue(P: seq<Fun>, F: seq<Fun>, fid: nat)
    requires ProgOk(P, F) && fid < |P|
    ensures ValRel(F, VClosure(fid, []), VClosure(fid, []))
  {
  }
}

/**
  Cells that nothing can write. A lowered expression changes only cells that it can reach by a local
  that it mutates, or by an exclusive reference: a cell that is out of reach of both keeps its value
  through any evaluation, calls of unknown functions included.
 */
module LetRecFrozen {
  import opened LetRecSyntax
  import opened LetRecEval
  import opened LetRecLowering

  /** A lowered expression: no lambda is left in it, and it mutates only locals of `mutated`. */
  ghost predicate Tame(mutated: set<nat>, e: Expr)
    decreases e
  {
    && !e.Lambda?
    && NodeRoots(e) <= mutated
    && (forall c | c in Children(e) :: Tame(mutated, c))
  }

  function UnitOf(origin: Origin): Unit {
    match origin
    case Original(unit) => unit
    case FromLambda(_, unit) => unit
    case FromGroup(g, _) => g.unit
  }

  ghost predicate AllTame(F: seq<Fun>) {
    forall k | 0 <= k < |F| :: Tame(UnitOf(F[k].origin).mutated, F[k].body)
  }

  /** No exclusive reference into `frozen` in a value, and no reference beyond the store. */
  ghost predicate SafeVal(frozen: set<nat>, size: nat, v: Val) {
    match v
    case VInt(_) => true
    case VUnit => true
    case VRef(to, exclusive) => SafeBind(frozen, size, to) && (exclusive && to.Cell? ==> to.loc !in frozen)
    case VClosure(_, vals) => forall k | 0 <= k < |vals| :: SafeVal(frozen, size, vals[k])
    case VLambda(_, _, _) => false
    case VRec(_, _, _, _) => false
  }

  ghost predicate SafeBind(frozen: set<nat>, size: nat, b: Bind) {
    match b
    case Imm(v) => SafeVal(frozen, size, v)
    case Cell(l) => l < size
  }

  ghost predicate SafeAll(frozen: set<nat>, size: nat, vals: seq<Val>) {
    forall k | 0 <= k < |vals| :: SafeVal(frozen, size, vals[k])
  }

  ghost predicate SafeStore(frozen: set<nat>, s: Store) {
    (forall l | l in frozen :: l < |s|) && SafeAll(frozen, |s|, s)
  }

  ghost predicate SafeEnv(frozen: set<nat>, size: nat, env: Env) {
    forall x | x in env :: SafeBind(frozen, size, env[x])
  }

  /** The locals of `mutated` are not kept in frozen cells. */
  ghost predicate Apart(frozen: set<nat>, env: Env, mutated: set<nat>) {
    forall x | x in mutated && x in env && env[x].Cell? :: env[x].loc !in frozen
  }

  /** The store has grown, and the frozen cells hold what they held. */
  ghost predicate Kept(frozen: set<nat>, s: Store, s': Store) {
    |s| <= |s'| && SafeStore(frozen, s') && forall l | l in frozen && l < |s| :: s'[l] == s[l]
  }

  lemma {:induction false} SafeGrows(frozen: set<nat>, size: nat, size': nat, v: Val)
    requires SafeVal(frozen, size, v) && size <= size'
    ensures SafeVal(frozen, size', v)
    decreases v
  {
    match v
    case VInt(_) =>
    case VUnit =>
    case VRef(to, _) => if to.Imm? { SafeGrows(frozen, size, size', to.v); }
    case VClosure(_, vals) =>
      forall k | 0 <= k < |vals| ensures SafeVal(frozen, size', vals[k]) {
        SafeGrows(frozen, size, size', vals[k]);
      }
  }

  lemma SafeAllGrows(frozen: set<nat>, size: nat, size': nat, vals: seq<Val>)
    requires SafeAll(frozen, size, vals) && size <= size'
    ensures SafeAll(frozen, size', vals)
  {
    forall k | 0 <= k < |vals| ensures SafeVal(frozen, size', vals[k]) {
      SafeGrows(frozen, size, size', vals[k]);
    }
  }

  lemma SafeEnvGrows(frozen: set<nat>, size: nat, size': nat, env: Env)
    requires SafeEnv(frozen, size, env) && size <= size'
    ensures SafeEnv(frozen, size', env)
  {
    forall x | x in env ensures SafeBind(frozen, size', env[x]) {
      if env[x].Imm? { SafeGrows(frozen, size, size', env[x].v); }
    }
  }

  lemma SafePush(frozen: set<nat>, s: Store, v: Val)
    requires SafeStore(frozen, s) && SafeVal(frozen, |s|, v)
    ensures SafeStore(frozen, s + [v])
  {
    SafeAllGrows(frozen, |s|, |s| + 1, s);
    SafeGrows(frozen, |s|, |s| + 1, v);
  }

  lemma BindLocalSafe(frozen: set<nat>, env: Env, s: Store, local: Local, v: Val, mutated: set<nat>)
    requires SafeStore(frozen, s) && SafeEnv(frozen, |s|, env) && SafeVal(frozen, |s|, v) && Apart(frozen, env, mutated)
    ensures var r := BindLocal(env, s, local, v);
            Kept(frozen, s, r.1) && SafeEnv(frozen, |r.1|, r.0) && Apart(frozen, r.0, mutated)
  {
    if local.mutable {
      SafePush(frozen, s, v);
      SafeEnvGrows(frozen, |s|, |s| + 1, env);
    }
  }

  lemma {:induction false} BindAllSafe(
    frozen: set<nat>, env: Env, s: Store, locals: seq<Local>, vals: seq<Val>, mutated: set<nat>)
    requires |locals| == |vals|
    requires SafeStore(frozen, s) && SafeEnv(frozen, |s|, env) && SafeAll(frozen, |s|, vals)
             && Apart(frozen, env, mutated)
    ensures var r := BindAll(env, s, locals, vals);
            Kept(frozen, s, r.1) && SafeEnv(frozen, |r.1|, r.0) && Apart(frozen, r.0, mutated)
    decreases |locals|
  {
    if locals != [] {
      BindLocalSafe(frozen, env, s, locals[0], vals[0], mutated);
      var (env', s') := BindLocal(env, s, locals[0], vals[0]);
      SafeAllGrows(frozen, |s|, |s'|, vals[1..]);
      BindAllSafe(frozen, env', s', locals[1..], vals[1..], mutated);
    }
  }

  /** The frame of a called function: its cells are new, so it can mutate all of them. */
  ghost predicate SafeFrame(frozen: set<nat>, env: Env, s: Store, mutated: set<nat>) {
    SafeStore(frozen, s) && SafeEnv(frozen, |s|, env) && Apart(frozen, env, mutated)
  }

  ghost predicate Keeps(frozen: set<nat>, s: Store, r: Res<Val>) {
    r.Ok? ==> Kept(frozen, s, r.store) && SafeVal(frozen, |r.store|, r.value)
  }

  ghost predicate KeepsAll(frozen: set<nat>, s: Store, r: Res<seq<Val>>) {
    r.Ok? ==> Kept(frozen, s, r.store) && SafeAll(frozen, |r.store|, r.value)
  }

  lemma Resume(frozen: set<nat>, env: Env, s: Store, s': Store, mutated: set<nat>)
    requires SafeFrame(frozen, env, s, mutated) && Kept(frozen, s, s')
    ensures SafeFrame(frozen, env, s', mutated)
  {
    SafeEnvGrows(frozen, |s|, |s'|, env);
  }

  lemma WriteKeeps(frozen: set<nat>, to: Bind, v: Val, s: Store)
    requires SafeStore(frozen, s) && SafeVal(frozen, |s|, v)
    requires to.Cell? ==> to.loc !in frozen
    ensures Keeps(frozen, s, Write(to, v, s))
  {
  }

  /** Evaluating a lowered expression keeps every frozen cell. */
  lemma {:induction false} EvalKeeps(
    F: seq<Fun>, fuel: nat, env: Env, s: Store, e: Expr, mutated: set<nat>, frozen: set<nat>)
    requires AllTame(F) && Tame(mutated, e) && SafeFrame(frozen, env, s, mutated)
    ensures Keeps(frozen, s, Eval(F, fuel, env, s, e))
    decreases fuel, e
  {
    match e
    case Literal(_) =>
    case Var(x, _) =>
    case FunctionRef(_) =>
    case Binary(_, left, right) =>
      TwoKeep(F, fuel, env, s, e, left, right, mutated, frozen);
    case Pipe(argument, piped) =>
      TwoKeep(F, fuel, env, s, e, argument, piped, mutated, frozen);
      var r1 := Eval(F, fuel, env, s, argument);
      if r1.Ok? {
        var r2 := Eval(F, fuel, env, r1.store, piped);
        if r2.Ok? && fuel > 0 {
          SafeGrows(frozen, |r1.store|, |r2.store|, r1.value);
          ApplyKeeps(F, fuel - 1, r2.store, r2.value, [r1.value], frozen);
        }
      }
    case Call(_, _) => CallKeeps(F, fuel, env, s, e, mutated, frozen);
    case If(condition, thenBranch, elseBranch) =>
      assert condition in Children(e) && thenBranch in Children(e) && elseBranch in Children(e);
      EvalKeeps(F, fuel, env, s, condition, mutated, frozen);
      var r := Eval(F, fuel, env, s, condition);
      if r.Ok? && r.value.VInt? {
        var next := if r.value.n != 0 then thenBranch else elseBranch;
        Resume(frozen, env, s, r.store, mutated);
        EvalKeeps(F, fuel, env, r.store, next, mutated, frozen);
      }
    case Closure(_, values, _) => EvalAllKeeps(F, fuel, env, s, values, mutated, frozen);
    case Block(_, _) => BlockKeeps(F, fuel, env, s, e, 0, mutated, frozen);
    case Assign(_, _) => AssignKeeps(F, fuel, env, s, e, mutated, frozen);
    case Borrow(_, _) => BorrowKeeps(F, fuel, env, s, e, mutated, frozen);
    case Deref(reference) =>
      assert reference in Children(e);
      EvalKeeps(F, fuel, env, s, reference, mutated, frozen);
      var r := Eval(F, fuel, env, s, reference);
      if r.Ok? && r.value.VRef? {
        LoadKeeps(frozen, r.value.to, r.store);
      }
  }

  lemma LoadKeeps(frozen: set<nat>, to: Bind, s: Store)
    requires SafeStore(frozen, s) && SafeBind(frozen, |s|, to)
    ensures Keeps(frozen, s, Load(to, s))
  {
  }

  lemma {:induction false} TwoKeep(
    F: seq<Fun>, fuel: nat, env: Env, s: Store, e: Expr, first: Expr, second: Expr, mutated: set<nat>, frozen: set<nat>)
    requires AllTame(F) && Tame(mutated, e) && SafeFrame(frozen, env, s, mutated)
    requires first in Children(e) && second in Children(e)
    ensures var r1 := Eval(F, fuel, env, s, first);
            Keeps(frozen, s, r1) && (r1.Ok? ==> Keeps(frozen, r1.store, Eval(F, fuel, env, r1.store, second)))
    decreases fuel, e, 0
  {
    EvalKeeps(F, fuel, env, s, first, mutated, frozen);
    var r1 := Eval(F, fuel, env, s, first);
    if r1.Ok? {
      Resume(frozen, env, s, r1.store, mutated);
      EvalKeeps(F, fuel, env, r1.store, second, mutated, frozen);
    }
  }

  lemma {:induction false} CallKeeps(
    F: seq<Fun>, fuel: nat, env: Env, s: Store, e: Expr, mutated: set<nat>, frozen: set<nat>)
    requires e.Call?
    requires AllTame(F) && Tame(mutated, e) && SafeFrame(frozen, env, s, mutated)
    ensures Keeps(frozen, s, Eval(F, fuel, env, s, e))
    decreases fuel, e, 0
  {
    assert e.callee in Children(e);
    EvalKeeps(F, fuel, env, s, e.callee, mutated, frozen);
    var r1 := Eval(F, fuel, env, s, e.callee);
    if r1.Ok? {
      Resume(frozen, env, s, r1.store, mutated);
      assert forall c | c in e.arguments :: c in Children(e);
      EvalAllKeeps(F, fuel, env, r1.store, e.arguments, mutated, frozen);
      var r2 := EvalAll(F, fuel, env, r1.store, e.arguments);
      if r2.Ok? && fuel > 0 {
        SafeGrows(frozen, |r1.store|, |r2.store|, r1.value);
        ApplyKeeps(F, fuel - 1, r2.store, r1.value, r2.value, frozen);
      }
    }
  }

  lemma {:induction false} EvalAllKeeps(
    F: seq<Fun>, fuel: nat, env: Env, s: Store, es: seq<Expr>, mutated: set<nat>, frozen: set<nat>)
    requires AllTame(F) && (forall c | c in es :: Tame(mutated, c)) && SafeFrame(frozen, env, s, mutated)
    ensures KeepsAll(frozen, s, EvalAll(F, fuel, env, s, es))
    decreases fuel, es
  {
    if es != [] {
      EvalKeeps(F, fuel, env, s, es[0], mutated, frozen);
      var r1 := Eval(F, fuel, env, s, es[0]);
      if r1.Ok? {
        Resume(frozen, env, s, r1.store, mutated);
        EvalAllKeeps(F, fuel, env, r1.store, es[1..], mutated, frozen);
        var r2 := EvalAll(F, fuel, env, r1.store, es[1..]);
        if r2.Ok? { SafeGrows(frozen, |r1.store|, |r2.store|, r1.value); }
      }
    }
  }

  lemma {:induction false} AssignKeeps(
    F: seq<Fun>, fuel: nat, env: Env, s: Store, e: Expr, mutated: set<nat>, frozen: set<nat>)
    requires e.Assign?
    requires AllTame(F) && Tame(mutated, e) && SafeFrame(frozen, env, s, mutated)
    ensures Keeps(frozen, s, Eval(F, fuel, env, s, e))
    decreases fuel, e, 0
  {
    assert e.target in Children(e) && e.newValue in Children(e);
    EvalKeeps(F, fuel, env, s, e.newValue, mutated, frozen);
    var r1 := Eval(F, fuel, env, s, e.newValue);
    if r1.Ok? {
      if e.target.Var? {
        if e.target.id in env { WriteKeeps(frozen, env[e.target.id], r1.value, r1.store); }
      } else if e.target.Deref? {
        var reference := e.target.reference;
        assert reference in Children(e.target);
        Resume(frozen, env, s, r1.store, mutated);
        EvalKeeps(F, fuel, env, r1.store, reference, mutated, frozen);
        var r2 := Eval(F, fuel, env, r1.store, reference);
        if r2.Ok? && r2.value.VRef? && r2.value.exclusive {
          SafeGrows(frozen, |r1.store|, |r2.store|, r1.value);
          WriteKeeps(frozen, r2.value.to, r1.value, r2.store);
        }
      }
    }
  }

  lemma {:induction false} BorrowKeeps(
    F: seq<Fun>, fuel: nat, env: Env, s: Store, e: Expr, mutated: set<nat>, frozen: set<nat>)
    requires e.Borrow?
    requires AllTame(F) && Tame(mutated, e) && SafeFrame(frozen, env, s, mutated)
    ensures Keeps(frozen, s, Eval(F, fuel, env, s, e))
    decreases fuel, e, 0
  {
    assert e.place in Children(e);
    if e.place.Var? {
      if e.exclusive { assert NodeRoots(e) == {e.place.id}; }
    } else if e.place.Deref? {
      assert e.place.reference in Children(e.place);
      EvalKeeps(F, fuel, env, s, e.place.reference, mutated, frozen);
    } else {
      EvalKeeps(F, fuel, env, s, e.place, mutated, frozen);
    }
  }

  lemma {:induction false} BlockKeeps(
    F: seq<Fun>, fuel: nat, env: Env, s: Store, e: Expr, i: nat, mutated: set<nat>, frozen: set<nat>)
    requires e.Block? && i <= |e.bindings|
    requires AllTame(F) && Tame(mutated, e) && SafeFrame(frozen, env, s, mutated)
    ensures Keeps(frozen, s, EvalBlock(F, fuel, env, s, e, i))
    decreases fuel, e, |e.bindings| - i
  {
    if i == |e.bindings| {
      assert Children(e)[|e.bindings|] == e.result;
      EvalKeeps(F, fuel, env, s, e.result, mutated, frozen);
    } else {
      var value := e.bindings[i].value;
      assert Children(e)[i] == value;
      assert Tame(mutated, value);
      assert GroupLen(e.bindings, i) == Members(0);
      EvalKeeps(F, fuel, env, s, value, mutated, frozen);
      var r := Eval(F, fuel, env, s, value);
      if r.Ok? {
        Resume(frozen, env, s, r.store, mutated);
        BindLocalSafe(frozen, env, r.store, e.bindings[i].local, r.value, mutated);
        var (env', s') := BindLocal(env, r.store, e.bindings[i].local, r.value);
        BlockKeeps(F, fuel, env', s', e, i + 1, mutated, frozen);
      }
    }
  }

  /** So does a call of any function value of a lowered program. */
  lemma {:induction false} ApplyKeeps(F: seq<Fun>, fuel: nat, s: Store, f: Val, args: seq<Val>, frozen: set<nat>)
    requires AllTame(F) && SafeStore(frozen, s) && SafeVal(frozen, |s|, f) && SafeAll(frozen, |s|, args)
    ensures Keeps(frozen, s, Apply(F, fuel, s, f, args))
    decreases fuel
  {
    if f.VClosure? && f.fid < |F| {
      var parameters, body, mutated := F[f.fid].parameters, F[f.fid].body, UnitOf(F[f.fid].origin).mutated;
      var all := f.vals + args;
      assert SafeAll(frozen, |s|, all);
      if |all| >= |parameters| {
        BindAllSafe(frozen, map[], s, parameters, all[..|parameters|], mutated);
        var (env, s') := BindAll(map[], s, parameters, all[..|parameters|]);
        EvalKeeps(F, fuel, env, s', body, mutated, frozen);
        var r := Eval(F, fuel, env, s', body);
        if r.Ok? && |all| > |parameters| && fuel > 0 {
          SafeAllGrows(frozen, |s|, |r.store|, all[|parameters|..]);
          ApplyKeeps(F, fuel - 1, r.store, r.value, all[|parameters|..], frozen);
        }
      }
    }
  }
}

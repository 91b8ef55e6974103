/**
  Runs of a program in which the callbacks that reach eligible parameters are marked. A marked callback
  may be called with all its arguments, initialize an array or a list, or be handed to another eligible
  parameter; any other use of it ends the run as `Escaped`, which no run does.
 */
module EligibilityRuns {
  import opened Eligibility

  datatype Val =
    | Int(n: int)
    /** A function of the program with the leading arguments that it already has. */
    | Fn(fid: nat, bound: seq<Val>)
    | Items(items: seq<Val>)
    /** The callback that an eligible parameter was called with. */
    | Marked(callback: Val)

  datatype Res<+T> = Ok(value: T) | Timeout | Stuck | Escaped

  type Env = map<nat, Val>

  /** The value of an expression whose value is stored, captured, returned or computed with. */
  function Plainly(r: Res<Val>): Res<Val> {
    if r.Ok? && r.value.Marked? then Escaped else r
  }

  function Unmarked(v: Val): Val {
    if v.Marked? then v.callback else v
  }

  predicate AnyMarked(vs: seq<Val>) {
    exists k | 0 <= k < |vs| :: vs[k].Marked?
  }

  /** Whether a marked argument is handed to a parameter that is not eligible. */
  predicate Leaks(eligible: Eligible, fid: nat, vs: seq<Val>) {
    exists k | 0 <= k < |vs| :: vs[k].Marked? && !(fid < |eligible| && k in eligible[fid])
  }

  /** The frame of a function: what reaches an eligible parameter is marked. */
  function Frame(P: seq<Fun>, eligible: Eligible, fid: nat, vs: seq<Val>, count: nat): Env
    requires fid < |P| && count <= |vs| == |P[fid].parameters|
  {
    if count == 0 then map[]
    else
      var k := count - 1;
      var v := if fid < |eligible| && k in eligible[fid] then Marked(Unmarked(vs[k])) else vs[k];
      Frame(P, eligible, fid, vs, k)[P[fid].parameters[k].id := v]
  }

  /** A saturated call: the body runs with the parameters bound. */
  function Enter(P: seq<Fun>, eligible: Eligible, fuel: nat, fid: nat, vs: seq<Val>): Res<Val>
    requires fid < |P| && |vs| == |P[fid].parameters|
    decreases fuel, 0, 1
  {
    if Leaks(eligible, fid, vs) then Escaped
    else if fuel == 0 then Timeout
    else Plainly(Eval(P, eligible, fuel - 1, Frame(P, eligible, fid, vs, |vs|), P[fid].body))
  }

  /** Calls a function value with arguments that are not marked. */
  function Apply(P: seq<Fun>, eligible: Eligible, fuel: nat, f: Val, vs: seq<Val>): Res<Val>
    decreases fuel, 0, 2
  {
    if AnyMarked(vs) then Escaped
    else if !f.Fn? || f.fid >= |P| then Stuck
    else
      var all := f.bound + vs;
      var n := |P[f.fid].parameters|;
      if |all| < n then Ok(Fn(f.fid, all))
      else
        match Enter(P, eligible, fuel, f.fid, all[..n])
        case Ok(v) =>
          if |all| == n then Ok(v) else if fuel == 0 then Timeout else Apply(P, eligible, fuel - 1, v, all[n..])
        case r => r
  }

  /** A call of the callee `e`, whose value is `f`. */
  function CallValue(P: seq<Fun>, eligible: Eligible, fuel: nat, e: Expr, f: Val, vs: seq<Val>): Res<Val>
    decreases fuel, 0, 3
  {
    if f.Marked? then
      if e.Local? && e.arity == |vs| then Apply(P, eligible, fuel, f.callback, vs) else Escaped
    else if e.Function? && e.fid < |P| && |vs| == |P[e.fid].parameters| then Enter(P, eligible, fuel, e.fid, vs)
    else Apply(P, eligible, fuel, f, vs)
  }

  /** The elements from `k` on, each made by the initializer. */
  function Fill(P: seq<Fun>, eligible: Eligible, fuel: nat, f: Val, k: nat, n: nat): Res<seq<Val>>
    requires k <= n
    decreases fuel, 0, 3, n - k
  {
    if k == n then Ok([])
    else
      match Apply(P, eligible, fuel, f, [Int(k)])
      case Ok(v) => (
        match Fill(P, eligible, fuel, f, k + 1, n)
        case Ok(rest) => Ok([v] + rest)
        case r => r)
      case Timeout => Timeout
      case Stuck => Stuck
      case Escaped => Escaped
  }

  function Made(P: seq<Fun>, eligible: Eligible, fuel: nat, n: Val, f: Val): Res<Val>
    decreases fuel, 0, 4
  {
    if !n.Int? || n.n < 0 then Stuck
    else
      match Fill(P, eligible, fuel, Unmarked(f), 0, n.n)
      case Ok(vs) => Ok(Items(vs))
      case Timeout => Timeout
      case Stuck => Stuck
      case Escaped => Escaped
  }

  function Eval(P: seq<Fun>, eligible: Eligible, fuel: nat, env: Env, e: Expr): Res<Val>
    decreases fuel, 1, e, 1
  {
    match e
    case Literal(n) => Ok(Int(n))
    case Local(x, _) => if x in env then Ok(env[x]) else Stuck
    case Function(fid) => Ok(Fn(fid, []))
    case Call(callee, arguments) => (
      match Eval(P, eligible, fuel, env, callee)
      case Ok(f) => (
        match EvalAll(P, eligible, fuel, env, arguments)
        case Ok(vs) => if fuel == 0 then Timeout else CallValue(P, eligible, fuel - 1, callee, f, vs)
        case Timeout => Timeout
        case Stuck => Stuck
        case Escaped => Escaped)
      case r => r)
    case Pipe(argument, piped) => (
      match Eval(P, eligible, fuel, env, argument)
      case Ok(v) => (
        match Eval(P, eligible, fuel, env, piped)
        case Ok(f) => if fuel == 0 then Timeout else CallValue(P, eligible, fuel - 1, piped, f, [v])
        case r => r)
      case r => r)
    case Add(left, right) => (
      match Plainly(Eval(P, eligible, fuel, env, left))
      case Ok(a) => (
        match Plainly(Eval(P, eligible, fuel, env, right))
        case Ok(b) => if a.Int? && b.Int? then Ok(Int(a.n + b.n)) else Stuck
        case r => r)
      case r => r)
    case NewArray(length, initializer) => Initialize(P, eligible, fuel, env, length, initializer, e)
    case NewList(length, initializer) => Initialize(P, eligible, fuel, env, length, initializer, e)
    case Closure(lifted, values) => (
      match EvalAll(P, eligible, fuel, env, values)
      case Ok(vs) => if AnyMarked(vs) then Escaped else Ok(Fn(lifted, vs))
      case Timeout => Timeout
      case Stuck => Stuck
      case Escaped => Escaped)
    case Tuple(elements) => (
      match EvalAll(P, eligible, fuel, env, elements)
      case Ok(vs) => if AnyMarked(vs) then Escaped else Ok(Items(vs))
      case Timeout => Timeout
      case Stuck => Stuck
      case Escaped => Escaped)
    case If(condition, thenBranch, elseBranch) => (
      match Plainly(Eval(P, eligible, fuel, env, condition))
      case Ok(c) => if c.Int? then Eval(P, eligible, fuel, env, if c.n != 0 then thenBranch else elseBranch) else Stuck
      case r => r)
    case Block(_, _) => EvalBlock(P, eligible, fuel, env, e, 0)
  }

  function Initialize(
    P: seq<Fun>, eligible: Eligible, fuel: nat, env: Env, length: Expr, initializer: Expr, e: Expr): Res<Val>
    requires length < e && initializer < e
    decreases fuel, 1, e, 0
  {
    match Plainly(Eval(P, eligible, fuel, env, length))
    case Ok(n) => (
      match Eval(P, eligible, fuel, env, initializer)
      case Ok(f) => if fuel == 0 then Timeout else Made(P, eligible, fuel - 1, n, f)
      case r => r)
    case r => r
  }

  function EvalAll(P: seq<Fun>, eligible: Eligible, fuel: nat, env: Env, es: seq<Expr>): Res<seq<Val>>
    decreases fuel, 1, es
  {
    if es == [] then Ok([])
    else
      match Eval(P, eligible, fuel, env, es[0])
      case Ok(v) => (
        match EvalAll(P, eligible, fuel, env, es[1..])
        case Ok(rest) => Ok([v] + rest)
        case r => r)
      case Timeout => Timeout
      case Stuck => Stuck
      case Escaped => Escaped
  }

  function EvalBlock(P: seq<Fun>, eligible: Eligible, fuel: nat, env: Env, block: Expr, i: nat): Res<Val>
    requires block.Block? && i <= |block.bindings|
    decreases fuel, 1, block, 0, |block.bindings| - i
  {
    if i == |block.bindings| then Eval(P, eligible, fuel, env, block.result)
    else
      match Plainly(Eval(P, eligible, fuel, env, block.bindings[i].1))
      case Ok(v) => EvalBlock(P, eligible, fuel, env[block.bindings[i].0 := v], block, i + 1)
      case r => r
  }

  // ----- no callback escapes -----

  /** No marked callback anywhere in the value. */
  predicate Clean(v: Val) {
    match v
    case Int(_) => true
    case Fn(_, bound) => forall k | 0 <= k < |bound| :: Clean(bound[k])
    case Items(items) => forall k | 0 <= k < |items| :: Clean(items[k])
    case Marked(_) => false
  }

  predicate CleanAll(vs: seq<Val>) {
    forall k | 0 <= k < |vs| :: Clean(vs[k])
  }

  /** A run that did not let a callback escape, and returned none. */
  predicate Kept(r: Res<Val>) {
    !r.Escaped? && (r.Ok? ==> Clean(r.value))
  }

  predicate KeptAll(r: Res<seq<Val>>) {
    !r.Escaped? && (r.Ok? ==> CleanAll(r.value))
  }

  /** The marked locals of the frame are callbacks that `e` does not let escape. */
  ghost predicate Guarded(P: seq<Fun>, eligible: Eligible, env: Env, e: Expr) {
    forall x | x in env ::
      if env[x].Marked? then Clean(env[x].callback) && NonEscaping(P, eligible, e, x) else Clean(env[x])
  }

  /** Arguments of a call: clean, or marked where the callee takes callbacks. */
  ghost predicate Handed(P: seq<Fun>, eligible: Eligible, callee: Expr, count: nat, start: nat, vs: seq<Val>) {
    forall k | 0 <= k < |vs| ::
      if vs[k].Marked? then Clean(vs[k].callback) && Takes(P, eligible, callee, count, start + k) else Clean(vs[k])
  }

  lemma {:induction false} FrameGuarded(P: seq<Fun>, eligible: Eligible, fid: nat, vs: seq<Val>, count: nat)
    requires Consistent(P, eligible) && fid < |P| && count <= |vs| == |P[fid].parameters|
    requires !Leaks(eligible, fid, vs)
    requires forall k | 0 <= k < |vs| :: Clean(Unmarked(vs[k]))
    ensures Guarded(P, eligible, Frame(P, eligible, fid, vs, count), P[fid].body)
    decreases count
  {
    if count > 0 {
      FrameGuarded(P, eligible, fid, vs, count - 1);
      assert Safe(P, eligible, fid);
    }
  }

  lemma {:induction false} EnterKept(P: seq<Fun>, eligible: Eligible, fuel: nat, fid: nat, vs: seq<Val>)
    requires Consistent(P, eligible) && fid < |P| && |vs| == |P[fid].parameters|
    requires forall k | 0 <= k < |vs| ::
             if vs[k].Marked? then Clean(vs[k].callback) && k in eligible[fid] else Clean(vs[k])
    ensures Kept(Enter(P, eligible, fuel, fid, vs))
    decreases fuel, 0, 1
  {
    if fuel > 0 {
      FrameGuarded(P, eligible, fid, vs, |vs|);
      EvalKept(P, eligible, fuel - 1, Frame(P, eligible, fid, vs, |vs|), P[fid].body);
    }
  }

  lemma {:induction false} ApplyKept(P: seq<Fun>, eligible: Eligible, fuel: nat, f: Val, vs: seq<Val>)
    requires Consistent(P, eligible) && Clean(f) && CleanAll(vs)
    ensures Kept(Apply(P, eligible, fuel, f, vs))
    decreases fuel, 0, 2
  {
    if f.Fn? && f.fid < |P| {
      var all := f.bound + vs;
      var n := |P[f.fid].parameters|;
      assert CleanAll(all);
      if |all| >= n {
        EnterKept(P, eligible, fuel, f.fid, all[..n]);
        var r := Enter(P, eligible, fuel, f.fid, all[..n]);
        if r.Ok? && |all| > n && fuel > 0 {
          ApplyKept(P, eligible, fuel - 1, r.value, all[n..]);
        }
      }
    }
  }

  lemma {:induction false} FillKept(P: seq<Fun>, eligible: Eligible, fuel: nat, f: Val, k: nat, n: nat)
    requires Consistent(P, eligible) && Clean(f) && k <= n
    ensures KeptAll(Fill(P, eligible, fuel, f, k, n))
    decreases fuel, 0, 3, n - k
  {
    if k < n {
      ApplyKept(P, eligible, fuel, f, [Int(k)]);
      FillKept(P, eligible, fuel, f, k + 1, n);
    }
  }

  lemma {:induction false} CallKept(P: seq<Fun>, eligible: Eligible, fuel: nat, e: Expr, f: Val, vs: seq<Val>)
    requires Consistent(P, eligible)
    requires if f.Marked? then Clean(f.callback) && e.Local? && e.arity == |vs| else Clean(f)
    requires Handed(P, eligible, e, |vs|, 0, vs)
    ensures Kept(CallValue(P, eligible, fuel, e, f, vs))
    decreases fuel, 0, 3
  {
    if f.Marked? {
      ApplyKept(P, eligible, fuel, f.callback, vs);
    } else if e.Function? && e.fid < |P| && |vs| == |P[e.fid].parameters| {
      EnterKept(P, eligible, fuel, e.fid, vs);
    } else {
      ApplyKept(P, eligible, fuel, f, vs);
    }
  }

  /** The arguments of a call, from the one at `start` on. */
  lemma {:induction false} ArgumentsKept(
    P: seq<Fun>, eligible: Eligible, fuel: nat, env: Env, callee: Expr, count: nat, start: nat, es: seq<Expr>)
    requires Consistent(P, eligible)
    requires forall x | x in env :: if env[x].Marked? then Clean(env[x].callback) else Clean(env[x])
    requires forall x, k | x in env && env[x].Marked? && 0 <= k < |es| ::
               if Is(es[k], x) then Takes(P, eligible, callee, count, start + k) else NonEscaping(P, eligible, es[k], x)
    ensures var r := EvalAll(P, eligible, fuel, env, es);
            !r.Escaped? && (r.Ok? ==> |r.value| == |es| && Handed(P, eligible, callee, count, start, r.value))
    decreases fuel, 1, es
  {
    if es != [] {
      ArgumentsKept(P, eligible, fuel, env, callee, count, start + 1, es[1..]);
      if es[0].Local? && es[0].id in env && env[es[0].id].Marked? {
        assert Is(es[0], es[0].id);
      } else {
        assert Guarded(P, eligible, env, es[0]);
        EvalKept(P, eligible, fuel, env, es[0]);
      }
    }
  }

  /** Values that are stored, captured or returned. */
  lemma {:induction false} AllKept(P: seq<Fun>, eligible: Eligible, fuel: nat, env: Env, es: seq<Expr>)
    requires Consistent(P, eligible) && forall k | 0 <= k < |es| :: Guarded(P, eligible, env, es[k])
    ensures KeptAll(EvalAll(P, eligible, fuel, env, es))
    decreases fuel, 1, es
  {
    if es != [] {
      EvalKept(P, eligible, fuel, env, es[0]);
      AllKept(P, eligible, fuel, env, es[1..]);
    }
  }

  lemma {:induction false} InitializeKept(
    P: seq<Fun>, eligible: Eligible, fuel: nat, env: Env, length: Expr, initializer: Expr, e: Expr)
    requires Consistent(P, eligible) && Guarded(P, eligible, env, e)
    requires e == NewArray(length, initializer) || e == NewList(length, initializer)
    ensures Kept(Initialize(P, eligible, fuel, env, length, initializer, e))
    decreases fuel, 1, e, 0
  {
    EvalKept(P, eligible, fuel, env, length);
    var f := Eval(P, eligible, fuel, env, initializer);
    if initializer.Local? && initializer.id in env && env[initializer.id].Marked? {
      assert f == Ok(env[initializer.id]);
    } else {
      EvalKept(P, eligible, fuel, env, initializer);
    }
    var n := Plainly(Eval(P, eligible, fuel, env, length));
    if n.Ok? && f.Ok? && fuel > 0 && n.value.Int? && n.value.n >= 0 {
      FillKept(P, eligible, fuel - 1, Unmarked(f.value), 0, n.value.n);
    }
  }

  /** An expression of no special kind guards its marked locals in all its parts. */
  lemma ChildrenGuarded(P: seq<Fun>, eligible: Eligible, env: Env, e: Expr)
    requires Guarded(P, eligible, env, e) && (e.Add? || e.Closure? || e.Tuple? || e.If? || e.Block?)
    ensures forall c | c in Children(e) :: Guarded(P, eligible, env, c)
  {
    hide Children;
  }

  lemma {:induction false} EvalKept(P: seq<Fun>, eligible: Eligible, fuel: nat, env: Env, e: Expr)
    requires Consistent(P, eligible) && Guarded(P, eligible, env, e)
    ensures Kept(Eval(P, eligible, fuel, env, e))
    decreases fuel, 1, e, 1
  {
    if e.Add? || e.Closure? || e.Tuple? || e.If? {
      ChildrenGuarded(P, eligible, env, e);
    }
    match e
    case Literal(_) =>
    case Local(_, _) =>
    case Function(_) =>
    case Call(_, _) => EvalCallKept(P, eligible, fuel, env, e);
    case Pipe(argument, piped) => EvalPipeKept(P, eligible, fuel, env, e);
    case Add(left, right) =>
      assert left in Children(e) && right in Children(e);
      EvalKept(P, eligible, fuel, env, left);
      EvalKept(P, eligible, fuel, env, right);
    case NewArray(length, initializer) => InitializeKept(P, eligible, fuel, env, length, initializer, e);
    case NewList(length, initializer) => InitializeKept(P, eligible, fuel, env, length, initializer, e);
    case Closure(_, values) => AllKept(P, eligible, fuel, env, values);
    case Tuple(elements) => AllKept(P, eligible, fuel, env, elements);
    case If(condition, thenBranch, elseBranch) =>
      assert condition in Children(e) && thenBranch in Children(e) && elseBranch in Children(e);
      EvalKept(P, eligible, fuel, env, condition);
      EvalKept(P, eligible, fuel, env, thenBranch);
      EvalKept(P, eligible, fuel, env, elseBranch);
    case Block(_, _) => BlockKept(P, eligible, fuel, env, e, 0);
  }

  lemma {:induction false} BlockKept(P: seq<Fun>, eligible: Eligible, fuel: nat, env: Env, e: Expr, i: nat)
    requires Consistent(P, eligible) && e.Block? && i <= |e.bindings| && Guarded(P, eligible, env, e)
    ensures Kept(EvalBlock(P, eligible, fuel, env, e, i))
    decreases fuel, 1, e, 0, |e.bindings| - i
  {
    assert Children(e)[|e.bindings|] == e.result;
    if i == |e.bindings| {
      EvalKept(P, eligible, fuel, env, e.result);
    } else {
      assert Children(e)[i] == e.bindings[i].1;
      EvalKept(P, eligible, fuel, env, e.bindings[i].1);
      var r := Eval(P, eligible, fuel, env, e.bindings[i].1);
      if r.Ok? {
        BlockKept(P, eligible, fuel, env[e.bindings[i].0 := r.value], e, i + 1);
      }
    }
  }

  lemma {:induction false} EvalCallKept(P: seq<Fun>, eligible: Eligible, fuel: nat, env: Env, e: Expr)
    requires e.Call? && Consistent(P, eligible) && Guarded(P, eligible, env, e)
    ensures Kept(Eval(P, eligible, fuel, env, e))
    decreases fuel, 1, e, 0
  {
    var callee, arguments := e.callee, e.arguments;
    var f := Eval(P, eligible, fuel, env, callee);
    if callee.Local? && callee.id in env && env[callee.id].Marked? {
      assert f == Ok(env[callee.id]) && callee.arity == |arguments|;
      forall x, k | x in env && env[x].Marked? && 0 <= k < |arguments|
        ensures !Is(arguments[k], x) && NonEscaping(P, eligible, arguments[k], x)
      {
        assert NonEscaping(P, eligible, e, x);
        assert !Takes(P, eligible, callee, |arguments|, k);
      }
    } else {
      EvalKept(P, eligible, fuel, env, callee);
    }
    ArgumentsKept(P, eligible, fuel, env, callee, |arguments|, 0, arguments);
    var vs := EvalAll(P, eligible, fuel, env, arguments);
    if f.Ok? && vs.Ok? && fuel > 0 {
      CallKept(P, eligible, fuel - 1, callee, f.value, vs.value);
    }
  }

  lemma {:induction false} EvalPipeKept(P: seq<Fun>, eligible: Eligible, fuel: nat, env: Env, e: Expr)
    requires e.Pipe? && Consistent(P, eligible) && Guarded(P, eligible, env, e)
    ensures Kept(Eval(P, eligible, fuel, env, e))
    decreases fuel, 1, e, 0
  {
    var argument, piped := e.argument, e.piped;
    var v, f := Eval(P, eligible, fuel, env, argument), Eval(P, eligible, fuel, env, piped);
    var marked := argument.Local? && argument.id in env && env[argument.id].Marked?;
    if marked {
      assert NonEscaping(P, eligible, e, argument.id);
      assert piped.Function?;
    } else {
      EvalKept(P, eligible, fuel, env, argument);
    }
    if piped.Local? && piped.id in env && env[piped.id].Marked? {
      assert NonEscaping(P, eligible, e, piped.id);
    } else {
      EvalKept(P, eligible, fuel, env, piped);
    }
    if v.Ok? && f.Ok? && fuel > 0 {
      CallKept(P, eligible, fuel - 1, piped, f.value, [v.value]);
    }
  }

  /** In every run, no eligible callback is stored, captured, returned, called with too few or too many
      arguments, or handed to a parameter that is not eligible. */
  lemma NothingEscapes(P: seq<Fun>, eligible: Eligible, fuel: nat, fid: nat, vs: seq<Val>)
    requires Consistent(P, eligible) && fid < |P| && CleanAll(vs)
    ensures Kept(Apply(P, eligible, fuel, Fn(fid, []), vs))
  {
    ApplyKept(P, eligible, fuel, Fn(fid, []), vs);
  }

  // ----- marking changes nothing -----

  const NOBODY: Eligible := []

  function UnmarkedAll(vs: seq<Val>): (r: seq<Val>)
    ensures |r| == |vs| && forall k | 0 <= k < |vs| :: r[k] == Unmarked(vs[k])
  {
    seq(|vs|, k requires 0 <= k < |vs| => Unmarked(vs[k]))
  }

  function UnmarkedEnv(env: Env): Env {
    map x | x in env :: Unmarked(env[x])
  }

  lemma {:induction false} FrameSame(P: seq<Fun>, eligible: Eligible, fid: nat, vs: seq<Val>, count: nat)
    requires fid < |P| && count <= |vs| == |P[fid].parameters|
    requires forall k | 0 <= k < |vs| :: Clean(Unmarked(vs[k]))
    ensures Frame(P, NOBODY, fid, UnmarkedAll(vs), count) == UnmarkedEnv(Frame(P, eligible, fid, vs, count))
    decreases count
  {
    if count > 0 {
      FrameSame(P, eligible, fid, vs, count - 1);
    }
  }

  lemma {:induction false} EnterSame(P: seq<Fun>, eligible: Eligible, fuel: nat, fid: nat, vs: seq<Val>)
    requires Consistent(P, eligible) && fid < |P| && |vs| == |P[fid].parameters|
    requires forall k | 0 <= k < |vs| ::
             if vs[k].Marked? then Clean(vs[k].callback) && k in eligible[fid] else Clean(vs[k])
    ensures Enter(P, NOBODY, fuel, fid, UnmarkedAll(vs)) == Enter(P, eligible, fuel, fid, vs)
    decreases fuel, 0, 1
  {
    if fuel > 0 {
      var env := Frame(P, eligible, fid, vs, |vs|);
      FrameGuarded(P, eligible, fid, vs, |vs|);
      FrameSame(P, eligible, fid, vs, |vs|);
      EvalSame(P, eligible, fuel - 1, env, P[fid].body);
      EvalKept(P, eligible, fuel - 1, env, P[fid].body);
    }
  }

  lemma {:induction false} ApplySame(P: seq<Fun>, eligible: Eligible, fuel: nat, f: Val, vs: seq<Val>)
    requires Consistent(P, eligible) && Clean(f) && CleanAll(vs)
    ensures Apply(P, NOBODY, fuel, f, vs) == Apply(P, eligible, fuel, f, vs)
    decreases fuel, 0, 2
  {
    if f.Fn? && f.fid < |P| {
      var all := f.bound + vs;
      var n := |P[f.fid].parameters|;
      assert CleanAll(all);
      if |all| >= n {
        var now := all[..n];
        assert UnmarkedAll(now) == now;
        EnterSame(P, eligible, fuel, f.fid, now);
        EnterKept(P, eligible, fuel, f.fid, now);
        var r := Enter(P, eligible, fuel, f.fid, now);
        if r.Ok? && |all| > n && fuel > 0 {
          ApplySame(P, eligible, fuel - 1, r.value, all[n..]);
        }
      }
    }
  }

  lemma {:induction false} FillSame(P: seq<Fun>, eligible: Eligible, fuel: nat, f: Val, k: nat, n: nat)
    requires Consistent(P, eligible) && Clean(f) && k <= n
    ensures Fill(P, NOBODY, fuel, f, k, n) == Fill(P, eligible, fuel, f, k, n)
    decreases fuel, 0, 3, n - k
  {
    if k < n {
      ApplySame(P, eligible, fuel, f, [Int(k)]);
      FillSame(P, eligible, fuel, f, k + 1, n);
    }
  }

  lemma {:induction false} CallSame(P: seq<Fun>, eligible: Eligible, fuel: nat, e: Expr, f: Val, vs: seq<Val>)
    requires Consistent(P, eligible)
    requires if f.Marked? then Clean(f.callback) && e.Local? && e.arity == |vs| else Clean(f)
    requires Handed(P, eligible, e, |vs|, 0, vs)
    ensures CallValue(P, NOBODY, fuel, e, Unmarked(f), UnmarkedAll(vs)) == CallValue(P, eligible, fuel, e, f, vs)
    decreases fuel, 0, 3
  {
    if f.Marked? {
      assert UnmarkedAll(vs) == vs;
      ApplySame(P, eligible, fuel, f.callback, vs);
    } else if e.Function? && e.fid < |P| && |vs| == |P[e.fid].parameters| {
      EnterSame(P, eligible, fuel, e.fid, vs);
    } else {
      assert UnmarkedAll(vs) == vs;
      ApplySame(P, eligible, fuel, f, vs);
    }
  }

  lemma {:induction false} ArgumentsSame(
    P: seq<Fun>, eligible: Eligible, fuel: nat, env: Env, callee: Expr, count: nat, start: nat, es: seq<Expr>)
    requires Consistent(P, eligible)
    requires forall x | x in env :: if env[x].Marked? then Clean(env[x].callback) else Clean(env[x])
    requires forall x, k | x in env && env[x].Marked? && 0 <= k < |es| ::
               if Is(es[k], x) then Takes(P, eligible, callee, count, start + k) else NonEscaping(P, eligible, es[k], x)
    ensures var r := EvalAll(P, eligible, fuel, env, es);
            EvalAll(P, NOBODY, fuel, UnmarkedEnv(env), es) == if r.Ok? then Ok(UnmarkedAll(r.value)) else r
    decreases fuel, 1, es
  {
    if es == [] {
      assert UnmarkedAll([]) == [];
    } else {
      ArgumentsSame(P, eligible, fuel, env, callee, count, start + 1, es[1..]);
      var v, r := Eval(P, eligible, fuel, env, es[0]), EvalAll(P, eligible, fuel, env, es[1..]);
      if v.Ok? && r.Ok? {
        assert UnmarkedAll([v.value] + r.value) == [Unmarked(v.value)] + UnmarkedAll(r.value);
      }
      if es[0].Local? && es[0].id in env && env[es[0].id].Marked? {
        assert Is(es[0], es[0].id);
      } else {
        assert Guarded(P, eligible, env, es[0]);
        EvalSame(P, eligible, fuel, env, es[0]);
        EvalKept(P, eligible, fuel, env, es[0]);
      }
    }
  }

  lemma {:induction false} AllSame(P: seq<Fun>, eligible: Eligible, fuel: nat, env: Env, es: seq<Expr>)
    requires Consistent(P, eligible) && forall k | 0 <= k < |es| :: Guarded(P, eligible, env, es[k])
    ensures EvalAll(P, NOBODY, fuel, UnmarkedEnv(env), es) == EvalAll(P, eligible, fuel, env, es)
    decreases fuel, 1, es
  {
    if es != [] {
      EvalSame(P, eligible, fuel, env, es[0]);
      AllSame(P, eligible, fuel, env, es[1..]);
    }
  }

  lemma {:induction false} InitializeSame(
    P: seq<Fun>, eligible: Eligible, fuel: nat, env: Env, length: Expr, initializer: Expr, e: Expr)
    requires Consistent(P, eligible) && Guarded(P, eligible, env, e)
    requires e == NewArray(length, initializer) || e == NewList(length, initializer)
    ensures Initialize(P, NOBODY, fuel, UnmarkedEnv(env), length, initializer, e)
            == Initialize(P, eligible, fuel, env, length, initializer, e)
    decreases fuel, 1, e, 0
  {
    hide Consistent, Fill, Apply, EvalBlock;
    EvalSame(P, eligible, fuel, env, length);
    EvalKept(P, eligible, fuel, env, length);
    var f := Eval(P, eligible, fuel, env, initializer);
    if initializer.Local? && initializer.id in env && env[initializer.id].Marked? {
      assert f == Ok(env[initializer.id]);
    } else {
      EvalSame(P, eligible, fuel, env, initializer);
      EvalKept(P, eligible, fuel, env, initializer);
    }
    var n := Plainly(Eval(P, eligible, fuel, env, length));
    if n.Ok? && f.Ok? && fuel > 0 && n.value.Int? && n.value.n >= 0 {
      FillSame(P, eligible, fuel - 1, Unmarked(f.value), 0, n.value.n);
    }
  }

  lemma {:induction false} EvalSame(P: seq<Fun>, eligible: Eligible, fuel: nat, env: Env, e: Expr)
    requires Consistent(P, eligible) && Guarded(P, eligible, env, e)
    ensures Eval(P, NOBODY, fuel, UnmarkedEnv(env), e) == Eval(P, eligible, fuel, env, e)
    decreases fuel, 1, e, 1
  {
    if e.Closure? || e.Tuple? {
      ChildrenGuarded(P, eligible, env, e);
    }
    match e
    case Literal(_) =>
    case Local(_, _) =>
    case Function(_) =>
    case Call(_, _) => EvalCallSame(P, eligible, fuel, env, e);
    case Pipe(_, _) => EvalPipeSame(P, eligible, fuel, env, e);
    case Add(_, _) => PartsSame(P, eligible, fuel, env, e);
    case NewArray(length, initializer) => InitializeSame(P, eligible, fuel, env, length, initializer, e);
    case NewList(length, initializer) => InitializeSame(P, eligible, fuel, env, length, initializer, e);
    case Closure(_, values) => AllSame(P, eligible, fuel, env, values);
    case Tuple(elements) => AllSame(P, eligible, fuel, env, elements);
    case If(_, _, _) => PartsSame(P, eligible, fuel, env, e);
    case Block(_, _) => BlockSame(P, eligible, fuel, env, e, 0);
  }

  lemma {:induction false} PartsSame(P: seq<Fun>, eligible: Eligible, fuel: nat, env: Env, e: Expr)
    requires Consistent(P, eligible) && Guarded(P, eligible, env, e) && (e.Add? || e.If?)
    ensures Eval(P, NOBODY, fuel, UnmarkedEnv(env), e) == Eval(P, eligible, fuel, env, e)
    decreases fuel, 1, e, 0
  {
    ChildrenGuarded(P, eligible, env, e);
    hide Guarded, NonEscaping;
    forall c | c in Children(e) ensures Eval(P, NOBODY, fuel, UnmarkedEnv(env), c) == Eval(P, eligible, fuel, env, c) {
      EvalSame(P, eligible, fuel, env, c);
    }
    if e.Add? {
      assert e.left in Children(e) && e.right in Children(e);
    } else {
      assert e.condition in Children(e) && e.thenBranch in Children(e) && e.elseBranch in Children(e);
    }
  }

  lemma {:induction false} BlockSame(P: seq<Fun>, eligible: Eligible, fuel: nat, env: Env, e: Expr, i: nat)
    requires Consistent(P, eligible) && e.Block? && i <= |e.bindings| && Guarded(P, eligible, env, e)
    ensures EvalBlock(P, NOBODY, fuel, UnmarkedEnv(env), e, i) == EvalBlock(P, eligible, fuel, env, e, i)
    decreases fuel, 1, e, 0, |e.bindings| - i
  {
    assert Children(e)[|e.bindings|] == e.result;
    if i == |e.bindings| {
      EvalSame(P, eligible, fuel, env, e.result);
    } else {
      assert Children(e)[i] == e.bindings[i].1;
      EvalSame(P, eligible, fuel, env, e.bindings[i].1);
      EvalKept(P, eligible, fuel, env, e.bindings[i].1);
      var r := Eval(P, eligible, fuel, env, e.bindings[i].1);
      if r.Ok? {
        var next := env[e.bindings[i].0 := r.value];
        assert UnmarkedEnv(next) == UnmarkedEnv(env)[e.bindings[i].0 := r.value];
        BlockSame(P, eligible, fuel, next, e, i + 1);
      }
    }
  }

  lemma {:induction false} EvalCallSame(P: seq<Fun>, eligible: Eligible, fuel: nat, env: Env, e: Expr)
    requires e.Call? && Consistent(P, eligible) && Guarded(P, eligible, env, e)
    ensures Eval(P, NOBODY, fuel, UnmarkedEnv(env), e) == Eval(P, eligible, fuel, env, e)
    decreases fuel, 1, e, 0
  {
    var callee, arguments := e.callee, e.arguments;
    var f := Eval(P, eligible, fuel, env, callee);
    if callee.Local? && callee.id in env && env[callee.id].Marked? {
      assert f == Ok(env[callee.id]) && callee.arity == |arguments|;
      forall x, k | x in env && env[x].Marked? && 0 <= k < |arguments|
        ensures !Is(arguments[k], x) && NonEscaping(P, eligible, arguments[k], x)
      {
        assert NonEscaping(P, eligible, e, x);
        assert !Takes(P, eligible, callee, |arguments|, k);
      }
    } else {
      EvalSame(P, eligible, fuel, env, callee);
      EvalKept(P, eligible, fuel, env, callee);
    }
    ArgumentsSame(P, eligible, fuel, env, callee, |arguments|, 0, arguments);
    ArgumentsKept(P, eligible, fuel, env, callee, |arguments|, 0, arguments);
    var vs := EvalAll(P, eligible, fuel, env, arguments);
    if f.Ok? && vs.Ok? && fuel > 0 {
      CallSame(P, eligible, fuel - 1, callee, f.value, vs.value);
    }
  }

  lemma {:induction false} EvalPipeSame(P: seq<Fun>, eligible: Eligible, fuel: nat, env: Env, e: Expr)
    requires e.Pipe? && Consistent(P, eligible) && Guarded(P, eligible, env, e)
    ensures Eval(P, NOBODY, fuel, UnmarkedEnv(env), e) == Eval(P, eligible, fuel, env, e)
    decreases fuel, 1, e, 0
  {
    var argument, piped := e.argument, e.piped;
    var v, f := Eval(P, eligible, fuel, env, argument), Eval(P, eligible, fuel, env, piped);
    if argument.Local? && argument.id in env && env[argument.id].Marked? {
      assert NonEscaping(P, eligible, e, argument.id);
      assert piped.Function?;
    } else {
      EvalSame(P, eligible, fuel, env, argument);
      EvalKept(P, eligible, fuel, env, argument);
    }
    if piped.Local? && piped.id in env && env[piped.id].Marked? {
      assert NonEscaping(P, eligible, e, piped.id);
    } else {
      EvalSame(P, eligible, fuel, env, piped);
      EvalKept(P, eligible, fuel, env, piped);
    }
    if v.Ok? && f.Ok? && fuel > 0 {
      CallSame(P, eligible, fuel - 1, piped, f.value, [v.value]);
      assert UnmarkedAll([v.value]) == [Unmarked(v.value)];
    }
  }

  /** A run with marks is the run without them. */
  lemma MarkingChangesNothing(P: seq<Fun>, eligible: Eligible, fuel: nat, fid: nat, vs: seq<Val>)
    requires Consistent(P, eligible) && fid < |P| && CleanAll(vs)
    ensures Apply(P, eligible, fuel, Fn(fid, []), vs) == Apply(P, NOBODY, fuel, Fn(fid, []), vs)
  {
    ApplySame(P, eligible, fuel, Fn(fid, []), vs);
  }
}

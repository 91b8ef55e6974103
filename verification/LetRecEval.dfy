/**
  A call-by-value evaluator for checked expressions, before and after lowering. A local that is
  declared mutable lives in a cell of the store; every other local is bound to its value. Fuel is
  spent only where a function body is entered, so a lowered program uses exactly as much of it.
 */
module LetRecEval {
  import opened LetRecSyntax

  /** What a name stands for. A reference points to one as well: a local that is never reassigned is
      as good as its value. */
  datatype Bind = Imm(v: Val) | Cell(loc: nat)

  datatype Val =
    | VInt(n: int)
    | VUnit
    | VRef(to: Bind, exclusive: bool)
    /** A function of the program with the leading arguments that it already has. */
    | VClosure(fid: nat, vals: seq<Val>)
    /** A lambda with the values its captures had when it was made. */
    | VLambda(lambda: Expr, captured: seq<Val>, applied: seq<Val>)
    /** A member of a `let rec` group: cheap captures are held by value from the time of binding, and all
        others by sharing the place of the local. */
    | VRec(members: seq<Binding>, index: nat, binds: seq<Bind>, applied: seq<Val>)

  type Env = map<nat, Bind>
  type Store = seq<Val>

  /** What a function of the program was made from. Evaluation does not look at it. */
  datatype Origin =
    | Original(unit: Unit)
    | FromLambda(lambda: Expr, unit: Unit)
    | FromGroup(info: Group, index: nat)

  /** What the checker knows of one function of the source program: the types of its locals, those that
      it mutates, and how many functions the program has. */
  datatype Unit = Unit(types: map<nat, Ty>, mutated: set<nat>, count: nat)

  datatype Captured = Captured(local: Local, borrowed: bool)

  datatype RecursiveFunction = RecursiveFunction(fid: nat, captures: seq<Captured>, boundIn: nat)

  datatype Group = Group(
    members: seq<Binding>,
    first: nat,
    captured: seq<Captured>,
    direct: map<nat, RecursiveFunction>,
    boundIn: nat,
    unit: Unit)

  datatype Fun = Fun(parameters: seq<Local>, body: Expr, captureCount: nat, origin: Origin)

  datatype Res<+T> = Ok(value: T, store: Store) | Timeout | Stuck

  function Read(env: Env, s: Store, x: nat): Res<Val> {
    if x !in env then Stuck
    else match env[x]
      case Imm(v) => Ok(v, s)
      case Cell(l) => if l < |s| then Ok(s[l], s) else Stuck
  }

  function Load(to: Bind, s: Store): Res<Val> {
    match to
    case Imm(v) => Ok(v, s)
    case Cell(l) => if l < |s| then Ok(s[l], s) else Stuck
  }

  function BindLocal(env: Env, s: Store, local: Local, v: Val): (r: (Env, Store)) {
    if local.mutable then (env[local.id := Cell(|s|)], s + [v])
    else (env[local.id := Imm(v)], s)
  }

  function BindAll(env: Env, s: Store, locals: seq<Local>, vals: seq<Val>): (r: (Env, Store))
    requires |locals| == |vals|
    decreases |locals|
  {
    if locals == [] then (env, s)
    else
      var (env', s') := BindLocal(env, s, locals[0], vals[0]);
      BindAll(env', s', locals[1..], vals[1..])
  }

  /** The captures of a group at the moment it is bound. */
  function CaptureBinds(env: Env, s: Store, captures: seq<Local>): Res<seq<Bind>> {
    if captures == [] then Ok([], s)
    else
      var last := captures[|captures| - 1];
      match CaptureBinds(env, s, captures[..|captures| - 1])
      case Timeout => Timeout
      case Stuck => Stuck
      case Ok(binds, _) =>
        if last.ty.Cheap() then
          match Read(env, s, last.id)
          case Ok(v, _) => Ok(binds + [Imm(v)], s)
          case Timeout => Timeout
          case Stuck => Stuck
        else if last.id in env then Ok(binds + [env[last.id]], s)
        else Stuck
  }

  /** The members of a group as function values. */
  function GroupValues(members: seq<Binding>, binds: seq<Bind>): (r: seq<Bind>)
    ensures |r| == |members|
    ensures forall k | 0 <= k < |r| :: r[k] == Imm(VRec(members, k, binds, []))
  {
    seq(|members|, k requires 0 <= k < |members| => Imm(VRec(members, k, binds, [])))
  }

  /** The names of a group bound to its members. */
  function BindGroup(env: Env, members: seq<Binding>, binds: seq<Bind>): Env {
    BindEach(env, members, GroupValues(members, binds))
  }

  /** The captures of a group bound in a member's frame. */
  function BindCaptures(env: Env, captures: seq<Local>, binds: seq<Bind>): Env
    requires |captures| == |binds|
    decreases |captures|
  {
    if captures == [] then env
    else BindCaptures(env[captures[0].id := binds[0]], captures[1..], binds[1..])
  }

  datatype Code = NoCode | Code(parameters: seq<Local>, body: Expr, base: Env, applied: seq<Val>)

  /** The code that a function value runs, with the frame it starts from. */
  function CodeOf(F: seq<Fun>, f: Val): Code {
    match f
    case VClosure(fid, vals) =>
      if fid < |F| then Code(F[fid].parameters, F[fid].body, map[], vals) else NoCode
    case VLambda(lambda, captured, applied) =>
      if lambda.Lambda? && |captured| == |lambda.captures| then
        Code(lambda.parameters, lambda.body, BindAll(map[], [], Immutables(lambda.captures), captured).0, applied)
      else NoCode
    case VRec(members, index, binds, applied) =>
      if && (forall k | 0 <= k < |members| :: members[k].value.Lambda?)
         && index < |members| && |binds| == |GroupCaptures(members)|
      then
        var frame := BindCaptures(map[], GroupCaptures(members), binds);
        Code(members[index].value.parameters, members[index].value.body,
             BindGroup(frame, members, binds), applied)
      else NoCode
    case _ => NoCode
  }

  function Immutables(locals: seq<Local>): (r: seq<Local>)
    ensures |r| == |locals|
    ensures forall k | 0 <= k < |r| :: r[k] == Immutable(locals[k])
  {
    seq(|locals|, k requires 0 <= k < |locals| => Immutable(locals[k]))
  }

  /** A function value that has more of its arguments. */
  function WithArguments(f: Val, args: seq<Val>): Val {
    match f
    case VClosure(fid, vals) => VClosure(fid, vals + args)
    case VLambda(lambda, captured, applied) => VLambda(lambda, captured, applied + args)
    case VRec(members, index, binds, applied) => VRec(members, index, binds, applied + args)
    case _ => f
  }

  function Compute(operator: Operator, left: Val, right: Val, s: Store): Res<Val> {
    if !left.VInt? || !right.VInt? then Stuck
    else match operator
      case Add => Ok(VInt(left.n + right.n), s)
      case Subtract => Ok(VInt(left.n - right.n), s)
      case Less => Ok(VInt(if left.n < right.n then 1 else 0), s)
  }

  function Write(to: Bind, v: Val, s: Store): Res<Val> {
    if to.Cell? && to.loc < |s| then Ok(VUnit, s[to.loc := v]) else Stuck
  }

  /** Calls `f`: with too few arguments it waits for the rest, with too many its result is called. */
  function Apply(F: seq<Fun>, fuel: nat, s: Store, f: Val, args: seq<Val>): Res<Val>
    decreases fuel
  {
    match CodeOf(F, f)
    case NoCode => Stuck
    case Code(parameters, body, base, applied) =>
      var all := applied + args;
      if |all| < |parameters| then Ok(WithArguments(f, args), s)
      else
        var (env, s') := BindAll(base, s, parameters, all[..|parameters|]);
        match Eval(F, fuel, env, s', body)
        case Timeout => Timeout
        case Stuck => Stuck
        case Ok(v, s'') =>
          if |all| == |parameters| then Ok(v, s'')
          else if fuel == 0 then Timeout
          else Apply(F, fuel - 1, s'', v, all[|parameters|..])
  }

  function Eval(F: seq<Fun>, fuel: nat, env: Env, s: Store, e: Expr): Res<Val>
    decreases fuel, e
  {
    match e
    case Literal(n) => Ok(VInt(n), s)
    case Var(x, _) => Read(env, s, x)
    case FunctionRef(fid) => Ok(VClosure(fid, []), s)
    case Binary(operator, left, right) => (
      match Eval(F, fuel, env, s, left)
      case Timeout => Timeout
      case Stuck => Stuck
      case Ok(a, s1) =>
        match Eval(F, fuel, env, s1, right)
        case Timeout => Timeout
        case Stuck => Stuck
        case Ok(b, s2) => Compute(operator, a, b, s2))
    case Pipe(argument, piped) => (
      match Eval(F, fuel, env, s, argument)
      case Timeout => Timeout
      case Stuck => Stuck
      case Ok(v, s1) =>
        match Eval(F, fuel, env, s1, piped)
        case Timeout => Timeout
        case Stuck => Stuck
        case Ok(f, s2) => if fuel == 0 then Timeout else Apply(F, fuel - 1, s2, f, [v]))
    case Call(callee, arguments) => (
      match Eval(F, fuel, env, s, callee)
      case Timeout => Timeout
      case Stuck => Stuck
      case Ok(f, s1) =>
        match EvalAll(F, fuel, env, s1, arguments)
        case Timeout => Timeout
        case Stuck => Stuck
        case Ok(vs, s2) => if fuel == 0 then Timeout else Apply(F, fuel - 1, s2, f, vs))
    case If(condition, thenBranch, elseBranch) => (
      match Eval(F, fuel, env, s, condition)
      case Timeout => Timeout
      case Stuck => Stuck
      case Ok(c, s1) =>
        if !c.VInt? then Stuck
        else if c.n != 0 then Eval(F, fuel, env, s1, thenBranch)
        else Eval(F, fuel, env, s1, elseBranch))
    case Lambda(_, captures, _, group, _) =>
      if group != [] then Stuck
      else (
        match ReadAll(env, s, captures)
        case Timeout => Timeout
        case Stuck => Stuck
        case Ok(vs, _) => Ok(VLambda(e, vs, []), s))
    case Closure(lifted, values, _) => (
      match EvalAll(F, fuel, env, s, values)
      case Timeout => Timeout
      case Stuck => Stuck
      case Ok(vs, s1) => Ok(VClosure(lifted, vs), s1))
    case Block(_, _) => EvalBlock(F, fuel, env, s, e, 0)
    case Assign(target, newValue) => (
      match Eval(F, fuel, env, s, newValue)
      case Timeout => Timeout
      case Stuck => Stuck
      case Ok(v, s1) =>
        match target
        case Var(x, _) => if x in env then Write(env[x], v, s1) else Stuck
        case Deref(reference) => (
          match Eval(F, fuel, env, s1, reference)
          case Timeout => Timeout
          case Stuck => Stuck
          case Ok(r, s2) => if r.VRef? && r.exclusive then Write(r.to, v, s2) else Stuck)
        case _ => Stuck)
    case Borrow(place, exclusive) => (
      match place
      case Var(x, _) =>
        if x !in env || (exclusive && env[x].Imm?) then Stuck else Ok(VRef(env[x], exclusive), s)
      case Deref(reference) => (
        match Eval(F, fuel, env, s, reference)
        case Timeout => Timeout
        case Stuck => Stuck
        case Ok(r, s1) =>
          if r.VRef? && (exclusive ==> r.exclusive) then Ok(VRef(r.to, exclusive), s1) else Stuck)
      case _ =>
        match Eval(F, fuel, env, s, place)
        case Timeout => Timeout
        case Stuck => Stuck
        case Ok(v, s1) => if exclusive then Stuck else Ok(VRef(Imm(v), false), s1))
    case Deref(reference) =>
      match Eval(F, fuel, env, s, reference)
      case Timeout => Timeout
      case Stuck => Stuck
      case Ok(r, s1) => if r.VRef? then Load(r.to, s1) else Stuck
  }

  function ReadAll(env: Env, s: Store, locals: seq<Local>): Res<seq<Val>> {
    if locals == [] then Ok([], s)
    else
      match Read(env, s, locals[0].id)
      case Timeout => Timeout
      case Stuck => Stuck
      case Ok(v, _) =>
        match ReadAll(env, s, locals[1..])
        case Timeout => Timeout
        case Stuck => Stuck
        case Ok(vs, _) => Ok([v] + vs, s)
  }

  function EvalAll(F: seq<Fun>, fuel: nat, env: Env, s: Store, es: seq<Expr>): Res<seq<Val>>
    decreases fuel, es
  {
    if es == [] then Ok([], s)
    else
      match Eval(F, fuel, env, s, es[0])
      case Timeout => Timeout
      case Stuck => Stuck
      case Ok(v, s1) =>
        match EvalAll(F, fuel, env, s1, es[1..])
        case Timeout => Timeout
        case Stuck => Stuck
        case Ok(vs, s2) => Ok([v] + vs, s2)
  }

  /** The bindings of `block` from `i` on, and then its result. A `let rec` group is bound as one. */
  function EvalBlock(F: seq<Fun>, fuel: nat, env: Env, s: Store, block: Expr, i: nat): Res<Val>
    requires block.Block? && i <= |block.bindings|
    decreases fuel, block, |block.bindings| - i
  {
    if i == |block.bindings| then Eval(F, fuel, env, s, block.result)
    else
      match GroupLen(block.bindings, i)
      case Unbound => Stuck
      case Members(count) =>
        if count == 0 then
          match Eval(F, fuel, env, s, block.bindings[i].value)
          case Timeout => Timeout
          case Stuck => Stuck
          case Ok(v, s1) =>
            var (env', s') := BindLocal(env, s1, block.bindings[i].local, v);
            EvalBlock(F, fuel, env', s', block, i + 1)
        else
          var members := block.bindings[i..i + count];
          match CaptureBinds(env, s, GroupCaptures(members))
          case Timeout => Timeout
          case Stuck => Stuck
          case Ok(binds, _) =>
            EvalBlock(F, fuel, BindGroup(env, members, binds), s, block, i + count)
  }
}

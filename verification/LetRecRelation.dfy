/**
  When a lowered expression stands for a source expression, and when a value, a frame or a store of
  the lowered program stands for one of the source program.
 */
module LetRecRelation {
  import opened LetRecSyntax
  import opened LetRecEval
  import opened LetRecLowering

  // ----- well-scoped source expressions -----

  ghost predicate DistinctIds(locals: seq<Local>) {
    forall i, j | 0 <= i < j < |locals| :: locals[i].id != locals[j].id
  }

  ghost predicate Typed(unit: Unit, local: Local) {
    local.id in unit.types && unit.types[local.id] == local.ty
  }

  /** New names: none of them is taken, and each has one type. */
  ghost predicate Fresh(unit: Unit, taken: set<nat>, locals: seq<Local>) {
    DistinctIds(locals) && forall k | 0 <= k < |locals| :: locals[k].id !in taken && Typed(unit, locals[k])
  }

  /** Captures are immutable locals of the scope. */
  ghost predicate Capturable(unit: Unit, scope: set<nat>, captures: seq<Local>) {
    forall k | 0 <= k < |captures| ::
      captures[k].id in scope && Typed(unit, captures[k]) && !captures[k].mutable
  }

  /** `taken` holds every name that an enclosing scope has bound, `scope` the names that are visible,
      and `own` those that the frame itself binds, which are the ones it may assign. */
  ghost predicate Scoped(unit: Unit, taken: set<nat>, scope: set<nat>, own: set<nat>, e: Expr)
    decreases e
  {
    match e
    case Literal(_) => true
    case Var(x, ty) => x in scope && x in unit.types && unit.types[x] == ty
    case FunctionRef(fid) => fid < unit.count
    case Binary(_, left, right) => Scoped(unit, taken, scope, own, left) && Scoped(unit, taken, scope, own, right)
    case Pipe(argument, piped) => Scoped(unit, taken, scope, own, argument) && Scoped(unit, taken, scope, own, piped)
    case Call(callee, arguments) =>
      Scoped(unit, taken, scope, own, callee) && ScopedAll(unit, taken, scope, own, arguments)
    case If(condition, thenBranch, elseBranch) =>
      && Scoped(unit, taken, scope, own, condition)
      && Scoped(unit, taken, scope, own, thenBranch)
      && Scoped(unit, taken, scope, own, elseBranch)
    case Lambda(parameters, captures, body, group, _) =>
      && group == []
      && Capturable(unit, scope, captures)
      && Fresh(unit, taken, parameters)
      && Scoped(unit, taken + IdSet(parameters), IdSet(captures) + IdSet(parameters), IdSet(parameters), body)
    case Closure(_, _, _) => false
    case Block(_, _) => ScopedBlock(unit, taken, scope, own, e, 0)
    case Assign(target, newValue) =>
      && Scoped(unit, taken, scope, own, newValue)
      && Scoped(unit, taken, scope, own, target)
      && (target.Var? ==> target.id in own)
    case Borrow(place, exclusive) =>
      Scoped(unit, taken, scope, own, place) && (exclusive && place.Var? ==> place.id in own)
    case Deref(reference) => Scoped(unit, taken, scope, own, reference)
  }

  ghost predicate ScopedAll(unit: Unit, taken: set<nat>, scope: set<nat>, own: set<nat>, es: seq<Expr>)
    decreases es
  {
    es == [] || (Scoped(unit, taken, scope, own, es[0]) && ScopedAll(unit, taken, scope, own, es[1..]))
  }

  ghost predicate ScopedBlock(unit: Unit, taken: set<nat>, scope: set<nat>, own: set<nat>, block: Expr, i: nat)
    requires block.Block? && i <= |block.bindings|
    decreases block, |block.bindings| - i, 1
  {
    if i == |block.bindings| then Scoped(unit, taken, scope, own, block.result)
    else
      var names := HeadNames(block.bindings, i);
      && ScopedHead(unit, taken, scope, own, block, i)
      && ScopedBlock(unit, taken + names, scope + names, own + names, block, i + Width(block.bindings, i))
  }

  /** The names that are bound at once at `i`. */
  function HeadNames(bindings: seq<Binding>, i: nat): set<nat>
    requires i < |bindings|
  {
    BoundIds(bindings[i..i + Width(bindings, i)])
  }

  ghost predicate ScopedHead(unit: Unit, taken: set<nat>, scope: set<nat>, own: set<nat>, block: Expr, i: nat)
    requires block.Block? && i < |block.bindings|
    decreases block, |block.bindings| - i, 0
  {
    && GroupLen(block.bindings, i).Members?
    && var count := GroupLen(block.bindings, i).count;
    if count == 0 then
      Scoped(unit, taken, scope, own, block.bindings[i].value) && Fresh(unit, taken, [block.bindings[i].local])
    else
      var members := block.bindings[i..i + count];
      && GroupHeader(unit, taken, scope, members)
      && (forall j | i <= j < i + count ::
            var lambda := block.bindings[j].value;
            Scoped(unit, taken + BoundIds(members) + IdSet(lambda.parameters),
                   IdSet(GroupCaptures(members)) + BoundIds(members) + IdSet(lambda.parameters),
                   IdSet(lambda.parameters), lambda.body))
  }

  lemma PlainName(bindings: seq<Binding>, i: nat)
    requires i < |bindings| && GroupLen(bindings, i) == Members(0)
    ensures Width(bindings, i) == 1 && HeadNames(bindings, i) == {bindings[i].local.id}
  {
    assert bindings[i..i + 1] == [bindings[i]];
  }

  // ----- unique ids -----

  /** The locals that a node binds itself. */
  function NodeBinders(e: Expr): set<nat> {
    match e
    case Lambda(parameters, _, _, _, _) => IdSet(parameters)
    case Block(bindings, _) => BoundIds(bindings)
    case _ => {}
  }

  /** The locals that `e` binds, anywhere in it. */
  ghost function Binders(e: Expr): set<nat> {
    NodeBinders(e) + (set c, x | c in Children(e) && x in Binders(c) :: x)
  }

  /** Local ids are unique within a function: no two parts of `e` bind the same one. */
  ghost predicate UniqueIds(e: Expr) {
    && (e.Block? ==> DistinctNames(e.bindings))
    && (forall c | c in Children(e) :: UniqueIds(c) && Binders(c) !! NodeBinders(e))
    && (forall i, j | 0 <= i < j < |Children(e)| :: Binders(Children(e)[i]) !! Binders(Children(e)[j]))
  }

  lemma ChildBinders(e: Expr, c: Expr)
    requires c in Children(e)
    ensures Binders(c) <= Binders(e)
    ensures UniqueIds(e) ==> UniqueIds(c)
  {
  }

  ghost predicate GroupHeader(unit: Unit, taken: set<nat>, scope: set<nat>, members: seq<Binding>)
    requires forall k | 0 <= k < |members| :: members[k].value.Lambda?
  {
    && DistinctNames(members)
    && (forall k | 0 <= k < |members| ::
          members[k].local.id !in taken && Typed(unit, members[k].local) && !members[k].local.mutable)
    && Capturable(unit, scope, GroupCaptures(members))
    && (forall k | 0 <= k < |members| :: Fresh(unit, taken + BoundIds(members), members[k].value.parameters))
  }

  // ----- expressions -----

  /** What a frame knows: the functions that a group bound in it can call directly, those that the
      frame itself calls directly, and the locals that it reads through a reference. */
  datatype Ctx = Ctx(callable: map<nat, RecursiveFunction>, direct: map<nat, RecursiveFunction>, borrowed: map<nat, Ty>)

  const NO_CTX := Ctx(map[], map[], map[])

  function GroupCtx(g: Group): Ctx {
    Ctx(g.direct, g.direct, BorrowedMap(g.captured))
  }

  function RewriteAtBinding(ctx: Ctx, c: Captured): Expr {
    var read := RewriteVar(ctx.direct, ctx.borrowed, c.local.id, c.local.ty);
    if c.borrowed then Borrow(read, false) else read
  }

  function RewriteAtBindings(ctx: Ctx, cs: seq<Captured>): (r: seq<Expr>)
    ensures |r| == |cs|
    ensures forall k | 0 <= k < |cs| :: r[k] == RewriteAtBinding(ctx, cs[k])
  {
    seq(|cs|, k requires 0 <= k < |cs| => RewriteAtBinding(ctx, cs[k]))
  }

  /** The context after a group is bound: its members are callable unless a by-value capture is mutated. */
  function AfterGroup(ctx: Ctx, g: Group): Ctx {
    if Unchanged(g.captured, g.unit.mutated)
    then ctx.(callable := GroupFunctions(ctx.callable, g.members, g.first, g.captured, g.boundIn))
    else ctx
  }

  /** A call of the directly called function `f` with the lowered arguments `es`. */
  ghost predicate IsDirectCall(f: RecursiveFunction, t: Expr, count: nat) {
    && t.Call?
    && t.callee == FunctionRef(f.fid)
    && |t.arguments| == |f.captures| + count
    && t.arguments[..|f.captures|] == InBodies(f.captures)
  }

  ghost predicate Rel(F: seq<Fun>, unit: Unit, ctx: Ctx, e: Expr, t: Expr)
    decreases e
  {
    match e
    case Literal(_) => t == e
    case Var(x, ty) => t == RewriteVar(ctx.direct, ctx.borrowed, x, ty)
    case FunctionRef(_) => t == e
    case Binary(operator, left, right) =>
      t.Binary? && t.operator == operator && Rel(F, unit, ctx, left, t.left) && Rel(F, unit, ctx, right, t.right)
    case Pipe(argument, piped) =>
      if CallsDirectly(ctx.direct, piped) then
        var f := ctx.direct[piped.id];
        IsDirectCall(f, t, 1) && Rel(F, unit, ctx, argument, t.arguments[|f.captures|])
      else t.Pipe? && Rel(F, unit, ctx, argument, t.argument) && Rel(F, unit, ctx, piped, t.piped)
    case Call(callee, arguments) =>
      if CallsDirectly(ctx.direct, callee) then
        var f := ctx.direct[callee.id];
        IsDirectCall(f, t, |arguments|) && RelAll(F, unit, ctx, arguments, t.arguments[|f.captures|..])
      else t.Call? && Rel(F, unit, ctx, callee, t.callee) && RelAll(F, unit, ctx, arguments, t.arguments)
    case If(condition, thenBranch, elseBranch) =>
      && t.If?
      && Rel(F, unit, ctx, condition, t.condition)
      && Rel(F, unit, ctx, thenBranch, t.thenBranch)
      && Rel(F, unit, ctx, elseBranch, t.elseBranch)
    case Lambda(_, captures, _, group, _) =>
      && group == []
      && t.Closure?
      && t.lifted < |F|
      && F[t.lifted].origin == FromLambda(e, unit)
      && t.closureTy == e.lambdaTy
      && |t.values| == |captures|
      && (forall k | 0 <= k < |captures| ::
            t.values[k] == RewriteVar(ctx.direct, ctx.borrowed, captures[k].id, captures[k].ty))
    case Closure(_, _, _) => false
    case Block(bindings, _) => t.Block? && |t.bindings| == |bindings| && RelBlock(F, unit, ctx, e, t, 0)
    case Assign(target, newValue) =>
      t.Assign? && Rel(F, unit, ctx, target, t.target) && Rel(F, unit, ctx, newValue, t.newValue)
    case Borrow(place, exclusive) => t.Borrow? && t.exclusive == exclusive && Rel(F, unit, ctx, place, t.place)
    case Deref(reference) => t.Deref? && Rel(F, unit, ctx, reference, t.reference)
  }

  ghost predicate RelAll(F: seq<Fun>, unit: Unit, ctx: Ctx, es: seq<Expr>, ts: seq<Expr>)
    decreases es
  {
    && |es| == |ts|
    && (es == [] || (Rel(F, unit, ctx, es[0], ts[0]) && RelAll(F, unit, ctx, es[1..], ts[1..])))
  }

  ghost predicate RelBlock(F: seq<Fun>, unit: Unit, ctx: Ctx, e: Expr, t: Expr, i: nat)
    requires e.Block? && t.Block? && |t.bindings| == |e.bindings| && i <= |e.bindings|
    decreases e, |e.bindings| - i, 1
  {
    if i == |e.bindings| then Rel(F, unit, ctx, e.result, t.result)
    else
      && RelHead(F, unit, ctx, e, t, i)
      && RelBlock(F, unit, CtxAfter(F, ctx, e, t, i), e, t, i + Width(e.bindings, i))
  }

  /** The binding at `i`, or the group that starts there. */
  ghost predicate RelHead(F: seq<Fun>, unit: Unit, ctx: Ctx, e: Expr, t: Expr, i: nat)
    requires e.Block? && t.Block? && |t.bindings| == |e.bindings| && i < |e.bindings|
    decreases e, |e.bindings| - i, 0
  {
    && GroupLen(e.bindings, i).Members?
    && var count := GroupLen(e.bindings, i).count;
    if count == 0 then
      t.bindings[i].local == e.bindings[i].local && Rel(F, unit, ctx, e.bindings[i].value, t.bindings[i].value)
    else
      RelGroup(F, unit, ctx, e.bindings[i..i + count], t.bindings[i..i + count])
  }

  /** How many bindings of a block are bound at once at `i`. */
  function Width(bindings: seq<Binding>, i: nat): (width: nat)
    requires i < |bindings|
    ensures 0 < width && i + width <= |bindings|
  {
    match GroupLen(bindings, i)
    case Unbound => 1
    case Members(count) => if count == 0 then 1 else count
  }

  /** What the frame knows after the bindings that start at `i`. */
  ghost function CtxAfter(F: seq<Fun>, ctx: Ctx, e: Expr, t: Expr, i: nat): Ctx
    requires e.Block? && t.Block? && |t.bindings| == |e.bindings| && i < |e.bindings|
  {
    if GroupLen(e.bindings, i) == Members(0) then ctx
    else
      var closure := t.bindings[i].value;
      if closure.Closure? && closure.lifted < |F| && F[closure.lifted].origin.FromGroup?
      then AfterGroup(ctx, F[closure.lifted].origin.info) else ctx
  }

  /** The bindings of a group became closures of functions that were made from it. */
  ghost predicate RelGroup(F: seq<Fun>, unit: Unit, ctx: Ctx, members: seq<Binding>, closures: seq<Binding>)
    requires |members| == |closures| > 0
    requires forall k | 0 <= k < |members| :: members[k].value.Lambda?
  {
    && closures[0].value.Closure?
    && closures[0].value.lifted < |F|
    && F[closures[0].value.lifted].origin.FromGroup?
    && var g := F[closures[0].value.lifted].origin.info;
    && g == GroupOf(members, closures[0].value.lifted, ctx.callable, g.boundIn, unit)
    && (forall j | 0 <= j < |members| :: ClosureFor(F, ctx, g, members[j], closures[j], j))
  }

  /** The binding of the member `j` became a closure of the function that was made from it. */
  ghost predicate ClosureFor(F: seq<Fun>, ctx: Ctx, g: Group, member: Binding, closure: Binding, j: nat)
    requires member.value.Lambda?
  {
    && g.first + j < |F|
    && F[g.first + j].origin == FromGroup(g, j)
    && closure == Binding(member.local, Closure(g.first + j, RewriteAtBindings(ctx, g.captured), member.value.lambdaTy))
  }

  // ----- values -----

  /** The index of the capture of `x`, or the number of captures. */
  function Position(captured: seq<Captured>, x: nat): (p: nat)
    ensures p <= |captured|
    ensures p < |captured| ==> captured[p].local.id == x
    ensures p == |captured| ==> forall k | 0 <= k < |captured| :: captured[k].local.id != x
  {
    if captured == [] then 0
    else if captured[|captured| - 1].local.id == x then |captured| - 1
    else
      var p := Position(captured[..|captured| - 1], x);
      if p == |captured| - 1 then |captured| else p
  }

  /** The values of the captures `wanted` among the values `vals` of the captures `captured`. */
  ghost predicate Offers(captured: seq<Captured>, wanted: seq<Captured>) {
    forall k | 0 <= k < |wanted| :: Position(captured, wanted[k].local.id) < |captured|
  }

  function Select(captured: seq<Captured>, vals: seq<Val>, wanted: seq<Captured>): (r: seq<Val>)
    requires |captured| <= |vals| && Offers(captured, wanted)
    ensures |r| == |wanted|
    ensures forall k | 0 <= k < |r| :: r[k] == vals[Position(captured, wanted[k].local.id)]
  {
    seq(|wanted|, k requires 0 <= k < |wanted| => vals[Position(captured, wanted[k].local.id)])
  }

  /** A borrowed capture is a shared reference. */
  ghost predicate References(captured: seq<Captured>, vals: seq<Val>) {
    |captured| <= |vals| &&
    forall p | 0 <= p < |captured| && captured[p].borrowed :: vals[p].VRef? && !vals[p].exclusive
  }

  ghost predicate BindRel(F: seq<Fun>, b: Bind, b': Bind)
    decreases b, 0
  {
    match b
    case Imm(v) => b'.Imm? && ValRel(F, v, b'.v)
    case Cell(l) => b' == b
  }

  ghost predicate ValRel(F: seq<Fun>, v: Val, v': Val)
    decreases v
  {
    match v
    case VInt(_) => v' == v
    case VUnit => v' == v
    case VRef(to, exclusive) => v'.VRef? && v'.exclusive == exclusive && BindRel(F, to, v'.to)
    case VClosure(fid, vals) =>
      && v'.VClosure? && v'.fid == fid && fid < |F| && F[fid].origin.Original?
      && |v'.vals| == |vals|
      && (forall k | 0 <= k < |vals| :: ValRel(F, vals[k], v'.vals[k]))
    case VLambda(lambda, captured, applied) =>
      && v'.VClosure? && v'.fid < |F|
      && F[v'.fid].origin.FromLambda? && F[v'.fid].origin.lambda == lambda
      && lambda.Lambda? && |captured| == |lambda.captures|
      && |v'.vals| == |captured| + |applied|
      && (forall k | 0 <= k < |captured| :: ValRel(F, captured[k], v'.vals[k]))
      && (forall k | 0 <= k < |applied| :: ValRel(F, applied[k], v'.vals[|captured| + k]))
    case VRec(members, index, binds, applied) =>
      && v'.VClosure? && v'.fid < |F|
      && F[v'.fid].origin.FromGroup? && F[v'.fid].origin.index == index
      && var g := F[v'.fid].origin.info;
      && g.members == members && index < |members| && v'.fid == g.first + index
      && (forall k | 0 <= k < |members| :: members[k].value.Lambda?)
      && |binds| == |GroupCaptures(members)|
      && |v'.vals| == |g.captured| + |applied|
      && (forall k | 0 <= k < |applied| :: ValRel(F, applied[k], v'.vals[|g.captured| + k]))
      && References(g.captured, v'.vals)
      && (forall k {:trigger CaptureRel(F, g, GroupCaptures(members)[k].id, binds[k], v'.vals)} | 0 <= k < |binds| ::
            CaptureRel(F, g, GroupCaptures(members)[k].id, binds[k], v'.vals))
  }

  /** What a closure of the group `g` holds for the capture `x`, which the source binds to `b`: the captures
      of a function that is called directly, a shared reference, or the value. */
  ghost predicate CaptureRel(F: seq<Fun>, g: Group, x: nat, b: Bind, vals: seq<Val>)
    decreases b, 1
  {
    && |g.captured| <= |vals|
    && (if x in g.direct then
          && b.Imm?
          && Offers(g.captured, g.direct[x].captures)
          && ValRel(F, b.v, VClosure(g.direct[x].fid, Select(g.captured, vals, g.direct[x].captures)))
        else
          var p := Position(g.captured, x);
          && p < |g.captured|
          && (if g.captured[p].borrowed
              then vals[p].VRef? && !vals[p].exclusive && BindRel(F, b, vals[p].to)
              else b.Imm? && ValRel(F, b.v, vals[p])))
  }

  ghost predicate StoreRel(F: seq<Fun>, s: Store, s': Store) {
    |s| == |s'| && forall l | 0 <= l < |s| :: ValRel(F, s[l], s'[l])
  }

  ghost predicate ValsRel(F: seq<Fun>, vs: seq<Val>, vs': seq<Val>) {
    |vs| == |vs'| && forall k | 0 <= k < |vs| :: ValRel(F, vs[k], vs'[k])
  }

  ghost predicate ResRel(F: seq<Fun>, r: Res<Val>, r': Res<Val>) {
    match r
    case Timeout => r'.Timeout?
    case Stuck => r'.Stuck?
    case Ok(v, s) => r'.Ok? && ValRel(F, v, r'.value) && StoreRel(F, s, r'.store)
  }

  ghost predicate ResAllRel(F: seq<Fun>, r: Res<seq<Val>>, r': Res<seq<Val>>) {
    match r
    case Timeout => r'.Timeout?
    case Stuck => r'.Stuck?
    case Ok(vs, s) => r'.Ok? && ValsRel(F, vs, r'.value) && StoreRel(F, s, r'.store)
  }

  // ----- programs -----

  /** A capture as lowering makes it: the local with its one type, borrowed unless it is cheap to copy. */
  ghost predicate CapturedOk(unit: Unit, c: Captured) {
    Typed(unit, c.local) && !c.local.mutable && c.borrowed == !c.local.ty.Cheap()
  }

  /** The captures of a function that can be called directly are at hand: they are no functions of that
      kind themselves, the frame that calls it holds references to those it borrows, and where the
      function was bound none of those it takes by value is ever mutated. */
  ghost predicate CallableOk(unit: Unit, ctx: Ctx, taken: set<nat>, x: nat)
    requires x in ctx.callable
  {
    var captures := ctx.callable[x].captures;
    && (forall k | 0 <= k < |captures| ::
          && CapturedOk(unit, captures[k])
          && captures[k].local.id in taken
          && captures[k].local.id !in ctx.callable
          && (x in ctx.direct && captures[k].borrowed ==> captures[k].local.id in ctx.borrowed))
    && (x !in ctx.direct ==> Unchanged(captures, unit.mutated))
  }

  ghost predicate CtxOk(unit: Unit, ctx: Ctx, taken: set<nat>, own: set<nat>) {
    && (forall x | x in ctx.direct :: x in ctx.callable && ctx.callable[x] == ctx.direct[x] && x !in own)
    && (forall x | x in ctx.callable :: x in taken && CallableOk(unit, ctx, taken, x))
    && (forall x | x in ctx.borrowed ::
          x in taken && x !in own && x in unit.types && unit.types[x] == ctx.borrowed[x] && !ctx.borrowed[x].Cheap())
  }

  ghost predicate LambdaOk(unit: Unit, lambda: Expr, taken: set<nat>) {
    && lambda.Lambda?
    && Capturable(unit, taken, lambda.captures)
    && Fresh(unit, taken, lambda.parameters)
    && Scoped(unit, taken + IdSet(lambda.parameters), IdSet(lambda.captures) + IdSet(lambda.parameters),
              IdSet(lambda.parameters), lambda.body)
    && OnlyMutates(unit.mutated, lambda.body)
  }

  ghost predicate GroupOk(g: Group, taken: set<nat>) {
    && (forall k | 0 <= k < |g.members| :: g.members[k].value.Lambda?)
    && var names := BoundIds(g.members);
    && CtxOk(g.unit, GroupCtx(g), taken + names, {})
    && (forall j | 0 <= j < |g.members| ::
          && g.members[j].local.id in g.direct
          && g.direct[g.members[j].local.id] == RecursiveFunction(g.first + j, g.captured, g.boundIn))
    && (forall k | 0 <= k < |g.captured| :: CapturedOk(g.unit, g.captured[k]) && g.captured[k].local.id in taken)
    && DistinctIds(CapturedLocals(g.captured))
    && DistinctNames(g.members)
    && (forall x | x in g.direct :: Offers(g.captured, g.direct[x].captures))
    && (forall x | x in g.direct :: x in names || x in IdSet(GroupCaptures(g.members)))
    && (forall k | 0 <= k < |GroupCaptures(g.members)| ::
          var x := GroupCaptures(g.members)[k].id;
          x in taken && (x !in g.direct ==> Position(g.captured, x) < |g.captured|))
    && (forall j | 0 <= j < |g.members| :: MemberOk(g, taken, j))
  }

  ghost predicate MemberOk(g: Group, taken: set<nat>, j: nat)
    requires j < |g.members|
    requires forall k | 0 <= k < |g.members| :: g.members[k].value.Lambda?
  {
    var names := BoundIds(g.members);
    var lambda := g.members[j].value;
    && Fresh(g.unit, taken + names, lambda.parameters)
    && Scoped(g.unit, taken + names + IdSet(lambda.parameters),
              IdSet(GroupCaptures(g.members)) + names + IdSet(lambda.parameters), IdSet(lambda.parameters), lambda.body)
    && OnlyMutates(g.unit.mutated, lambda.body)
  }

  /** All members of a group were lifted together. */
  ghost predicate GroupLifted(F: seq<Fun>, g: Group) {
    forall j | 0 <= j < |g.members| :: LiftedAs(F, g, j)
  }

  ghost predicate LiftedAs(F: seq<Fun>, g: Group, j: nat) {
    g.first + j < |F| && F[g.first + j].origin == FromGroup(g, j)
  }

  /** `f` is the lifted function of the group member named `x`, and takes what the group captured first. */
  ghost predicate Lifts(F: seq<Fun>, x: nat, f: RecursiveFunction) {
    && f.fid < |F| && F[f.fid].origin.FromGroup?
    && var g, j := F[f.fid].origin.info, F[f.fid].origin.index;
    && j < |g.members| && g.members[j].local.id == x && g.members[j].value.Lambda?
    && f.captures == g.captured
    && F[f.fid].parameters == Parameters(g.captured) + g.members[j].value.parameters
    && F[f.fid].captureCount == |g.captured|
  }

  ghost predicate AllLift(F: seq<Fun>, callable: map<nat, RecursiveFunction>) {
    forall x | x in callable :: Lifts(F, x, callable[x])
  }

  /** The function `fid` of the lowered program `F` was made from the source program `P`. */
  ghost predicate FunOk(P: seq<Fun>, F: seq<Fun>, fid: nat)
    requires fid < |F|
  {
    match F[fid].origin
    case Original(unit) =>
      && fid < |P| && P[fid].origin == F[fid].origin && unit.count == |P|
      && F[fid].parameters == P[fid].parameters && F[fid].captureCount == 0
      && Fresh(unit, {}, P[fid].parameters)
      && Scoped(unit, IdSet(P[fid].parameters), IdSet(P[fid].parameters), IdSet(P[fid].parameters), P[fid].body)
      && OnlyMutates(unit.mutated, P[fid].body)
      && Rel(F, unit, NO_CTX, P[fid].body, F[fid].body)
    case FromLambda(lambda, unit) =>
      && unit.count == |P|
      && (exists taken :: LambdaOk(unit, lambda, taken))
      && F[fid].parameters == lambda.captures + lambda.parameters
      && F[fid].captureCount == |lambda.captures|
      && Rel(F, unit, NO_CTX, lambda.body, F[fid].body)
    case FromGroup(g, index) =>
      && g.unit.count == |P|
      && (exists taken :: GroupOk(g, taken))
      && GroupLifted(F, g)
      && AllLift(F, g.direct)
      && index < |g.members| && fid == g.first + index
      && F[fid].parameters == Parameters(g.captured) + g.members[index].value.parameters
      && F[fid].captureCount == |g.captured|
      && Rel(F, g.unit, GroupCtx(g), g.members[index].value.body, F[fid].body)
  }

  ghost predicate ProgOk(P: seq<Fun>, F: seq<Fun>) {
    && |P| <= |F|
    && (forall fid | 0 <= fid < |P| :: F[fid].origin.Original?)
    && (forall fid | 0 <= fid < |F| :: FunOk(P, F, fid))
  }
}

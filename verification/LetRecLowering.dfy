/**
  Closure lowering. Lambdas turn into functions of the program, with leading parameters for what they
  capture. So do the members of a `let rec` group; a body of the group calls them without a closure,
  and so does a later group that has their captures at hand.
 */
module LetRecLowering {
  import opened LetRecSyntax
  import opened LetRecEval

  // ----- captures -----

  function NewCaptured(local: Local): Captured {
    Captured(local, !local.ty.Cheap())
  }

  /** How a capture is declared by a function that was lifted: a borrowed one has reference type. */
  function Parameter(c: Captured): Local {
    if c.borrowed then c.local.(ty := Reference(c.local.ty, false)) else c.local
  }

  /** The expression for a capture in the frame that binds the group. */
  function AtBinding(c: Captured): Expr {
    if c.borrowed then Borrow(Var(c.local.id, c.local.ty), false) else Var(c.local.id, c.local.ty)
  }

  /** The same inside a member, where the capture is a parameter. */
  function InBody(c: Captured): Expr {
    Var(c.local.id, Parameter(c).ty)
  }

  function Parameters(cs: seq<Captured>): (r: seq<Local>)
    ensures |r| == |cs|
    ensures forall k | 0 <= k < |cs| :: r[k] == Parameter(cs[k])
  {
    seq(|cs|, k requires 0 <= k < |cs| => Parameter(cs[k]))
  }

  function AtBindings(cs: seq<Captured>): (r: seq<Expr>)
    ensures |r| == |cs|
    ensures forall k | 0 <= k < |cs| :: r[k] == AtBinding(cs[k])
  {
    seq(|cs|, k requires 0 <= k < |cs| => AtBinding(cs[k]))
  }

  function InBodies(cs: seq<Captured>): (r: seq<Expr>)
    ensures |r| == |cs|
    ensures forall k | 0 <= k < |cs| :: r[k] == InBody(cs[k])
  {
    seq(|cs|, k requires 0 <= k < |cs| => InBody(cs[k]))
  }

  function LocalValues(locals: seq<Local>): (r: seq<Expr>)
    ensures |r| == |locals|
    ensures forall k | 0 <= k < |locals| :: r[k] == Var(locals[k].id, locals[k].ty)
  {
    seq(|locals|, k requires 0 <= k < |locals| => Var(locals[k].id, locals[k].ty))
  }

  function CapturedLocals(cs: seq<Captured>): (r: seq<Local>)
    ensures |r| == |cs|
    ensures forall k | 0 <= k < |cs| :: r[k] == cs[k].local
  {
    seq(|cs|, k requires 0 <= k < |cs| => cs[k].local)
  }

  // ----- the union of captures, an ordered map from local id to local -----

  ghost predicate Ordered(locals: seq<Local>) {
    forall i, j | 0 <= i < j < |locals| :: locals[i].id < locals[j].id
  }

  /** Adds a local that the map does not have yet, and keeps the one it has. */
  function OrInsert(shared: seq<Local>, local: Local): (r: seq<Local>) {
    if shared == [] then [local]
    else
      var last := shared[|shared| - 1];
      if last.id < local.id then shared + [local]
      else if last.id == local.id then shared
      else OrInsert(shared[..|shared| - 1], local) + [last]
  }

  lemma {:induction false} OrInsertIds(shared: seq<Local>, local: Local)
    ensures IdSet(OrInsert(shared, local)) == IdSet(shared) + {local.id}
  {
    if shared == [] {
      IdSetAppend([], local);
      assert [] + [local] == [local];
    } else {
      var last := shared[|shared| - 1];
      var front := shared[..|shared| - 1];
      assert shared == front + [last];
      IdSetAppend(front, last);
      if last.id < local.id {
        IdSetAppend(shared, local);
      } else if last.id > local.id {
        OrInsertIds(front, local);
        IdSetAppend(OrInsert(front, local), last);
      }
    }
  }

  lemma {:induction false} OrInsertOrdered(shared: seq<Local>, local: Local)
    requires Ordered(shared)
    ensures Ordered(OrInsert(shared, local))
  {
    if shared != [] {
      var last := shared[|shared| - 1];
      var front := shared[..|shared| - 1];
      if last.id > local.id {
        OrInsertOrdered(front, local);
        OrInsertIds(front, local);
        var r := OrInsert(front, local);
        forall k | 0 <= k < |r| ensures r[k].id < last.id {
          assert r[k].id in IdSet(r);
        }
      }
    }
  }

  lemma {:induction false} OrInsertFrom(shared: seq<Local>, local: Local)
    ensures forall x | x in OrInsert(shared, local) :: x in shared || x == local
  {
    if shared != [] && shared[|shared| - 1].id > local.id {
      OrInsertFrom(shared[..|shared| - 1], local);
    }
  }

  function OrInsertAll(shared: seq<Local>, locals: seq<Local>): (r: seq<Local>) {
    if locals == [] then shared
    else OrInsert(OrInsertAll(shared, locals[..|locals| - 1]), locals[|locals| - 1])
  }

  lemma {:induction false} OrInsertAllIds(shared: seq<Local>, locals: seq<Local>)
    ensures IdSet(OrInsertAll(shared, locals)) == IdSet(shared) + IdSet(locals)
    ensures Ordered(shared) ==> Ordered(OrInsertAll(shared, locals))
    ensures forall x | x in OrInsertAll(shared, locals) :: x in shared || x in locals
  {
    if locals != [] {
      var front, last := locals[..|locals| - 1], locals[|locals| - 1];
      assert locals == front + [last];
      IdSetAppend(front, last);
      OrInsertAllIds(shared, front);
      OrInsertIds(OrInsertAll(shared, front), last);
      OrInsertFrom(OrInsertAll(shared, front), last);
      if Ordered(shared) {
        OrInsertOrdered(OrInsertAll(shared, front), last);
      }
    }
  }

  /** The captures that a group shares: a capture that can be called directly stands for its own
      captures, and any other capture for itself. */
  function Shared(captures: seq<Local>, callable: map<nat, RecursiveFunction>): (r: seq<Local>) {
    if captures == [] then []
    else
      var last := captures[|captures| - 1];
      var shared := Shared(captures[..|captures| - 1], callable);
      if last.id in callable then OrInsertAll(shared, CapturedLocals(callable[last.id].captures))
      else OrInsert(shared, last)
  }

  function NewCaptures(locals: seq<Local>): (r: seq<Captured>)
    ensures |r| == |locals|
    ensures forall k | 0 <= k < |r| :: r[k] == NewCaptured(locals[k])
  {
    seq(|locals|, k requires 0 <= k < |locals| => NewCaptured(locals[k]))
  }

  // ----- state -----

  datatype Frame = Frame(id: nat, direct: set<nat>)

  datatype State = State(
    functions: seq<Fun>,
    recursive: map<nat, RecursiveFunction>,
    frame: Frame,
    frames: nat,
    mutated: set<nat>,
    unit: Unit)

  predicate Unchanged(captures: seq<Captured>, mutated: set<nat>) {
    forall k | 0 <= k < |captures| :: captures[k].borrowed || captures[k].local.id !in mutated
  }

  /** Which earlier members can be called without a closure, if a group is bound here and now. */
  function Callable(st: State): map<nat, RecursiveFunction> {
    map id | id in st.recursive &&
             (id in st.frame.direct ||
              (st.recursive[id].boundIn == st.frame.id && Unchanged(st.recursive[id].captures, st.mutated)))
      :: st.recursive[id]
  }

  function EnterFrame(st: State, direct: set<nat>): State {
    st.(frames := st.frames + 1, frame := Frame(st.frames + 1, direct))
  }

  datatype Diagnostic = RecGroupUnbound | RecNotBoundByBlock

  datatype Outcome<+T> = Lowered(value: T, state: State) | Failed(diagnostic: Diagnostic) {
    predicate IsFailure() { Failed? }
    function PropagateFailure<U>(): Outcome<U> requires Failed? { Failed(diagnostic) }
    function Extract(): (T, State) requires Lowered? { (value, state) }
  }

  // ----- what a function mutates -----

  /** The local at the root of a place. */
  function Root(place: Expr): set<nat> {
    match place
    case Var(id, _) => {id}
    case Deref(inner) => Root(inner)
    case Borrow(inner, _) => Root(inner)
    case _ => {}
  }

  /** The locals that one node assigns or borrows exclusively. */
  function NodeRoots(e: Expr): set<nat> {
    match e
    case Assign(target, _) => Root(target)
    case Borrow(place, true) => Root(place)
    case _ => {}
  }

  function Children(e: Expr): (r: seq<Expr>)
    ensures forall c | c in r :: c < e
  {
    match e
    case Literal(_) => []
    case Var(_, _) => []
    case FunctionRef(_) => []
    case Binary(_, left, right) => [left, right]
    case Pipe(argument, piped) => [argument, piped]
    case Call(callee, arguments) => [callee] + arguments
    case If(condition, thenBranch, elseBranch) => [condition, thenBranch, elseBranch]
    case Lambda(_, _, body, _, _) => [body]
    case Closure(_, values, _) => values
    case Block(bindings, result) =>
      seq(|bindings|, k requires 0 <= k < |bindings| => bindings[k].value) + [result]
    case Assign(target, newValue) => [target, newValue]
    case Borrow(place, _) => [place]
    case Deref(reference) => [reference]
  }

  /** The locals that `e` assigns or borrows exclusively, anywhere in it. */
  function MutatedIn(e: Expr): set<nat> {
    NodeRoots(e) + (set c, x | c in Children(e) && x in MutatedIn(c) :: x)
  }

  /** Whether `e` assigns and exclusively borrows only locals of `mutated`. */
  ghost predicate OnlyMutates(mutated: set<nat>, e: Expr)
    decreases e
  {
    NodeRoots(e) <= mutated && forall c | c in Children(e) :: OnlyMutates(mutated, c)
  }

  /** Whether `e` binds a `let rec` group, anywhere in it. */
  predicate HasGroup(e: Expr) {
    IsRecursive(e) || exists c | c in Children(e) :: HasGroup(c)
  }

  // ----- rewriting a lifted body -----

  function DirectMap(recursive: map<nat, RecursiveFunction>, direct: set<nat>): map<nat, RecursiveFunction> {
    map id | id in recursive && id in direct :: recursive[id]
  }

  function BorrowedMap(captured: seq<Captured>): map<nat, Ty> {
    if captured == [] then map[]
    else
      var last := captured[|captured| - 1];
      var front := BorrowedMap(captured[..|captured| - 1]);
      if last.borrowed then front[last.local.id := last.local.ty] else front
  }

  /** A name in the body of a member: a member's name is a closure of its function, and a borrowed capture is
      dereferenced. */
  function RewriteVar(direct: map<nat, RecursiveFunction>, borrowed: map<nat, Ty>, id: nat, ty: Ty): Expr {
    if id in direct then Closure(direct[id].fid, InBodies(direct[id].captures), ty)
    else if id in borrowed && borrowed[id] == ty then Deref(Var(id, Reference(ty, false)))
    else Var(id, ty)
  }

  predicate CallsDirectly(direct: map<nat, RecursiveFunction>, callee: Expr) {
    callee.Var? && callee.id in direct
  }

  function DirectCall(f: RecursiveFunction, arguments: seq<Expr>): Expr {
    Call(FunctionRef(f.fid), InBodies(f.captures) + arguments)
  }

  function Rewrite(direct: map<nat, RecursiveFunction>, borrowed: map<nat, Ty>, e: Expr): Expr
    decreases e
  {
    match e
    case Literal(_) => e
    case Var(id, ty) => RewriteVar(direct, borrowed, id, ty)
    case FunctionRef(_) => e
    case Binary(operator, left, right) =>
      Binary(operator, Rewrite(direct, borrowed, left), Rewrite(direct, borrowed, right))
    case Pipe(argument, piped) =>
      if CallsDirectly(direct, piped) then
        DirectCall(direct[piped.id], [Rewrite(direct, borrowed, argument)])
      else Pipe(Rewrite(direct, borrowed, argument), Rewrite(direct, borrowed, piped))
    case Call(callee, arguments) =>
      if CallsDirectly(direct, callee) then
        DirectCall(direct[callee.id], RewriteAll(direct, borrowed, arguments))
      else Call(Rewrite(direct, borrowed, callee), RewriteAll(direct, borrowed, arguments))
    case If(condition, thenBranch, elseBranch) =>
      If(Rewrite(direct, borrowed, condition), Rewrite(direct, borrowed, thenBranch),
         Rewrite(direct, borrowed, elseBranch))
    case Lambda(_, _, body, _, _) => e.(body := Rewrite(direct, borrowed, body))
    case Closure(lifted, values, ty) => Closure(lifted, RewriteAll(direct, borrowed, values), ty)
    case Block(bindings, result) =>
      Block(seq(|bindings|, k requires 0 <= k < |bindings| =>
                  Binding(bindings[k].local, Rewrite(direct, borrowed, bindings[k].value))),
            Rewrite(direct, borrowed, result))
    case Assign(target, newValue) =>
      Assign(Rewrite(direct, borrowed, target), Rewrite(direct, borrowed, newValue))
    case Borrow(place, exclusive) => Borrow(Rewrite(direct, borrowed, place), exclusive)
    case Deref(reference) => Deref(Rewrite(direct, borrowed, reference))
  }

  function RewriteAll(direct: map<nat, RecursiveFunction>, borrowed: map<nat, Ty>, es: seq<Expr>): (r: seq<Expr>)
    ensures |r| == |es|
    ensures forall k | 0 <= k < |es| :: r[k] == Rewrite(direct, borrowed, es[k])
    decreases es
  {
    seq(|es|, k requires 0 <= k < |es| => Rewrite(direct, borrowed, es[k]))
  }

  // ----- lowering -----

  /** What a group is lifted to, given the functions that it can call directly. */
  function GroupOf(members: seq<Binding>, first: nat, callable: map<nat, RecursiveFunction>, boundIn: nat, unit: Unit)
    : (group: Group)
    requires forall k | 0 <= k < |members| :: members[k].value.Lambda?
    ensures group.members == members && group.first == first && group.boundIn == boundIn && group.unit == unit
  {
    var captures := GroupCaptures(members);
    var captured := NewCaptures(Shared(captures, callable));
    Group(members, first, captured, GroupFunctions(TakenOver(captures, callable), members, first, captured, boundIn),
          boundIn, unit)
  }

  /** The captures that the group calls directly and whose captures it takes over. */
  function TakenOver(captures: seq<Local>, callable: map<nat, RecursiveFunction>): map<nat, RecursiveFunction> {
    map x | x in callable && x in IdSet(captures) :: callable[x]
  }

  /** What the members of a group are lifted to. */
  function LiftedFunctions(count: nat, first: nat, captured: seq<Captured>, boundIn: nat): (r: seq<RecursiveFunction>)
    ensures |r| == count
    ensures forall k | 0 <= k < |r| :: r[k] == RecursiveFunction(first + k, captured, boundIn)
  {
    seq(count, k requires 0 <= k < count => RecursiveFunction(first + k, captured, boundIn))
  }

  /** The known `let rec` functions with the members of a group among them. */
  function GroupFunctions(
    known: map<nat, RecursiveFunction>, members: seq<Binding>, first: nat, captured: seq<Captured>, boundIn: nat)
    : (r: map<nat, RecursiveFunction>)
  {
    BindEach(known, members, LiftedFunctions(|members|, first, captured, boundIn))
  }

  /** The lifted function of the member `index` of a group, with its body still to come. */
  function LiftedMember(group: Group, index: nat, body: Expr): Fun
    requires index < |group.members| && group.members[index].value.Lambda?
  {
    Fun(Parameters(group.captured) + group.members[index].value.parameters, body,
        |group.captured|, FromGroup(group, index))
  }

  function Reserved(group: Group): (r: seq<Fun>)
    requires forall k | 0 <= k < |group.members| :: group.members[k].value.Lambda?
    ensures |r| == |group.members|
  {
    seq(|group.members|, k requires 0 <= k < |group.members| => LiftedMember(group, k, Literal(0)))
  }

  function LowerExpr(e: Expr, st: State): Outcome<Expr>
    decreases e
  {
    match e
    case Literal(_) => Lowered(e, st)
    case Var(_, _) => Lowered(e, st)
    case FunctionRef(_) => Lowered(e, st)
    case Binary(operator, left, right) =>
      var (left', st1) :- LowerExpr(left, st);
      var (right', st2) :- LowerExpr(right, st1);
      Lowered(Binary(operator, left', right'), st2)
    case Pipe(argument, piped) =>
      var (argument', st1) :- LowerExpr(argument, st);
      var (piped', st2) :- LowerExpr(piped, st1);
      Lowered(Pipe(argument', piped'), st2)
    case Call(callee, arguments) =>
      var (callee', st1) :- LowerExpr(callee, st);
      var (arguments', st2) :- LowerAll(arguments, st1);
      Lowered(Call(callee', arguments'), st2)
    case If(condition, thenBranch, elseBranch) =>
      var (condition', st1) :- LowerExpr(condition, st);
      var (then', st2) :- LowerExpr(thenBranch, st1);
      var (else', st3) :- LowerExpr(elseBranch, st2);
      Lowered(If(condition', then', else'), st3)
    case Lambda(parameters, captures, body, group, ty) =>
      if group != [] then Failed(RecNotBoundByBlock)
      else
        var (body', inner) :- LowerExpr(body, EnterFrame(st, {}));
        var st1 := inner.(frame := st.frame);
        var lifted := Fun(captures + parameters, body', |captures|, FromLambda(e, st.unit));
        Lowered(Closure(|st1.functions|, LocalValues(captures), ty), st1.(functions := st1.functions + [lifted]))
    case Closure(lifted, values, ty) =>
      var (values', st1) :- LowerAll(values, st);
      Lowered(Closure(lifted, values', ty), st1)
    case Block(_, _) =>
      var (parts, st1) :- LowerBlock(e, 0, st);
      Lowered(Block(parts.0, parts.1), st1)
    case Assign(target, newValue) =>
      var (target', st1) :- LowerExpr(target, st);
      var (value', st2) :- LowerExpr(newValue, st1);
      Lowered(Assign(target', value'), st2)
    case Borrow(place, exclusive) =>
      var (place', st1) :- LowerExpr(place, st);
      Lowered(Borrow(place', exclusive), st1)
    case Deref(reference) =>
      var (reference', st1) :- LowerExpr(reference, st);
      Lowered(Deref(reference'), st1)
  }

  function LowerAll(es: seq<Expr>, st: State): Outcome<seq<Expr>>
    decreases es
  {
    if es == [] then Lowered([], st)
    else
      var (e, st1) :- LowerExpr(es[0], st);
      var (rest, st2) :- LowerAll(es[1..], st1);
      Lowered([e] + rest, st2)
  }

  /** The bindings of a block from `i` on, and its result. */
  function LowerBlock(block: Expr, i: nat, st: State): Outcome<(seq<Binding>, Expr)>
    requires block.Block? && i <= |block.bindings|
    decreases block, |block.bindings| - i, 1
  {
    if i == |block.bindings| then
      var (result, st1) :- LowerExpr(block.result, st);
      Lowered(([], result), st1)
    else
      match GroupLen(block.bindings, i)
      case Unbound => Failed(RecGroupUnbound)
      case Members(count) =>
        if count == 0 then
          var (value, st1) :- LowerExpr(block.bindings[i].value, st);
          var (rest, st2) :- LowerBlock(block, i + 1, st1);
          Lowered(([Binding(block.bindings[i].local, value)] + rest.0, rest.1), st2)
        else
          var (closures, st1) :- LowerGroup(block, i, count, st);
          var (rest, st2) :- LowerBlock(block, i + count, st1);
          Lowered((closures + rest.0, rest.1), st2)
  }

  /** Lifts the group of `count` bindings that starts at `i`. */
  function LowerGroup(block: Expr, i: nat, count: nat, st: State): Outcome<seq<Binding>>
    requires block.Block? && i + count <= |block.bindings|
    requires forall k | i <= k < i + count :: block.bindings[k].value.Lambda?
    decreases block, |block.bindings| - i, 0
  {
    var group := BlockGroup(block, i, count, st);
    var (done, st1) :- LowerMembers(block, i, group, 0, Reserve(st, group));
    Lowered(GroupClosures(group), st1)
  }

  function BlockGroup(block: Expr, i: nat, count: nat, st: State): Group
    requires block.Block? && i + count <= |block.bindings|
    requires forall k | i <= k < i + count :: block.bindings[k].value.Lambda?
  {
    GroupOf(block.bindings[i..i + count], |st.functions|, Callable(st), st.frame.id, st.unit)
  }

  /** One slot for each member is appended; its body is filled in later. */
  function Reserve(st: State, group: Group): State
    requires forall k | 0 <= k < |group.members| :: group.members[k].value.Lambda?
  {
    st.(functions := st.functions + Reserved(group),
        recursive := GroupFunctions(st.recursive, group.members, group.first, group.captured, st.frame.id))
  }

  /** Lowers and rewrites the bodies of the members from `j` on. */
  function LowerMembers(block: Expr, i: nat, group: Group, j: nat, st: State): Outcome<()>
    requires block.Block? && i + |group.members| <= |block.bindings| && j <= |group.members|
    requires group.members == block.bindings[i..i + |group.members|]
    requires forall k | 0 <= k < |group.members| :: group.members[k].value.Lambda?
    decreases block, |block.bindings| - i, 0, |group.members| - j
  {
    if j == |group.members| then Lowered((), st)
    else
      assert group.members[j] == block.bindings[i + j];
      var (done, st1) :- LowerMember(group, j, st);
      LowerMembers(block, i, group, j + 1, st1)
  }

  /** Fills the slot of a member: its body is lowered in a new frame and then rewritten. */
  function LowerMember(group: Group, j: nat, st: State): Outcome<()>
    requires j < |group.members| && group.members[j].value.Lambda?
    decreases group.members[j].value
  {
    var (body, inner) :- LowerExpr(group.members[j].value.body, EnterFrame(st, group.direct.Keys));
    if group.first + j < |inner.functions| then
      Lowered((), WithBody(inner.(frame := st.frame), group.first + j, RewrittenBody(group, inner.recursive, body)))
    else Failed(RecGroupUnbound)
  }

  function RewrittenBody(group: Group, recursive: map<nat, RecursiveFunction>, body: Expr): Expr {
    Rewrite(DirectMap(recursive, group.direct.Keys), BorrowedMap(group.captured), body)
  }

  function WithBody(st: State, id: nat, body: Expr): State
    requires id < |st.functions|
  {
    st.(functions := st.functions[id := st.functions[id].(body := body)])
  }

  /** The bindings that replace the group: each name is bound to a closure. */
  function GroupClosures(group: Group): (r: seq<Binding>)
    requires forall k | 0 <= k < |group.members| :: group.members[k].value.Lambda?
    ensures |r| == |group.members|
    ensures forall k | 0 <= k < |r| ::
              r[k] == Binding(group.members[k].local,
                              Closure(group.first + k, AtBindings(group.captured), group.members[k].value.lambdaTy))
  {
    seq(|group.members|, k requires 0 <= k < |group.members| =>
      Binding(group.members[k].local,
              Closure(group.first + k, AtBindings(group.captured), group.members[k].value.lambdaTy)))
  }

  // ----- the whole program -----

  /** The state in which the lowering of a function of the source begins. */
  function Start(functions: seq<Fun>, body: Expr, unit: Unit): State {
    State(functions, map[], Frame(1, {}), 1, if HasGroup(body) then MutatedIn(body) else {}, unit)
  }

  /** Lowers the functions of the source program from `id` on; lifted functions go to the end. */
  function LowerFrom(P: seq<Fun>, functions: seq<Fun>, id: nat): Outcome<seq<Fun>>
    requires id <= |P| <= |functions|
    requires forall k | 0 <= k < |P| :: P[k].origin.Original?
    decreases |P| - id
  {
    if id == |P| then Lowered(functions, Start(functions, Literal(0), Unit(map[], {}, 0)))
    else
      var (body, st) :- LowerExpr(P[id].body, Start(functions, P[id].body, P[id].origin.unit));
      if |P| <= |st.functions| then
        LowerFrom(P, st.functions[id := st.functions[id].(body := body)], id + 1)
      else Failed(RecNotBoundByBlock)
  }

  function LowerProgram(P: seq<Fun>): Outcome<seq<Fun>>
    requires forall k | 0 <= k < |P| :: P[k].origin.Original?
  {
    LowerFrom(P, P, 0)
  }
}

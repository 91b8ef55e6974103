/**
  Lowering a well-scoped program makes one that stands for it.
 */
module LetRecSound {
  import opened LetRecSyntax
  import opened LetRecEval
  import opened LetRecLowering
  import opened LetRecRelation
  import opened LetRecBinding
  import opened LetRecGrowth
  import opened LetRecStatic

  // ----- lowering makes what stands for the source -----

  lemma {:induction false} LowerSound(
    P: seq<Fun>, F: seq<Fun>, e: Expr, st: State, callable: map<nat, RecursiveFunction>, taken: set<nat>,
    scope: set<nat>, own: set<nat>)
    requires AllLift(F, callable)
    requires Lowerable(P, e, st, callable, taken, scope, own)
    requires LowerExpr(e, st).Lowered? && Agree(F, LowerExpr(e, st).state.functions, |st.functions|)
    ensures Rel(F, st.unit, PlainCtx(callable), e, LowerExpr(e, st).value)
    ensures NewOk(P, F, |st.functions|, |LowerExpr(e, st).state.functions|)
    decreases e, 2
  {
    match e
    case Literal(_) =>
    case Var(_, _) =>
    case FunctionRef(_) =>
    case Binary(_, left, right) => Siblings(e, 0, 1); TwoSound(P, F, e, left, right, st, callable, taken, scope, own);
    case Pipe(argument, piped) =>
      Siblings(e, 0, 1);
      TwoSound(P, F, e, argument, piped, st, callable, taken, scope, own);
    case Call(_, _) => CallSound(P, F, e, st, callable, taken, scope, own);
    case If(_, _, _) => IfSound(P, F, e, st, callable, taken, scope, own);
    case Lambda(_, _, _, _, _) => LambdaSound(P, F, e, st, callable, taken, scope, own);
    case Closure(_, _, _) => assert false;
    case Block(_, _) =>
      BlockLength(e, 0, st);
      BlockSound(P, F, e, 0, st, callable, taken, scope, own, LowerExpr(e, st).value);
    case Assign(target, newValue) =>
      Siblings(e, 0, 1);
      TwoSound(P, F, e, target, newValue, st, callable, taken, scope, own);
    case Borrow(place, _) => OneSound(P, F, e, place, st, callable, taken, scope, own);
    case Deref(reference) => OneSound(P, F, e, reference, st, callable, taken, scope, own);
  }

  lemma {:induction false} OneSound(
    P: seq<Fun>, F: seq<Fun>, e: Expr, inner: Expr, st: State, callable: map<nat, RecursiveFunction>,
    taken: set<nat>, scope: set<nat>, own: set<nat>)
    requires AllLift(F, callable)
    requires Lowerable(P, e, st, callable, taken, scope, own)
    requires (e.Borrow? && e.place == inner) || (e.Deref? && e.reference == inner)
    requires LowerExpr(e, st).Lowered? && Agree(F, LowerExpr(e, st).state.functions, |st.functions|)
    ensures Rel(F, st.unit, PlainCtx(callable), e, LowerExpr(e, st).value)
    ensures NewOk(P, F, |st.functions|, |LowerExpr(e, st).state.functions|)
    decreases e, 1
  {
    assert inner in Children(e);
    LowerSound(P, F, inner, st, callable, taken, scope, own);
  }

  lemma Siblings(e: Expr, i: nat, j: nat)
    requires UniqueIds(e) && i < j < |Children(e)|
    ensures Binders(Children(e)[i]) !! Binders(Children(e)[j])
  {
  }

  lemma {:induction false} TwoSound(
    P: seq<Fun>, F: seq<Fun>, e: Expr, first: Expr, second: Expr, st: State, callable: map<nat, RecursiveFunction>,
    taken: set<nat>, scope: set<nat>, own: set<nat>)
    requires AllLift(F, callable)
    requires Lowerable(P, e, st, callable, taken, scope, own)
    requires first in Children(e) && second in Children(e) && Binders(first) !! Binders(second)
    requires Scoped(st.unit, taken, scope, own, first) && Scoped(st.unit, taken, scope, own, second)
    requires LowerExpr(first, st).Lowered?
    requires var st1 := LowerExpr(first, st).state;
             LowerExpr(second, st1).Lowered? && Agree(F, LowerExpr(second, st1).state.functions, |st.functions|)
    ensures var st1 := LowerExpr(first, st).state;
            && Grown(st, st1, taken, |st.functions|) && Grown(st1, LowerExpr(second, st1).state, taken, |st1.functions|)
            && Rel(F, st.unit, PlainCtx(callable), first, LowerExpr(first, st).value)
            && Rel(F, st.unit, PlainCtx(callable), second, LowerExpr(second, st1).value)
            && NewOk(P, F, |st.functions|, |LowerExpr(second, st1).state.functions|)
    decreases e, 1, 0
  {
    hide Scoped, OnlyMutates, HasGroup, Static, Grown, Rel, LowerExpr, FunOk, Agree, Binders, UniqueIds;
    ChildLowerable(P, e, first, st, callable, taken, scope, own);
    ChildLowerable(P, e, second, st, callable, taken, scope, own);
    hide Lowerable;
    LowerableGrows(P, first, st, callable, taken, scope, own);
    var st1 := LowerExpr(first, st).state;
    GrownBound(st, st1, taken, |st.functions|);
    LaterLowerable(P, second, st, st1, callable, taken, scope, own, Binders(first));
    LowerableGrows(P, second, st1, callable, taken, scope, own);
    AgreeParts(F, st, st1, LowerExpr(second, st1).state, taken);
    LowerSound(P, F, first, st, callable, taken, scope, own);
    LowerSound(P, F, second, st1, callable, taken, scope, own);
  }

  lemma {:induction false} CallSound(
    P: seq<Fun>, F: seq<Fun>, e: Expr, st: State, callable: map<nat, RecursiveFunction>, taken: set<nat>,
    scope: set<nat>, own: set<nat>)
    requires AllLift(F, callable)
    requires e.Call? && Lowerable(P, e, st, callable, taken, scope, own)
    requires LowerExpr(e, st).Lowered? && Agree(F, LowerExpr(e, st).state.functions, |st.functions|)
    ensures Rel(F, st.unit, PlainCtx(callable), e, LowerExpr(e, st).value)
    ensures NewOk(P, F, |st.functions|, |LowerExpr(e, st).state.functions|)
    decreases e, 1
  {
    assert e.callee in Children(e) && forall c | c in e.arguments :: c in Children(e);
    ChildLowerable(P, e, e.callee, st, callable, taken, scope, own);
    LowerableGrows(P, e.callee, st, callable, taken, scope, own);
    var st1 := LowerExpr(e.callee, st).state;
    StaticGrows(st, st1, callable, taken, scope, |st.functions|);
    LowerAllGrows(e.arguments, st1, taken, scope, own);
    AgreeParts(F, st, st1, LowerAll(e.arguments, st1).state, taken);
    ArgumentsUnseen(e, st, st1);
    LowerSound(P, F, e.callee, st, callable, taken, scope, own);
    AllSound(P, F, e.arguments, st1, callable, taken, scope, own);
  }

  /** The arguments of a call bind nothing that the callee binds, nor what another argument binds. */
  lemma ArgumentsUnseen(e: Expr, st: State, st1: State)
    requires e.Call? && Unseen(st, e) && Registers(st, st1, Binders(e.callee))
    ensures AllUnseen(st1, e.arguments)
  {
    hide Binders, UniqueIds;
    forall k | 0 <= k < |e.arguments| ensures Unseen(st1, e.arguments[k]) {
      ArgumentAt(e, k);
      ChildBinders(e, e.arguments[k]);
      Siblings(e, 0, k + 1);
    }
    forall i, j | 0 <= i < j < |e.arguments| ensures Binders(e.arguments[i]) !! Binders(e.arguments[j]) {
      ArgumentAt(e, i);
      ArgumentAt(e, j);
      Siblings(e, i + 1, j + 1);
    }
  }

  lemma ArgumentAt(e: Expr, k: nat)
    requires e.Call? && k < |e.arguments|
    ensures |Children(e)| == |e.arguments| + 1 && Children(e)[0] == e.callee && Children(e)[k + 1] == e.arguments[k]
  {
  }

  ghost predicate AllUnseen(st: State, es: seq<Expr>) {
    && (forall k | 0 <= k < |es| :: Unseen(st, es[k]))
    && (forall i, j | 0 <= i < j < |es| :: Binders(es[i]) !! Binders(es[j]))
  }

  lemma AllUnseenRest(st: State, st1: State, es: seq<Expr>)
    requires es != [] && AllUnseen(st, es) && Registers(st, st1, Binders(es[0]))
    ensures AllUnseen(st1, es[1..])
  {
    forall k | 0 <= k < |es[1..]| ensures Unseen(st1, es[1..][k]) {
      assert es[1..][k] == es[k + 1] && Unseen(st, es[k + 1]);
    }
  }

  lemma {:induction false} AllSound(
    P: seq<Fun>, F: seq<Fun>, es: seq<Expr>, st: State, callable: map<nat, RecursiveFunction>, taken: set<nat>,
    scope: set<nat>, own: set<nat>)
    requires AllLift(F, callable)
    requires ScopedAll(st.unit, taken, scope, own, es) && Static(st, callable, taken, scope)
    requires st.unit.count == |P| <= |st.functions|
    requires forall c | c in es :: OnlyMutates(st.unit.mutated, c) && (HasGroup(c) ==> st.mutated == st.unit.mutated)
    requires AllUnseen(st, es)
    requires LowerAll(es, st).Lowered? && Agree(F, LowerAll(es, st).state.functions, |st.functions|)
    ensures RelAll(F, st.unit, PlainCtx(callable), es, LowerAll(es, st).value)
    ensures NewOk(P, F, |st.functions|, |LowerAll(es, st).state.functions|)
    decreases es
  {
    if es != [] {
      hide OnlyMutates, HasGroup, Rel, LowerExpr, FunOk, Scoped, Binders, UniqueIds;
      assert Unseen(st, es[0]);
      LowerableGrows(P, es[0], st, callable, taken, scope, own);
      var st1 := LowerExpr(es[0], st).state;
      StaticGrows(st, st1, callable, taken, scope, |st.functions|);
      LowerAllGrows(es[1..], st1, taken, scope, own);
      AgreeParts(F, st, st1, LowerAll(es[1..], st1).state, taken);
      AllUnseenRest(st, st1, es);
      LowerSound(P, F, es[0], st, callable, taken, scope, own);
      AllSound(P, F, es[1..], st1, callable, taken, scope, own);
    }
  }

  lemma TwoRegisterExactly(first: Expr, second: Expr, st: State)
    requires LowerExpr(first, st).Lowered? && LowerExpr(second, LowerExpr(first, st).state).Lowered?
    ensures Registers(st, LowerExpr(second, LowerExpr(first, st).state).state, Binders(first) + Binders(second))
  {
    LowerRegisters(first, st);
    LowerRegisters(second, LowerExpr(first, st).state);
  }

  lemma {:induction false} IfSound(
    P: seq<Fun>, F: seq<Fun>, e: Expr, st: State, callable: map<nat, RecursiveFunction>, taken: set<nat>,
    scope: set<nat>, own: set<nat>)
    requires AllLift(F, callable)
    requires e.If? && Lowerable(P, e, st, callable, taken, scope, own)
    requires LowerExpr(e, st).Lowered? && Agree(F, LowerExpr(e, st).state.functions, |st.functions|)
    ensures Rel(F, st.unit, PlainCtx(callable), e, LowerExpr(e, st).value)
    ensures NewOk(P, F, |st.functions|, |LowerExpr(e, st).state.functions|)
    decreases e, 1, 1
  {
    assert e.condition in Children(e) && e.thenBranch in Children(e) && e.elseBranch in Children(e);
    LowerTwo(e, e.condition, e.thenBranch, st, taken, scope, own);
    var st2 := LowerExpr(e.thenBranch, LowerExpr(e.condition, st).state).state;
    StaticGrows(st, st2, callable, taken, scope, |st.functions|);
    ChildLowerable(P, e, e.elseBranch, st, callable, taken, scope, own);
    TwoRegisterExactly(e.condition, e.thenBranch, st);
    Siblings(e, 0, 1); Siblings(e, 0, 2); Siblings(e, 1, 2);
    LaterLowerable(P, e.elseBranch, st, st2, callable, taken, scope, own, Binders(e.condition) + Binders(e.thenBranch));
    LowerableGrows(P, e.elseBranch, st2, callable, taken, scope, own);
    AgreeParts(F, st, st2, LowerExpr(e.elseBranch, st2).state, taken);
    TwoSound(P, F, e, e.condition, e.thenBranch, st, callable, taken, scope, own);
    LowerSound(P, F, e.elseBranch, st2, callable, taken, scope, own);
  }

  lemma EnterPlain(st: State, taken: set<nat>, taken': set<nat>, scope': set<nat>)
    requires BoundBefore(st) && scope' <= taken'
    ensures Static(EnterFrame(st, {}), map[], taken', scope')
  {
  }

  lemma {:induction false} LambdaSound(
    P: seq<Fun>, F: seq<Fun>, e: Expr, st: State, callable: map<nat, RecursiveFunction>, taken: set<nat>,
    scope: set<nat>, own: set<nat>)
    requires AllLift(F, callable)
    requires e.Lambda? && Lowerable(P, e, st, callable, taken, scope, own)
    requires LowerExpr(e, st).Lowered? && Agree(F, LowerExpr(e, st).state.functions, |st.functions|)
    ensures Rel(F, st.unit, PlainCtx(callable), e, LowerExpr(e, st).value)
    ensures NewOk(P, F, |st.functions|, |LowerExpr(e, st).state.functions|)
    decreases e, 1
  {
    var inside := EnterFrame(st, {});
    var ids := IdSet(e.parameters);
    assert e.body in Children(e);
    assert IdSet(e.captures) <= taken;
    EnterPlain(st, taken, taken + ids, IdSet(e.captures) + ids);
    ChildBinders(e, e.body);
    assert Lowerable(P, e.body, inside, map[], taken + ids, IdSet(e.captures) + ids, ids);
    LowerableGrows(P, e.body, inside, map[], taken + ids, IdSet(e.captures) + ids, ids);
    LowerSound(P, F, e.body, inside, map[], taken + ids, IdSet(e.captures) + ids, ids);
    assert LambdaOk(st.unit, e, taken);
    var made := |LowerExpr(e.body, inside).state.functions|;
    assert LowerExpr(e, st).value == Closure(made, LocalValues(e.captures), e.lambdaTy);
    assert FunOk(P, F, made);
  }

  lemma {:induction false} BlockLength(block: Expr, i: nat, st: State)
    requires block.Block? && i <= |block.bindings|
    ensures LowerBlock(block, i, st).Lowered? ==> |LowerBlock(block, i, st).value.0| == |block.bindings| - i
    decreases |block.bindings| - i
  {
    hide LowerExpr, LowerGroup;
    if i < |block.bindings| && LowerBlock(block, i, st).Lowered? {
      var count := GroupLen(block.bindings, i).count;
      if count == 0 {
        BlockLength(block, i + 1, LowerExpr(block.bindings[i].value, st).state);
      } else {
        GroupLength(block, i, count, st);
        BlockLength(block, i + count, LowerGroup(block, i, count, st).state);
      }
    }
  }

  lemma GroupLength(block: Expr, i: nat, count: nat, st: State)
    requires block.Block? && i + count <= |block.bindings|
    requires forall k | i <= k < i + count :: block.bindings[k].value.Lambda?
    ensures LowerGroup(block, i, count, st).Lowered? ==>
              LowerGroup(block, i, count, st).value == GroupClosures(BlockGroup(block, i, count, st))
  {
    hide LowerMembers, GroupOf;
  }

  // ----- blocks -----

  /** Everything that is needed to lower the bindings of the block `e` from `i` on. */
  ghost predicate BlockLowerable(
    P: seq<Fun>, e: Expr, i: nat, st: State, callable: map<nat, RecursiveFunction>, taken: set<nat>, scope: set<nat>,
    own: set<nat>)
  {
    && e.Block? && i <= |e.bindings|
    && ScopedBlock(st.unit, taken, scope, own, e, i)
    && Static(st, callable, taken, scope)
    && Enclosing(st, e)
    && st.unit.count == |P| <= |st.functions|
    && Ahead(e, i, i, st)
  }

  /** The function that `e` belongs to mutates what `e` mutates. */
  ghost predicate Enclosing(st: State, e: Expr) {
    OnlyMutates(st.unit.mutated, e) && (HasGroup(e) ==> st.mutated == st.unit.mutated)
  }

  lemma EnclosingChild(st: State, e: Expr, c: Expr)
    requires Enclosing(st, e) && c in Children(e)
    ensures Enclosing(st, c)
  {
  }

  lemma EnclosingGroup(st: State, e: Expr, k: nat)
    requires e.Block? && Enclosing(st, e) && k < |e.bindings| && IsRecursive(e.bindings[k].value)
    ensures st.mutated == st.unit.mutated
  {
    assert Children(e)[k] == e.bindings[k].value;
    assert HasGroup(e.bindings[k].value);
  }

  /** The lowered block `t` has what lowering makes of the bindings from `i` on. */
  ghost predicate Makes(F: seq<Fun>, e: Expr, i: nat, st: State, t: Expr)
    requires e.Block? && i <= |e.bindings|
  {
    var r := LowerBlock(e, i, st);
    && r.Lowered? && Agree(F, r.state.functions, |st.functions|)
    && t.Block? && |t.bindings| == |e.bindings|
    && t.bindings[i..] == r.value.0 && t.result == r.value.1
  }

  lemma {:induction false} BlockSound(
    P: seq<Fun>, F: seq<Fun>, e: Expr, i: nat, st: State, callable: map<nat, RecursiveFunction>, taken: set<nat>,
    scope: set<nat>,
    own: set<nat>, t: Expr)
    requires AllLift(F, callable)
    requires BlockLowerable(P, e, i, st, callable, taken, scope, own) && Makes(F, e, i, st, t)
    ensures RelBlock(F, st.unit, PlainCtx(callable), e, t, i)
    ensures NewOk(P, F, |st.functions|, |LowerBlock(e, i, st).state.functions|)
    decreases e, 1, |e.bindings| - i, 2
  {
    hide Scoped, OnlyMutates, HasGroup, Static, Rel, LowerExpr, FunOk, Binders, UniqueIds;
    if i == |e.bindings| {
      ValueLowerable(P, e, i, e.result, st, callable, taken, scope, own);
      LowerSound(P, F, e.result, st, callable, taken, scope, own);
    } else if GroupLen(e.bindings, i) == Members(0) {
      PlainSound(P, F, e, i, st, callable, taken, scope, own, t);
    } else {
      GroupSound(P, F, e, i, st, callable, taken, scope, own, t);
    }
  }

  lemma ValueLowerable(
    P: seq<Fun>, e: Expr, i: nat, c: Expr, st: State, callable: map<nat, RecursiveFunction>, taken: set<nat>,
    scope: set<nat>, own: set<nat>)
    requires BlockLowerable(P, e, i, st, callable, taken, scope, own) && i < |Children(e)| && c == Children(e)[i]
    requires Scoped(st.unit, taken, scope, own, c)
    ensures Lowerable(P, c, st, callable, taken, scope, own)
  {
    assert c in Children(e);
    EnclosingChild(st, e, c);
    ChildBinders(e, c);
  }

  lemma {:induction false} PlainSound(
    P: seq<Fun>, F: seq<Fun>, e: Expr, i: nat, st: State, callable: map<nat, RecursiveFunction>, taken: set<nat>,
    scope: set<nat>,
    own: set<nat>, t: Expr)
    requires AllLift(F, callable)
    requires BlockLowerable(P, e, i, st, callable, taken, scope, own) && Makes(F, e, i, st, t)
    requires i < |e.bindings| && GroupLen(e.bindings, i) == Members(0)
    ensures RelBlock(F, st.unit, PlainCtx(callable), e, t, i)
    ensures NewOk(P, F, |st.functions|, |LowerBlock(e, i, st).state.functions|)
    decreases e, 1, |e.bindings| - i, 1
  {
    hide Scoped, Static, Rel, LowerExpr, FunOk, Binders, UniqueIds, Grown, OnlyMutates, HasGroup, GroupLen, Agree;
    var value, x := e.bindings[i].value, e.bindings[i].local.id;
    PlainParts(st.unit, taken, scope, own, e, i);
    NameBinder(e, i);
    ValueLowerable(P, e, i, value, st, callable, taken, scope, own);
    LowerableGrows(P, value, st, callable, taken, scope, own);
    var st1 := LowerExpr(value, st).state;
    AfterPlain(P, e, i, st, st1, callable, taken, scope, own);
    BlockGrows(e, i + 1, st1, taken + {x}, scope + {x}, own + {x});
    AgreeParts(F, st, st1, LowerBlock(e, i + 1, st1).state, taken + {x});
    LowerSound(P, F, value, st, callable, taken, scope, own);
    assert t.bindings[i] == t.bindings[i..][0] == Binding(e.bindings[i].local, LowerExpr(value, st).value);
    assert t.bindings[i + 1..] == t.bindings[i..][1..];
    BlockSound(P, F, e, i + 1, st1, callable, taken + {x}, scope + {x}, own + {x}, t);
    PlainHead(F, st.unit, PlainCtx(callable), e, t, i);
    GrownBound(st, st1, taken, |st.functions|);
  }

  lemma PlainParts(unit: Unit, taken: set<nat>, scope: set<nat>, own: set<nat>, e: Expr, i: nat)
    requires e.Block? && i < |e.bindings| && GroupLen(e.bindings, i) == Members(0)
    requires ScopedBlock(unit, taken, scope, own, e, i)
    ensures var x := e.bindings[i].local.id;
            && x !in taken
            && Scoped(unit, taken, scope, own, e.bindings[i].value)
            && ScopedBlock(unit, taken + {x}, scope + {x}, own + {x}, e, i + 1)
            && Width(e.bindings, i) == 1
  {
    BlockParts(unit, taken, scope, own, e, i);
    PlainName(e.bindings, i);
    assert [e.bindings[i].local][0] == e.bindings[i].local;
  }

  lemma AfterPlain(
    P: seq<Fun>, e: Expr, i: nat, st: State, st1: State, callable: map<nat, RecursiveFunction>, taken: set<nat>,
    scope: set<nat>,
    own: set<nat>)
    requires BlockLowerable(P, e, i, st, callable, taken, scope, own)
    requires i < |e.bindings| && GroupLen(e.bindings, i) == Members(0)
    requires Grown(st, st1, taken, |st.functions|) && Registers(st, st1, Binders(e.bindings[i].value))
    ensures var x := e.bindings[i].local.id;
            BlockLowerable(P, e, i + 1, st1, callable, taken + {x}, scope + {x}, own + {x}) && BoundBefore(st1)
  {
    hide Scoped, Binders, UniqueIds, OnlyMutates, HasGroup, CallOk;
    var x := e.bindings[i].local.id;
    PlainParts(st.unit, taken, scope, own, e, i);
    StaticGrows(st, st1, callable, taken, scope, |st.functions|);
    NameBinder(e, i);
    AheadValue(e, i, i, st, st1);
    PlainStatic(st1, callable, taken, scope, x);
  }

  // ----- the bodies of a group -----

  /** Everything that is needed to lower the members of `g` from `j` on. */
  ghost predicate MembersReady(
    P: seq<Fun>, e: Expr, i: nat, g: Group, j: nat, st: State, taken: set<nat>, scope: set<nat>)
  {
    && GroupInBlock(e, i, g, taken, scope) && j <= |g.members| && g.unit == st.unit
    && BoundBefore(st) && Reserving(g, st.functions)
    && GroupOk(g, taken) && DirectKnown(st, g) && g.direct.Keys <= taken + BoundIds(g.members)
    && Enclosing(st, e)
    && st.unit.count == |P| <= |st.functions|
    && Ahead(e, i + j, i + |g.members|, st)
  }

  lemma MembersStep(P: seq<Fun>, e: Expr, i: nat, g: Group, j: nat, st: State, taken: set<nat>, scope: set<nat>)
    requires MembersReady(P, e, i, g, j, st, taken, scope) && j < |g.members|
    ensures LowerMember(g, j, st).Lowered? && MembersReady(P, e, i, g, j + 1, LowerMember(g, j, st).state, taken, scope)
    ensures Untouched(st.functions, LowerMember(g, j, st).state.functions, g.first + j, g.first + j + 1)
  {
    hide Scoped, OnlyMutates, HasGroup, LowerMember, LowerExpr, GroupOk, Binders, UniqueIds, Reserving, Children;
    var names := BoundIds(g.members);
    MemberInBlock(e, i, g, j, taken, scope);
    ReservingFits(g, st.functions);
    MemberGrows(g, j, st, taken);
    MemberSlot(g, j, st, taken);
    var st1 := LowerMember(g, j, st).state;
    DirectKnownGrows(st, st1, g, taken + names, g.first);
    MemberRegisters(g, j, st);
    NameBinder(e, i + j);
    AheadValue(e, i + j, i + |g.members|, st, st1);
  }

  lemma {:induction false} MembersEnd(
    P: seq<Fun>, e: Expr, i: nat, g: Group, j: nat, st: State, taken: set<nat>, scope: set<nat>)
    requires MembersReady(P, e, i, g, j, st, taken, scope)
    ensures var r := LowerMembers(e, i, g, j, st);
            r.Lowered? && MembersReady(P, e, i, g, |g.members|, r.state, taken, scope)
    decreases |g.members| - j
  {
    hide MembersReady, LowerMember, Untouched;
    MembersParts(P, e, i, g, j, st, taken, scope);
    if j < |g.members| {
      MembersStep(P, e, i, g, j, st, taken, scope);
      MembersEnd(P, e, i, g, j + 1, LowerMember(g, j, st).state, taken, scope);
    }
  }

  lemma {:induction false} MemberSound(
    P: seq<Fun>, F: seq<Fun>, e: Expr, i: nat, g: Group, j: nat, st: State, taken: set<nat>, scope: set<nat>)
    requires MembersReady(P, e, i, g, j, st, taken, scope) && j < |g.members| && AllLift(F, g.direct)
    requires var inner := LowerExpr(g.members[j].value.body, EnterFrame(st, g.direct.Keys));
             inner.Lowered? && Agree(F, inner.state.functions, |st.functions|)
    ensures var inner := LowerExpr(g.members[j].value.body, EnterFrame(st, g.direct.Keys));
            && Rel(F, g.unit, GroupCtx(g), g.members[j].value.body,
                   RewrittenBody(g, inner.state.recursive, inner.value))
            && NewOk(P, F, |st.functions|, |inner.state.functions|)
    decreases e, 1, 0, 0
  {
    hide Scoped, OnlyMutates, HasGroup, LowerExpr, GroupOk, Binders, UniqueIds, Reserving, Static, Rel, FunOk, Rewrite;
    var names, lambda := BoundIds(g.members), g.members[j].value;
    var ids := IdSet(lambda.parameters);
    var inside := EnterFrame(st, g.direct.Keys);
    MemberInBlock(e, i, g, j, taken, scope);
    NameBinder(e, i + j);
    BodyUnseen(e, i + j, lambda, i + |g.members|, st, inside);
    EnterMember(st, g, taken, j);
    var all, visible := taken + names + ids, IdSet(GroupCaptures(g.members)) + names + ids;
    assert Lowerable(P, lambda.body, inside, g.direct, all, visible, ids);
    LowerableGrows(P, lambda.body, inside, g.direct, all, visible, ids);
    LowerSound(P, F, lambda.body, inside, g.direct, all, visible, ids);
    var inner := LowerExpr(lambda.body, inside);
    assert DirectKnown(inside, g);
    DirectKnownGrows(inside, inner.state, g, all, |st.functions|);
    DirectMapKnown(inner.state, g);
    RewriteSound(F, g.unit, g.direct, GroupCtx(g), lambda.body, inner.value);
  }

  lemma BodyUnseen(e: Expr, k: nat, lambda: Expr, n: nat, st: State, inside: State)
    requires e.Block? && k < |e.bindings| && e.bindings[k].value == lambda && lambda.Lambda?
    requires Ahead(e, k, n, st) && Enclosing(st, e)
    requires inside.recursive == st.recursive && inside.mutated == st.mutated && inside.unit == st.unit
    ensures Unseen(inside, lambda.body) && Enclosing(inside, lambda.body) && lambda.body < e
  {
    hide OnlyMutates, HasGroup, UniqueIds, Binders;
    NameBinder(e, k);
    assert lambda in Children(e) && lambda.body in Children(lambda);
    EnclosingChild(st, e, lambda);
    EnclosingChild(st, lambda, lambda.body);
    EnclosingSame(st, inside, lambda.body);
    ChildBinders(e, lambda);
    ChildBinders(lambda, lambda.body);
  }

  lemma EnclosingSame(st: State, inside: State, e: Expr)
    requires Enclosing(st, e) && inside.mutated == st.mutated && inside.unit == st.unit
    ensures Enclosing(inside, e)
  {
  }

  lemma {:induction false} MembersSound(
    P: seq<Fun>, F: seq<Fun>, e: Expr, i: nat, g: Group, j: nat, st: State, taken: set<nat>, scope: set<nat>)
    requires MembersReady(P, e, i, g, j, st, taken, scope) && GroupLifted(F, g) && AllLift(F, g.direct)
    requires var r := LowerMembers(e, i, g, j, st);
             r.Lowered? && Agree(F, r.state.functions, g.first)
    ensures forall k | j <= k < |g.members| :: MemberMade(P, F, g, k)
    ensures NewOk(P, F, |st.functions|, |LowerMembers(e, i, g, j, st).state.functions|)
    decreases e, 1, 0, 1, |g.members| - j
  {
    hide MembersReady, LowerMember, LowerMembers, FunOk, GroupLifted, LowerExpr, Rel, Untouched, RewrittenBody;
    MembersParts(P, e, i, g, j, st, taken, scope);
    if j == |g.members| {
      NoMembers(e, i, g, st);
    } else {
      MembersStep(P, e, i, g, j, st, taken, scope);
      var st1 := LowerMember(g, j, st).state;
      MemberKept(P, F, e, i, g, j, st, taken, scope);
      MemberSound(P, F, e, i, g, j, st, taken, scope);
      MemberFun(P, F, e, i, g, j, st, taken, scope);
      MembersSound(P, F, e, i, g, j + 1, st1, taken, scope);
    }
  }

  lemma NoMembers(e: Expr, i: nat, g: Group, st: State)
    requires e.Block? && i + |g.members| <= |e.bindings| && g.members == e.bindings[i..i + |g.members|]
    requires forall k | 0 <= k < |g.members| :: g.members[k].value.Lambda?
    ensures LowerMembers(e, i, g, |g.members|, st) == Lowered((), st)
  {
  }

  lemma MembersParts(P: seq<Fun>, e: Expr, i: nat, g: Group, j: nat, st: State, taken: set<nat>, scope: set<nat>)
    requires MembersReady(P, e, i, g, j, st, taken, scope)
    ensures e.Block? && i + |g.members| <= |e.bindings| && g.members == e.bindings[i..i + |g.members|]
    ensures forall k | 0 <= k < |g.members| :: g.members[k].value.Lambda?
    ensures j <= |g.members| && g.first + |g.members| <= |st.functions| && BoundBefore(st)
  {
    hide Scoped, OnlyMutates, HasGroup, GroupOk, UniqueIds, GroupHeader;
  }

  /** What is made for a member stays as it is. */
  lemma MemberKept(
    P: seq<Fun>, F: seq<Fun>, e: Expr, i: nat, g: Group, j: nat, st: State, taken: set<nat>, scope: set<nat>)
    requires MembersReady(P, e, i, g, j, st, taken, scope) && j < |g.members|
    requires var r := LowerMembers(e, i, g, j, st);
             r.Lowered? && Agree(F, r.state.functions, g.first)
    ensures var inner := LowerExpr(g.members[j].value.body, EnterFrame(st, g.direct.Keys));
            && inner.Lowered? && Agree(F, inner.state.functions, |st.functions|)
            && g.first + j < |F|
            && F[g.first + j] == LiftedMember(g, j, RewrittenBody(g, inner.state.recursive, inner.value))
            && LowerMember(g, j, st).Lowered? && |LowerMember(g, j, st).state.functions| == |inner.state.functions|
            && LowerMembers(e, i, g, j, st) == LowerMembers(e, i, g, j + 1, LowerMember(g, j, st).state)
  {
    hide MembersReady, LowerExpr, Reserving, ReservedAt, RewrittenBody;
    MembersParts(P, e, i, g, j, st, taken, scope);
    MembersStep(P, e, i, g, j, st, taken, scope);
    var st1 := LowerMember(g, j, st).state;
    MembersLater(P, e, i, g, j + 1, st1, taken, scope);
    MembersReserve(P, e, i, g, j, st, taken, scope, j);
    MemberLower(P, e, i, g, j, st, taken, scope);
  }

  lemma MemberLower(P: seq<Fun>, e: Expr, i: nat, g: Group, j: nat, st: State, taken: set<nat>, scope: set<nat>)
    requires MembersReady(P, e, i, g, j, st, taken, scope) && j < |g.members|
    ensures var inner := LowerExpr(g.members[j].value.body, EnterFrame(st, g.direct.Keys));
            && inner.Lowered? && |st.functions| <= |inner.state.functions|
            && (forall k | 0 <= k < |st.functions| :: inner.state.functions[k] == st.functions[k])
  {
    hide Scoped, OnlyMutates, HasGroup, LowerExpr, GroupOk, UniqueIds, Reserving;
    MemberInBlock(e, i, g, j, taken, scope);
    var names, lambda := BoundIds(g.members), g.members[j].value;
    var ids := IdSet(lambda.parameters);
    LowerGrows(lambda.body, EnterFrame(st, g.direct.Keys), taken + names + ids,
               IdSet(GroupCaptures(g.members)) + names + ids, ids);
  }

  lemma MembersLater(P: seq<Fun>, e: Expr, i: nat, g: Group, j: nat, st: State, taken: set<nat>, scope: set<nat>)
    requires MembersReady(P, e, i, g, j, st, taken, scope)
    ensures var r := LowerMembers(e, i, g, j, st);
            && r.Lowered? && Untouched(st.functions, r.state.functions, g.first + j, g.first + |g.members|)
            && Reserving(g, r.state.functions)
  {
    hide Scoped, OnlyMutates, HasGroup, GroupOk, UniqueIds, Reserving, GroupInBlock;
    MembersSlots(e, i, g, j, st, taken, scope);
  }

  lemma MembersReserve(
    P: seq<Fun>, e: Expr, i: nat, g: Group, j: nat, st: State, taken: set<nat>, scope: set<nat>, k: nat)
    requires MembersReady(P, e, i, g, j, st, taken, scope) && k < |g.members|
    ensures g.members[k].value.Lambda? && g.first + k < |st.functions|
    ensures st.functions[g.first + k] == LiftedMember(g, k, st.functions[g.first + k].body)
  {
    hide Scoped, OnlyMutates, HasGroup, GroupOk, UniqueIds, GroupHeader;
    assert ReservedAt(g, st.functions, k);
  }

  lemma MembersFacts(P: seq<Fun>, e: Expr, i: nat, g: Group, j: nat, st: State, taken: set<nat>, scope: set<nat>)
    requires MembersReady(P, e, i, g, j, st, taken, scope)
    ensures GroupOk(g, taken) && g.unit.count == |P|
  {
    hide GroupOk, Reserving, Ahead, GroupInBlock, OnlyMutates, HasGroup;
  }

  lemma MemberFun(
    P: seq<Fun>, F: seq<Fun>, e: Expr, i: nat, g: Group, j: nat, st: State, taken: set<nat>, scope: set<nat>)
    requires MembersReady(P, e, i, g, j, st, taken, scope) && j < |g.members| && GroupLifted(F, g)
             && AllLift(F, g.direct)
    requires g.first + j < |F| && F[g.first + j] == LiftedMember(g, j, F[g.first + j].body)
    requires Rel(F, g.unit, GroupCtx(g), g.members[j].value.body, F[g.first + j].body)
    ensures MemberMade(P, F, g, j)
  {
    hide MembersReady, GroupOk, Rel, AllLift, GroupLifted, FunOk;
    MembersFacts(P, e, i, g, j, st, taken, scope);
    MembersParts(P, e, i, g, j, st, taken, scope);
    MadeFromGroup(P, F, g, j, taken);
  }

  lemma MadeFromGroup(P: seq<Fun>, F: seq<Fun>, g: Group, j: nat, taken: set<nat>)
    requires GroupOk(g, taken) && g.unit.count == |P| && GroupLifted(F, g) && AllLift(F, g.direct)
    requires j < |g.members| && g.members[j].value.Lambda? && g.first + j < |F|
    requires F[g.first + j] == LiftedMember(g, j, F[g.first + j].body)
    requires Rel(F, g.unit, GroupCtx(g), g.members[j].value.body, F[g.first + j].body)
    ensures FunOk(P, F, g.first + j)
  {
    hide GroupOk, Rel, AllLift, GroupLifted;
    assert F[g.first + j].origin == FromGroup(g, j);
  }

  ghost predicate MemberMade(P: seq<Fun>, F: seq<Fun>, g: Group, k: nat) {
    g.first + k < |F| && FunOk(P, F, g.first + k)
  }

  // ----- groups in a block -----

  /** The group that starts at `i`, and that its members can be lowered. */
  lemma GroupHead(
    P: seq<Fun>, e: Expr, i: nat, st: State, callable: map<nat, RecursiveFunction>, taken: set<nat>, scope: set<nat>,
    own: set<nat>)
    returns (count: nat, g: Group)
    requires BlockLowerable(P, e, i, st, callable, taken, scope, own) && i < |e.bindings|
             && GroupLen(e.bindings, i) != Members(0)
    ensures GroupLen(e.bindings, i) == Members(count) && 0 < count == |g.members| && Width(e.bindings, i) == count
    ensures forall k | i <= k < i + count :: e.bindings[k].value.Lambda?
    ensures g == BlockGroup(e, i, count, st) && GroupAt(g, callable, taken, scope)
            && GroupInBlock(e, i, g, taken, scope)
    ensures st.mutated == st.unit.mutated && g.unit == st.unit
    ensures var names := BoundIds(g.members);
            ScopedBlock(st.unit, taken + names, scope + names, own + names, e, i + count)
  {
    hide Scoped, UniqueIds, OnlyMutates, HasGroup, GroupOf, CallOk, ScopedBlock, ScopedHead, GroupLen, Width, HeadNames,
      Callable, Knows;
    BlockParts(st.unit, taken, scope, own, e, i);
    HeadIsGroup(st.unit, taken, scope, own, e, i);
    count := GroupLen(e.bindings, i).count;
    g := BlockGroup(e, i, count, st);
    HeadInBlock(e, i, count, g, taken, scope, own);
    EnclosingGroup(st, e, i);
    GroupKnown(st, g, callable, taken, scope);
  }

  lemma GroupKnown(st: State, g: Group, callable: map<nat, RecursiveFunction>, taken: set<nat>, scope: set<nat>)
    requires Static(st, callable, taken, scope) && g.unit == st.unit
    requires forall k | 0 <= k < |g.members| :: g.members[k].value.Lambda?
    requires GroupHeader(g.unit, taken, scope, g.members)
    requires g == GroupOf(g.members, g.first, Callable(st), g.boundIn, g.unit)
    ensures GroupAt(g, callable, taken, scope)
  {
    hide GroupOf, CallOk;
    var captures := GroupCaptures(g.members);
    assert AgreeOn(Callable(st), callable, IdSet(captures)) by {
      forall x | x in IdSet(captures) ensures x in scope {
        var k :| 0 <= k < |captures| && captures[k].id == x;
      }
    }
    GroupAgrees(g.members, g.first, Callable(st), callable, g.boundIn, g.unit);
  }

  lemma GroupFirst(
    P: seq<Fun>, e: Expr, i: nat, count: nat, g: Group, st: State, callable: map<nat, RecursiveFunction>,
    taken: set<nat>,
    scope: set<nat>, own: set<nat>)
    requires BlockLowerable(P, e, i, st, callable, taken, scope, own) && i + count <= |e.bindings|
    requires forall k | i <= k < i + count :: e.bindings[k].value.Lambda?
    requires g == BlockGroup(e, i, count, st) && GroupAt(g, callable, taken, scope)
             && GroupInBlock(e, i, g, taken, scope)
    ensures MembersReady(P, e, i, g, 0, Reserve(st, g), taken, scope)
    ensures Grown(st, Reserve(st, g), taken, |st.functions|)
  {
    hide Scoped, UniqueIds, OnlyMutates, HasGroup, GroupOf, CallOk, Binders, Children, GroupOk;
    var st0 := Reserve(st, g);
    NamesFresh(st.unit, taken, scope, g.members);
    ReserveGrows(st, g, taken);
    assert Reserving(g, st0.functions) by {
      forall j | 0 <= j < |g.members| ensures ReservedAt(g, st0.functions, j) {}
    }
    hide Reserving, Reserve;
    GroupBodies(e, i, g, st, callable, taken, scope);
    ReserveKnows(st, g, callable, taken, scope);
    ReserveRegisters(e, i, count, st, g);
    AheadNames(e, i, i + count, st, st0);
    EnclosingSame(st, st0, e);
  }

  lemma GroupBodies(
    e: Expr, i: nat, g: Group, st: State, callable: map<nat, RecursiveFunction>, taken: set<nat>, scope: set<nat>)
    requires GroupAt(g, callable, taken, scope) && GroupInBlock(e, i, g, taken, scope) && Enclosing(st, e)
             && g.unit == st.unit
    ensures GroupOk(g, taken)
  {
    hide Scoped, OnlyMutates, HasGroup, GroupOf, GroupOk, CallOk, Children;
    forall j | 0 <= j < |g.members|
      ensures MemberScoped(g, j, taken) && OnlyMutates(g.unit.mutated, g.members[j].value.body)
    {
      MemberInBlock(e, i, g, j, taken, scope);
      BodyMutates(e, i + j, st);
    }
    GroupIsOk(g, callable, taken, scope);
  }

  lemma BodyMutates(e: Expr, k: nat, st: State)
    requires e.Block? && k < |e.bindings| && e.bindings[k].value.Lambda? && Enclosing(st, e)
    ensures OnlyMutates(st.unit.mutated, e.bindings[k].value.body)
  {
    var lambda := e.bindings[k].value;
    assert Children(e)[k] == lambda;
    assert lambda.body in Children(lambda);
    EnclosingChild(st, e, lambda);
    EnclosingChild(st, lambda, lambda.body);
  }

  /** After a group is lowered, the rest of the block can be. */
  lemma GroupDone(
    P: seq<Fun>, e: Expr, i: nat, count: nat, g: Group, st: State, callable: map<nat, RecursiveFunction>,
    taken: set<nat>,
    scope: set<nat>, own: set<nat>)
    requires BlockLowerable(P, e, i, st, callable, taken, scope, own) && i + count <= |e.bindings|
    requires forall k | i <= k < i + count :: e.bindings[k].value.Lambda?
    requires g == BlockGroup(e, i, count, st) && GroupAt(g, callable, taken, scope)
             && GroupInBlock(e, i, g, taken, scope)
    requires st.mutated == st.unit.mutated
    requires var names := BoundIds(g.members);
             ScopedBlock(st.unit, taken + names, scope + names, own + names, e, i + count)
    ensures LowerMembers(e, i, g, 0, Reserve(st, g)).Lowered?
    ensures |st.functions| <= |LowerMembers(e, i, g, 0, Reserve(st, g)).state.functions|
    ensures LowerMembers(e, i, g, 0, Reserve(st, g)).state.unit == st.unit
    ensures LowerGroup(e, i, count, st) == Lowered(GroupClosures(g), LowerMembers(e, i, g, 0, Reserve(st, g)).state)
    ensures var names, next := BoundIds(g.members), AfterGroup(PlainCtx(callable), g);
            && next == PlainCtx(next.callable)
            && BlockLowerable(P, e, i + count, LowerGroup(e, i, count, st).state, next.callable, taken + names,
                              scope + names, own + names)
  {
    hide Scoped, UniqueIds, OnlyMutates, HasGroup, GroupOf, CallOk, Binders, Children, GroupOk, LowerMembers, Reserve,
      Static, ScopedBlock;
    var st0 := Reserve(st, g);
    GroupFirst(P, e, i, count, g, st, callable, taken, scope, own);
    MembersParts(P, e, i, g, 0, st0, taken, scope);
    MembersGrow(e, i, g, 0, st0, taken, scope);
    MembersEnd(P, e, i, g, 0, st0, taken, scope);
    var st1 := LowerMembers(e, i, g, 0, st0).state;
    AfterGroupStatic(st, st1, g, callable, taken, scope, g.first);
  }

  /** The bindings of the lowered block at a group are the group's closures. */
  lemma BlockSplit(F: seq<Fun>, e: Expr, i: nat, count: nat, g: Group, st: State, t: Expr)
    requires e.Block? && i < |e.bindings| && Makes(F, e, i, st, t) && GroupLen(e.bindings, i) == Members(count)
             && count > 0
    requires forall k | i <= k < i + count :: e.bindings[k].value.Lambda?
    requires (forall k | 0 <= k < |g.members| :: g.members[k].value.Lambda?) && |g.members| == count
    requires LowerGroup(e, i, count, st).Lowered? && LowerGroup(e, i, count, st).value == GroupClosures(g)
    ensures var st1 := LowerGroup(e, i, count, st).state;
            && LowerBlock(e, i + count, st1).Lowered?
            && LowerBlock(e, i, st).state == LowerBlock(e, i + count, st1).state
            && t.bindings[i..i + count] == GroupClosures(g)
            && t.bindings[i + count..] == LowerBlock(e, i + count, st1).value.0
            && t.result == LowerBlock(e, i + count, st1).value.1
  {
    hide LowerGroup, LowerExpr, Agree;
    var rest := LowerBlock(e, i + count, LowerGroup(e, i, count, st).state);
    assert t.bindings[i..] == GroupClosures(g) + rest.value.0;
    assert t.bindings[i..i + count] == t.bindings[i..][..count];
    assert t.bindings[i + count..] == t.bindings[i..][count..];
  }

  lemma GroupRelated(
    F: seq<Fun>, e: Expr, i: nat, count: nat, t: Expr, g: Group, callable: map<nat, RecursiveFunction>, taken: set<nat>,
    scope: set<nat>)
    requires e.Block? && t.Block? && |t.bindings| == |e.bindings| && i < |e.bindings|
    requires GroupLen(e.bindings, i) == Members(count) && count > 0 && g.members == e.bindings[i..i + count]
    requires GroupAt(g, callable, taken, scope) && GroupLifted(F, g)
    requires t.bindings[i..i + count] == GroupClosures(g)
    ensures RelHead(F, g.unit, PlainCtx(callable), e, t, i)
    ensures CtxAfter(F, PlainCtx(callable), e, t, i) == AfterGroup(PlainCtx(callable), g)
  {
    hide GroupOf, Rel, CallOk, GroupHeader, AfterGroup;
    var closures := t.bindings[i..i + count];
    var ctx := PlainCtx(callable);
    assert RewriteAtBindings(ctx, g.captured) == AtBindings(g.captured);
    assert closures[0] == t.bindings[i];
    assert LiftedAs(F, g, 0);
    forall j | 0 <= j < count ensures ClosureFor(F, ctx, g, g.members[j], closures[j], j) {
      assert LiftedAs(F, g, j);
    }
  }

  /** The function reserved for a member takes the group's captures and then the member's parameters. */
  ghost predicate MemberLifts(F: seq<Fun>, g: Group, j: nat)
    requires j < |g.members|
  {
    Lifts(F, g.members[j].local.id, RecursiveFunction(g.first + j, g.captured, g.boundIn))
  }

  lemma DirectLifts(F: seq<Fun>, g: Group, callable: map<nat, RecursiveFunction>, taken: set<nat>, scope: set<nat>)
    requires GroupAt(g, callable, taken, scope) && AllLift(F, callable)
    requires forall j | 0 <= j < |g.members| :: MemberLifts(F, g, j)
    ensures AllLift(F, g.direct) && AllLift(F, AfterGroup(PlainCtx(callable), g).callable)
  {
    hide Lifts, GroupAt, AfterGroup;
    forall x | x in g.direct ensures Lifts(F, x, g.direct[x]) {
      DirectIs(g, callable, taken, scope, x);
      if x in BoundIds(g.members) {
        var j :| 0 <= j < |g.members| && g.direct[x] == RecursiveFunction(g.first + j, g.captured, g.boundIn)
          && g.members[j].local.id == x;
        assert MemberLifts(F, g, j);
      }
    }
    var callable' := AfterGroup(PlainCtx(callable), g).callable;
    forall x | x in callable' ensures Lifts(F, x, callable'[x]) {
      CallableIs(g, callable, taken, scope, x);
      if !(x in callable && callable'[x] == callable[x]) {
        var j :| 0 <= j < |g.members| && callable'[x] == RecursiveFunction(g.first + j, g.captured, g.boundIn)
          && g.members[j].local.id == x;
        assert MemberLifts(F, g, j);
      }
    }
  }

  lemma DirectIs(g: Group, callable: map<nat, RecursiveFunction>, taken: set<nat>, scope: set<nat>, x: nat)
    requires GroupAt(g, callable, taken, scope) && x in g.direct
    ensures if x in BoundIds(g.members)
            then exists j | 0 <= j < |g.members| ::
                   g.direct[x] == RecursiveFunction(g.first + j, g.captured, g.boundIn) && g.members[j].local.id == x
            else x in callable && g.direct[x] == callable[x]
  {
    DirectOf(g.members, g.first, callable, g.boundIn, g.unit);
    if x in BoundIds(g.members) {
      var j :| 0 <= j < |g.members| && g.members[j].local.id == x;
    }
  }

  lemma CallableIs(g: Group, callable: map<nat, RecursiveFunction>, taken: set<nat>, scope: set<nat>, x: nat)
    requires GroupAt(g, callable, taken, scope) && x in AfterGroup(PlainCtx(callable), g).callable
    ensures var f := AfterGroup(PlainCtx(callable), g).callable[x];
            || (x in callable && f == callable[x])
            || (exists j | 0 <= j < |g.members| ::
                  f == RecursiveFunction(g.first + j, g.captured, g.boundIn) && g.members[j].local.id == x)
  {
    hide GroupOf;
    BindEachAt(callable, g.members, LiftedFunctions(|g.members|, g.first, g.captured, g.boundIn));
    if x in BoundIds(g.members) {
      var j :| 0 <= j < |g.members| && g.members[j].local.id == x;
    }
  }

  lemma LiftedTogether(
    P: seq<Fun>, F: seq<Fun>, e: Expr, i: nat, g: Group, st0: State, taken: set<nat>, scope: set<nat>)
    requires GroupInBlock(e, i, g, taken, scope)
    requires LowerMembers(e, i, g, 0, st0).Lowered? && Agree(F, LowerMembers(e, i, g, 0, st0).state.functions, g.first)
    requires MembersReady(P, e, i, g, 0, st0, taken, scope)
    ensures GroupLifted(F, g) && forall j | 0 <= j < |g.members| :: MemberLifts(F, g, j)
  {
    hide MembersReady, LowerMembers, Reserving;
    MembersParts(P, e, i, g, 0, st0, taken, scope);
    MembersEnd(P, e, i, g, 0, st0, taken, scope);
    var st1 := LowerMembers(e, i, g, 0, st0).state;
    forall j | 0 <= j < |g.members| ensures LiftedAs(F, g, j) && MemberLifts(F, g, j) {
      MembersReserve(P, e, i, g, |g.members|, st1, taken, scope, j);
    }
  }

  lemma GroupNew(P: seq<Fun>, F: seq<Fun>, g: Group, size: nat, end: nat)
    requires forall k | 0 <= k < |g.members| :: MemberMade(P, F, g, k)
    requires NewOk(P, F, size, end) && size == g.first + |g.members|
    ensures NewOk(P, F, g.first, end)
  {
    hide FunOk;
    forall fid | g.first <= fid < end ensures FunOk(P, F, fid) {
      if fid < size {
        assert MemberMade(P, F, g, fid - g.first);
      }
    }
  }

  lemma NewOkJoin(P: seq<Fun>, F: seq<Fun>, a: nat, b: nat, c: nat)
    requires NewOk(P, F, a, b) && NewOk(P, F, b, c)
    ensures NewOk(P, F, a, c)
  {
    hide FunOk;
  }

  lemma {:induction false} GroupSound(
    P: seq<Fun>, F: seq<Fun>, e: Expr, i: nat, st: State, callable: map<nat, RecursiveFunction>, taken: set<nat>,
    scope: set<nat>,
    own: set<nat>, t: Expr)
    requires AllLift(F, callable)
    requires e.Block? && i < |e.bindings|
    requires BlockLowerable(P, e, i, st, callable, taken, scope, own) && Makes(F, e, i, st, t)
    requires GroupLen(e.bindings, i) != Members(0)
    ensures RelBlock(F, st.unit, PlainCtx(callable), e, t, i)
    ensures NewOk(P, F, |st.functions|, |LowerBlock(e, i, st).state.functions|)
    decreases e, 1, |e.bindings| - i, 1
  {
    hide BlockLowerable, LowerBlock, LowerGroup, AllLift, MemberLifts, LowerMembers, GroupLen, GroupOf, GroupAt,
      GroupInBlock, MembersReady, AfterGroup, Reserve,
      NewOk, GroupLifted, RelHead, CtxAfter, Grown, ScopedBlock, MemberMade, Rel, Width, GroupClosures;
    var count, g := GroupHead(P, e, i, st, callable, taken, scope, own);
    var names := BoundIds(g.members);
    var st0 := Reserve(st, g);
    GroupFirst(P, e, i, count, g, st, callable, taken, scope, own);
    GroupDone(P, e, i, count, g, st, callable, taken, scope, own);
    var st1 := LowerGroup(e, i, count, st).state;
    var next := AfterGroup(PlainCtx(callable), g);
    BlockSplit(F, e, i, count, g, st, t);
    GroupAgree(P, F, e, i, count, g, st, st1, next.callable, taken, scope, own);
    LiftedTogether(P, F, e, i, g, st0, taken, scope);
    DirectLifts(F, g, callable, taken, scope);
    MembersSound(P, F, e, i, g, 0, st0, taken, scope);
    GroupNew(P, F, g, |st0.functions|, |st1.functions|);
    GroupRelated(F, e, i, count, t, g, callable, taken, scope);
    BlockSound(P, F, e, i + count, st1, next.callable, taken + names, scope + names, own + names, t);
    NewOkJoin(P, F, |st.functions|, |st1.functions|, |LowerBlock(e, i, st).state.functions|);
  }

  lemma GroupAgree(
    P: seq<Fun>, F: seq<Fun>, e: Expr, i: nat, count: nat, g: Group, st: State, st1: State,
    callable: map<nat, RecursiveFunction>,
    taken: set<nat>, scope: set<nat>, own: set<nat>)
    requires e.Block? && i + count <= |e.bindings|
    requires (forall k | i <= k < i + count :: e.bindings[k].value.Lambda?) && g == BlockGroup(e, i, count, st)
    requires var names := BoundIds(g.members);
             BlockLowerable(P, e, i + count, st1, callable, taken + names, scope + names, own + names)
    requires LowerBlock(e, i + count, st1).Lowered?
    requires Agree(F, LowerBlock(e, i + count, st1).state.functions, |st.functions|)
             && |st.functions| <= |st1.functions|
    ensures Agree(F, st1.functions, |st.functions|)
            && Agree(F, LowerBlock(e, i + count, st1).state.functions, |st1.functions|)
    ensures |st.functions| == g.first && |Reserve(st, g).functions| == g.first + |g.members|
  {
    hide Scoped, UniqueIds, OnlyMutates, HasGroup, CallOk, Binders, Children, LowerBlock, ScopedBlock, Agree;
    var names := BoundIds(g.members);
    BlockGrows(e, i + count, st1, taken + names, scope + names, own + names);
    AgreeParts(F, st, st1, LowerBlock(e, i + count, st1).state, taken + names);
  }
}

/**
  Lowering a well-scoped program always succeeds: it appends functions, registers the `let rec`
  functions that it meets, and leaves everything else as it was.
 */
module LetRecGrowth {
  import opened LetRecSyntax
  import opened LetRecEval
  import opened LetRecLowering
  import opened LetRecRelation
  import opened LetRecBinding

  // ----- what lowering leaves alone -----

  ghost predicate BoundBefore(st: State) {
    st.frame.id <= st.frames && forall x | x in st.recursive :: st.recursive[x].boundIn <= st.frames
  }

  /** The names in `taken` mean what they meant. */
  ghost predicate SameNames(st: State, st1: State, taken: set<nat>) {
    forall x | x in taken ::
      (x in st1.recursive <==> x in st.recursive) && (x in st.recursive ==> st1.recursive[x] == st.recursive[x])
  }

  /** Lowering has only added functions after the first `n`, and knows nothing new about `taken`. */
  ghost predicate Grown(st: State, st1: State, taken: set<nat>, n: nat) {
    && n <= |st.functions| <= |st1.functions|
    && (forall k | 0 <= k < n :: st1.functions[k] == st.functions[k])
    && st1.frame == st.frame && st1.mutated == st.mutated && st1.unit == st.unit
    && st.frames <= st1.frames && BoundBefore(st1)
    && SameNames(st, st1, taken)
  }

  lemma GrownTwice(st: State, st1: State, st2: State, taken: set<nat>, taken': set<nat>, n: nat, n': nat)
    requires Grown(st, st1, taken, n) && Grown(st1, st2, taken', n') && taken <= taken' && n <= n'
    ensures Grown(st, st2, taken, n)
  {
  }

  ghost predicate Lowers<T>(r: Outcome<T>, st: State, taken: set<nat>) {
    r.Lowered? && Grown(st, r.state, taken, |st.functions|)
  }

  lemma {:induction false} LowerGrows(e: Expr, st: State, taken: set<nat>, scope: set<nat>, own: set<nat>)
    requires Scoped(st.unit, taken, scope, own, e) && BoundBefore(st)
    ensures Lowers(LowerExpr(e, st), st, taken)
    decreases e, 1
  {
    match e
    case Literal(_) =>
    case Var(_, _) =>
    case FunctionRef(_) =>
    case Binary(_, left, right) => LowerTwo(e, left, right, st, taken, scope, own);
    case Pipe(argument, piped) => LowerTwo(e, argument, piped, st, taken, scope, own);
    case Call(callee, arguments) =>
      LowerGrows(callee, st, taken, scope, own);
      var st1 := LowerExpr(callee, st).state;
      LowerAllGrows(arguments, st1, taken, scope, own);
      GrownTwice(st, st1, LowerAll(arguments, st1).state, taken, taken, |st.functions|, |st1.functions|);
    case If(condition, thenBranch, elseBranch) =>
      LowerTwo(e, condition, thenBranch, st, taken, scope, own);
      var st2 := LowerExpr(thenBranch, LowerExpr(condition, st).state).state;
      LowerGrows(elseBranch, st2, taken, scope, own);
      GrownTwice(st, st2, LowerExpr(elseBranch, st2).state, taken, taken, |st.functions|, |st2.functions|);
    case Lambda(parameters, captures, body, _, _) =>
      LowerGrows(body, EnterFrame(st, {}), taken + IdSet(parameters), IdSet(captures) + IdSet(parameters),
                 IdSet(parameters));
    case Closure(_, _, _) => assert false;
    case Block(_, _) => BlockGrows(e, 0, st, taken, scope, own);
    case Assign(target, newValue) => LowerTwo(e, target, newValue, st, taken, scope, own);
    case Borrow(place, _) => LowerGrows(place, st, taken, scope, own);
    case Deref(reference) => LowerGrows(reference, st, taken, scope, own);
  }

  lemma {:induction false} LowerTwo(
    e: Expr, first: Expr, second: Expr, st: State, taken: set<nat>, scope: set<nat>, own: set<nat>)
    requires first in Children(e) && second in Children(e)
    requires Scoped(st.unit, taken, scope, own, first) && Scoped(st.unit, taken, scope, own, second) && BoundBefore(st)
    ensures Lowers(LowerExpr(first, st), st, taken)
    ensures Lowers(LowerExpr(second, LowerExpr(first, st).state), LowerExpr(first, st).state, taken)
    ensures Grown(st, LowerExpr(second, LowerExpr(first, st).state).state, taken, |st.functions|)
    decreases e, 0
  {
    LowerGrows(first, st, taken, scope, own);
    var st1 := LowerExpr(first, st).state;
    LowerGrows(second, st1, taken, scope, own);
    GrownTwice(st, st1, LowerExpr(second, st1).state, taken, taken, |st.functions|, |st1.functions|);
  }

  lemma {:induction false} LowerAllGrows(es: seq<Expr>, st: State, taken: set<nat>, scope: set<nat>, own: set<nat>)
    requires ScopedAll(st.unit, taken, scope, own, es) && BoundBefore(st)
    ensures Lowers(LowerAll(es, st), st, taken)
    decreases es
  {
    if es != [] {
      LowerGrows(es[0], st, taken, scope, own);
      var st1 := LowerExpr(es[0], st).state;
      LowerAllGrows(es[1..], st1, taken, scope, own);
      GrownTwice(st, st1, LowerAll(es[1..], st1).state, taken, taken, |st.functions|, |st1.functions|);
    }
  }

  lemma {:induction false} BlockGrows(block: Expr, i: nat, st: State, taken: set<nat>, scope: set<nat>, own: set<nat>)
    requires block.Block? && i <= |block.bindings|
    requires ScopedBlock(st.unit, taken, scope, own, block, i) && BoundBefore(st)
    ensures Lowers(LowerBlock(block, i, st), st, taken)
    decreases block, 0, |block.bindings| - i
  {
    if i == |block.bindings| {
      LowerGrows(block.result, st, taken, scope, own);
    } else if GroupLen(block.bindings, i) == Members(0) {
      var names := HeadNames(block.bindings, i);
      PlainName(block.bindings, i);
      LowerGrows(block.bindings[i].value, st, taken, scope, own);
      var st1 := LowerExpr(block.bindings[i].value, st).state;
      BlockGrows(block, i + 1, st1, taken + names, scope + names, own + names);
      GrownTwice(st, st1, LowerBlock(block, i + 1, st1).state, taken, taken + names, |st.functions|, |st1.functions|);
    } else {
      GroupGrows(block, i, st, taken, scope, own);
    }
  }

  lemma ReserveGrows(st: State, group: Group, taken: set<nat>)
    requires forall k | 0 <= k < |group.members| :: group.members[k].value.Lambda?
    requires BoundBefore(st) && BoundIds(group.members) !! taken && DistinctNames(group.members)
    ensures Grown(st, Reserve(st, group), taken, |st.functions|)
    ensures |Reserve(st, group).functions| == |st.functions| + |group.members|
    ensures forall j | 0 <= j < |group.members| ::
              Reserve(st, group).functions[|st.functions| + j] == LiftedMember(group, j, Literal(0))
  {
    var lifted := LiftedFunctions(|group.members|, group.first, group.captured, st.frame.id);
    BindEachAt(st.recursive, group.members, lifted);
    forall x | x in Reserve(st, group).recursive ensures Reserve(st, group).recursive[x].boundIn <= st.frames {
      if x in BoundIds(group.members) {
        var k :| 0 <= k < |group.members| && group.members[k].local.id == x;
      }
    }
  }

  lemma {:induction false} GroupGrows(block: Expr, i: nat, st: State, taken: set<nat>, scope: set<nat>, own: set<nat>)
    requires block.Block? && i < |block.bindings|
    requires ScopedBlock(st.unit, taken, scope, own, block, i) && BoundBefore(st)
    requires GroupLen(block.bindings, i) != Members(0)
    ensures Lowers(LowerBlock(block, i, st), st, taken)
    decreases block, 0, |block.bindings| - i, 1
  {
    hide ScopedBlock, ScopedHead, GroupInBlock, Grown, BoundBefore, GroupOf, LowerGroup, GroupLen, HeadNames, BoundIds,
      Width;
    BlockParts(st.unit, taken, scope, own, block, i);
    HeadIsGroup(st.unit, taken, scope, own, block, i);
    var count := GroupLen(block.bindings, i).count;
    var names := HeadNames(block.bindings, i);
    HeadInBlock(block, i, count, BlockGroup(block, i, count, st), taken, scope, own);
    LowerGroupGrows(block, i, count, st, taken, scope);
    var st1 := LowerGroup(block, i, count, st).state;
    GrownBound(st, st1, taken, |st.functions|);
    BlockGrows(block, i + count, st1, taken + names, scope + names, own + names);
    GrownTwice(st, st1, LowerBlock(block, i + count, st1).state, taken, taken + names, |st.functions|, |st1.functions|);
  }

  lemma {:induction false} LowerGroupGrows(block: Expr, i: nat, count: nat, st: State, taken: set<nat>, scope: set<nat>)
    requires block.Block? && i + count <= |block.bindings| && BoundBefore(st)
    requires forall k | i <= k < i + count :: block.bindings[k].value.Lambda?
    requires GroupInBlock(block, i, BlockGroup(block, i, count, st), taken, scope)
    ensures Lowers(LowerGroup(block, i, count, st), st, taken)
    decreases block, 0, |block.bindings| - i, 0
  {
    var group := BlockGroup(block, i, count, st);
    var names := BoundIds(group.members);
    NamesFresh(st.unit, taken, scope, group.members);
    ReserveGrows(st, group, taken);
    hide GroupInBlock, Grown, GroupOf, Reserve, GroupHeader, LowerMembers;
    GrownBound(st, Reserve(st, group), taken, |st.functions|);
    MembersGrow(block, i, group, 0, Reserve(st, group), taken, scope);
    GrownTwice(st, Reserve(st, group), LowerMembers(block, i, group, 0, Reserve(st, group)).state, taken, taken + names,
               |st.functions|, |st.functions|);
  }

  lemma GrownBound(st: State, st1: State, taken: set<nat>, n: nat)
    requires Grown(st, st1, taken, n)
    ensures BoundBefore(st1) && st1.unit == st.unit && n <= |st1.functions| && st1.mutated == st.mutated
            && st1.frame == st.frame
  {
  }

  lemma BlockParts(unit: Unit, taken: set<nat>, scope: set<nat>, own: set<nat>, block: Expr, i: nat)
    requires block.Block? && i < |block.bindings| && ScopedBlock(unit, taken, scope, own, block, i)
    ensures ScopedHead(unit, taken, scope, own, block, i)
    ensures var names := HeadNames(block.bindings, i);
            ScopedBlock(unit, taken + names, scope + names, own + names, block, i + Width(block.bindings, i))
  {
    hide Scoped, ScopedHead, GroupLen, HeadNames;
  }

  lemma HeadIsGroup(unit: Unit, taken: set<nat>, scope: set<nat>, own: set<nat>, block: Expr, i: nat)
    requires block.Block? && i < |block.bindings| && ScopedHead(unit, taken, scope, own, block, i)
    requires GroupLen(block.bindings, i) != Members(0)
    ensures GroupLen(block.bindings, i).Members? && GroupLen(block.bindings, i).count > 0
    ensures Width(block.bindings, i) == GroupLen(block.bindings, i).count
    ensures HeadNames(block.bindings, i) == BoundIds(block.bindings[i..i + GroupLen(block.bindings, i).count])
  {
  }

  lemma HeadInBlock(block: Expr, i: nat, count: nat, group: Group, taken: set<nat>, scope: set<nat>, own: set<nat>)
    requires block.Block? && i < |block.bindings| && GroupLen(block.bindings, i) == Members(count) && count > 0
    requires group.members == block.bindings[i..i + count]
    requires ScopedHead(group.unit, taken, scope, own, block, i)
    ensures GroupInBlock(block, i, group, taken, scope)
  {
    hide Scoped, GroupHeader, GroupLen;
    forall j | 0 <= j < |group.members| ensures group.members[j] == block.bindings[i + j] {}
  }

  /** The members of `group` are the well-scoped bindings of `block` from `i` on. */
  ghost predicate GroupInBlock(block: Expr, i: nat, group: Group, taken: set<nat>, scope: set<nat>) {
    && block.Block? && i + |group.members| <= |block.bindings|
    && group.members == block.bindings[i..i + |group.members|]
    && (forall k | 0 <= k < |group.members| :: group.members[k].value.Lambda?)
    && GroupHeader(group.unit, taken, scope, group.members)
    && (forall j | 0 <= j < |group.members| ::
          var lambda := group.members[j].value;
          Scoped(group.unit, taken + BoundIds(group.members) + IdSet(lambda.parameters),
                 IdSet(GroupCaptures(group.members)) + BoundIds(group.members) + IdSet(lambda.parameters),
                 IdSet(lambda.parameters), lambda.body))
  }

  /** The functions reserved for `group`, with or without their bodies. */
  ghost predicate Reserving(group: Group, functions: seq<Fun>)
    requires forall k | 0 <= k < |group.members| :: group.members[k].value.Lambda?
  {
    && group.first + |group.members| <= |functions|
    && (forall j | 0 <= j < |group.members| :: ReservedAt(group, functions, j))
  }

  ghost predicate ReservedAt(group: Group, functions: seq<Fun>, j: nat)
    requires j < |group.members| && group.members[j].value.Lambda? && group.first + j < |functions|
  {
    functions[group.first + j] == LiftedMember(group, j, functions[group.first + j].body)
  }

  lemma {:induction false} MembersGrow(
    block: Expr, i: nat, group: Group, j: nat, st: State, taken: set<nat>, scope: set<nat>)
    requires GroupInBlock(block, i, group, taken, scope) && j <= |group.members| && group.unit == st.unit
    requires BoundBefore(st) && group.first + |group.members| <= |st.functions|
    ensures var r := LowerMembers(block, i, group, j, st);
            r.Lowered? && Grown(st, r.state, taken + BoundIds(group.members), group.first)
    decreases block, 0, |block.bindings| - i, 0, |group.members| - j
  {
    hide Grown, LowerMember, BoundIds, LowerExpr, GroupInBlock, BoundBefore;
    BlockOfGroup(block, i, group, taken, scope);
    GrownNone(st, taken + BoundIds(group.members), group.first);
    if j < |group.members| {
      var names := BoundIds(group.members);
      MemberInBlock(block, i, group, j, taken, scope);
      assert group.members[j] == block.bindings[i + j];
      MemberGrows(group, j, st, taken);
      var st1 := LowerMember(group, j, st).state;
      GrownBound(st, st1, taken + names, group.first);
      MembersGrow(block, i, group, j + 1, st1, taken, scope);
      GrownTwice(st, st1, LowerMembers(block, i, group, j + 1, st1).state, taken + names, taken + names, group.first,
                 group.first);
    }
  }

  lemma BlockOfGroup(block: Expr, i: nat, group: Group, taken: set<nat>, scope: set<nat>)
    requires GroupInBlock(block, i, group, taken, scope)
    ensures block.Block? && i + |group.members| <= |block.bindings|
            && group.members == block.bindings[i..i + |group.members|]
    ensures forall k | 0 <= k < |group.members| :: group.members[k].value.Lambda?
  {
  }

  lemma GrownNone(st: State, taken: set<nat>, n: nat)
    requires BoundBefore(st) && n <= |st.functions|
    ensures Grown(st, st, taken, n)
  {
  }

  /** The body of a member is well-scoped. */
  ghost predicate MemberScoped(group: Group, j: nat, taken: set<nat>)
    requires j < |group.members| && (forall k | 0 <= k < |group.members| :: group.members[k].value.Lambda?)
  {
    var lambda := group.members[j].value;
    Scoped(group.unit, taken + BoundIds(group.members) + IdSet(lambda.parameters),
           IdSet(GroupCaptures(group.members)) + BoundIds(group.members) + IdSet(lambda.parameters),
           IdSet(lambda.parameters), lambda.body)
  }

  lemma MemberInBlock(block: Expr, i: nat, group: Group, j: nat, taken: set<nat>, scope: set<nat>)
    requires GroupInBlock(block, i, group, taken, scope) && j < |group.members|
    ensures group.members[j] == block.bindings[i + j] && MemberScoped(group, j, taken)
  {
  }

  lemma {:induction false} MemberGrows(group: Group, j: nat, st: State, taken: set<nat>)
    requires j < |group.members| && group.unit == st.unit
    requires forall k | 0 <= k < |group.members| :: group.members[k].value.Lambda?
    requires MemberScoped(group, j, taken)
    requires BoundBefore(st) && group.first + |group.members| <= |st.functions|
    ensures var r := LowerMember(group, j, st);
            r.Lowered? && Grown(st, r.state, taken + BoundIds(group.members), group.first)
            && |st.functions| <= |r.state.functions|
    decreases group.members[j].value.body, 2
  {
    var names := BoundIds(group.members);
    var lambda := group.members[j].value;
    LowerGrows(lambda.body, EnterFrame(st, group.direct.Keys), taken + names + IdSet(lambda.parameters),
               IdSet(GroupCaptures(group.members)) + names + IdSet(lambda.parameters), IdSet(lambda.parameters));
  }

  // ----- the functions reserved for a group -----

  /** The functions outside `[low, high)` are as they were. */
  ghost predicate Untouched(before: seq<Fun>, after: seq<Fun>, low: nat, high: nat) {
    |before| <= |after| && forall k | 0 <= k < |before| && (k < low || high <= k) :: after[k] == before[k]
  }

  /** Lowering a member changes the body reserved for it and nothing else. */
  lemma MemberSlot(group: Group, j: nat, st: State, taken: set<nat>)
    requires j < |group.members| && group.unit == st.unit
    requires forall k | 0 <= k < |group.members| :: group.members[k].value.Lambda?
    requires MemberScoped(group, j, taken)
    requires BoundBefore(st) && Reserving(group, st.functions)
    ensures var r := LowerMember(group, j, st);
            && r.Lowered? && Untouched(st.functions, r.state.functions, group.first + j, group.first + j + 1)
            && Reserving(group, r.state.functions)
  {
    var names := BoundIds(group.members);
    var lambda := group.members[j].value;
    LowerGrows(lambda.body, EnterFrame(st, group.direct.Keys), taken + names + IdSet(lambda.parameters),
               IdSet(GroupCaptures(group.members)) + names + IdSet(lambda.parameters), IdSet(lambda.parameters));
    var after := LowerMember(group, j, st).state.functions;
    forall k | 0 <= k < |group.members| ensures ReservedAt(group, after, k) {
      assert ReservedAt(group, st.functions, k);
    }
  }

  lemma {:induction false} MembersSlots(
    block: Expr, i: nat, group: Group, j: nat, st: State, taken: set<nat>, scope: set<nat>)
    requires GroupInBlock(block, i, group, taken, scope) && j <= |group.members| && group.unit == st.unit
    requires BoundBefore(st) && Reserving(group, st.functions)
    ensures var r := LowerMembers(block, i, group, j, st);
            && r.Lowered? && Untouched(st.functions, r.state.functions, group.first + j, group.first + |group.members|)
            && Reserving(group, r.state.functions)
    decreases |group.members| - j
  {
    if j < |group.members| {
      hide Grown, BoundBefore, LowerMember, BoundIds, LowerExpr, Reserving;
      MemberInBlock(block, i, group, j, taken, scope);
      assert group.members[j] == block.bindings[i + j];
      ReservingFits(group, st.functions);
      MemberGrows(group, j, st, taken);
      MemberSlot(group, j, st, taken);
      var st1 := LowerMember(group, j, st).state;
      GrownBound(st, st1, taken + BoundIds(group.members), group.first);
      MembersSlots(block, i, group, j + 1, st1, taken, scope);
    }
  }

  lemma ReservingFits(group: Group, functions: seq<Fun>)
    requires forall k | 0 <= k < |group.members| :: group.members[k].value.Lambda?
    requires Reserving(group, functions)
    ensures group.first + |group.members| <= |functions|
  {
  }

  // ----- what lowering registers -----

  ghost predicate Registers(st: State, st1: State, more: set<nat>) {
    st1.recursive.Keys <= st.recursive.Keys + more
  }

  lemma {:induction false} LowerRegisters(e: Expr, st: State)
    ensures LowerExpr(e, st).Lowered? ==> Registers(st, LowerExpr(e, st).state, Binders(e))
    decreases e, 1
  {
    if LowerExpr(e, st).Lowered? {
      match e
      case Literal(_) =>
      case Var(_, _) =>
      case FunctionRef(_) =>
      case Binary(_, left, right) => TwoRegister(e, left, right, st);
      case Pipe(argument, piped) => TwoRegister(e, argument, piped, st);
      case Call(callee, arguments) =>
        assert callee in Children(e) && forall c | c in arguments :: c in Children(e);
        LowerRegisters(callee, st);
        AllRegister(e, arguments, LowerExpr(callee, st).state);
        ChildBinders(e, callee);
      case If(condition, thenBranch, elseBranch) =>
        assert elseBranch in Children(e);
        TwoRegister(e, condition, thenBranch, st);
        LowerRegisters(elseBranch, LowerExpr(thenBranch, LowerExpr(condition, st).state).state);
        ChildBinders(e, elseBranch);
      case Lambda(_, _, body, _, _) =>
        assert body in Children(e);
        LowerRegisters(body, EnterFrame(st, {}));
        ChildBinders(e, body);
      case Closure(_, values, _) => AllRegister(e, values, st);
      case Block(_, _) => BlockRegisters(e, 0, st);
      case Assign(target, newValue) => TwoRegister(e, target, newValue, st);
      case Borrow(place, _) =>
        assert place in Children(e);
        LowerRegisters(place, st);
        ChildBinders(e, place);
      case Deref(reference) =>
        assert reference in Children(e);
        LowerRegisters(reference, st);
        ChildBinders(e, reference);
    }
  }

  lemma {:induction false} TwoRegister(e: Expr, first: Expr, second: Expr, st: State)
    requires first in Children(e) && second in Children(e)
    requires LowerExpr(first, st).Lowered? && LowerExpr(second, LowerExpr(first, st).state).Lowered?
    ensures Registers(st, LowerExpr(second, LowerExpr(first, st).state).state, Binders(e))
    decreases e, 0
  {
    LowerRegisters(first, st);
    LowerRegisters(second, LowerExpr(first, st).state);
    ChildBinders(e, first);
    ChildBinders(e, second);
  }

  lemma {:induction false} AllRegister(e: Expr, es: seq<Expr>, st: State)
    requires (forall c | c in es :: c in Children(e)) && LowerAll(es, st).Lowered?
    ensures Registers(st, LowerAll(es, st).state, Binders(e))
    decreases e, 0, |es|
  {
    if es != [] {
      assert es[0] in Children(e);
      LowerRegisters(es[0], st);
      ChildBinders(e, es[0]);
      AllRegister(e, es[1..], LowerExpr(es[0], st).state);
    }
  }

  lemma {:induction false} BlockRegisters(e: Expr, i: nat, st: State)
    requires e.Block? && i <= |e.bindings| && LowerBlock(e, i, st).Lowered?
    ensures Registers(st, LowerBlock(e, i, st).state, Binders(e))
    decreases e, 0, |e.bindings| - i
  {
    hide LowerExpr, LowerGroup, Binders;
    if i == |e.bindings| {
      assert Children(e)[|e.bindings|] == e.result;
      LowerRegisters(e.result, st);
      ChildBinders(e, e.result);
    } else {
      var count := GroupLen(e.bindings, i).count;
      if count == 0 {
        assert Children(e)[i] == e.bindings[i].value;
        LowerRegisters(e.bindings[i].value, st);
        ChildBinders(e, e.bindings[i].value);
        BlockRegisters(e, i + 1, LowerExpr(e.bindings[i].value, st).state);
      } else {
        GroupRegisters(e, i, count, st);
        BlockRegisters(e, i + count, LowerGroup(e, i, count, st).state);
      }
    }
  }

  lemma {:induction false} GroupRegisters(e: Expr, i: nat, count: nat, st: State)
    requires e.Block? && i + count <= |e.bindings|
    requires forall k | i <= k < i + count :: e.bindings[k].value.Lambda?
    requires LowerGroup(e, i, count, st).Lowered?
    ensures Registers(st, LowerGroup(e, i, count, st).state, Binders(e))
    decreases e, 0, 0, 1
  {
    var group := BlockGroup(e, i, count, st);
    ReserveRegisters(e, i, count, st, group);
    MembersRegister(e, i, group, 0, Reserve(st, group));
  }

  lemma ReserveRegisters(e: Expr, i: nat, count: nat, st: State, group: Group)
    requires e.Block? && i + count <= |e.bindings| && group.members == e.bindings[i..i + count]
    requires forall k | 0 <= k < |group.members| :: group.members[k].value.Lambda?
    ensures Registers(st, Reserve(st, group), BoundIds(group.members)) && BoundIds(group.members) <= NodeBinders(e)
  {
    var lifted := LiftedFunctions(|group.members|, group.first, group.captured, st.frame.id);
    forall x | x in Reserve(st, group).recursive ensures x in st.recursive || x in BoundIds(group.members) {
      BindEachOne(st.recursive, group.members, lifted, x);
    }
    forall x | x in BoundIds(group.members) ensures x in BoundIds(e.bindings) {
      var k :| 0 <= k < |group.members| && group.members[k].local.id == x;
      assert e.bindings[i + k].local.id == x;
    }
  }

  lemma {:induction false} MemberRegisters(group: Group, j: nat, st: State)
    requires j < |group.members| && group.members[j].value.Lambda? && LowerMember(group, j, st).Lowered?
    ensures Registers(st, LowerMember(group, j, st).state, Binders(group.members[j].value))
    decreases group.members[j].value, 0
  {
    var lambda := group.members[j].value;
    assert lambda.body in Children(lambda);
    ChildBinders(lambda, lambda.body);
    LowerRegisters(lambda.body, EnterFrame(st, group.direct.Keys));
  }

  lemma {:induction false} MembersRegister(e: Expr, i: nat, group: Group, j: nat, st: State)
    requires e.Block? && i + |group.members| <= |e.bindings| && j <= |group.members|
    requires group.members == e.bindings[i..i + |group.members|]
    requires forall k | 0 <= k < |group.members| :: group.members[k].value.Lambda?
    requires LowerMembers(e, i, group, j, st).Lowered?
    ensures Registers(st, LowerMembers(e, i, group, j, st).state, Binders(e))
    decreases e, 0, 0, 0, |group.members| - j
  {
    if j < |group.members| {
      var lambda := group.members[j].value;
      assert lambda == e.bindings[i + j].value == Children(e)[i + j];
      ChildBinders(e, lambda);
      MemberRegisters(group, j, st);
      MembersRegister(e, i, group, j + 1, LowerMember(group, j, st).state);
    }
  }

  // ----- names that are still to come -----

  /** Nothing that the values from `v` on or the names from `n` on bind is registered yet. */
  ghost predicate Ahead(e: Expr, v: nat, n: nat, st: State)
    requires e.Block?
  {
    && UniqueIds(e)
    && (forall k | v <= k < |Children(e)| :: Binders(Children(e)[k]) !! st.recursive.Keys)
    && (forall k | n <= k < |e.bindings| :: e.bindings[k].local.id !in st.recursive)
  }

  lemma NameBinder(e: Expr, k: nat)
    requires e.Block? && k < |e.bindings|
    ensures e.bindings[k].local.id in NodeBinders(e) && |Children(e)| == |e.bindings| + 1
            && Children(e)[k] == e.bindings[k].value
  {
  }

  lemma AheadValue(e: Expr, v: nat, n: nat, st: State, st1: State)
    requires e.Block? && v < |Children(e)| && Ahead(e, v, n, st) && Registers(st, st1, Binders(Children(e)[v]))
    ensures Ahead(e, v + 1, n, st1)
  {
    forall k | n <= k < |e.bindings| ensures e.bindings[k].local.id !in st1.recursive {
      NameBinder(e, k);
      assert Children(e)[v] in Children(e);
    }
  }

  lemma AheadNames(e: Expr, i: nat, n: nat, st: State, st1: State)
    requires e.Block? && i <= n <= |e.bindings| && Ahead(e, i, i, st)
    requires Registers(st, st1, BoundIds(e.bindings[i..n]))
    ensures Ahead(e, i, n, st1)
  {
    forall x | x in BoundIds(e.bindings[i..n]) ensures x in NodeBinders(e) {
      var k :| 0 <= k < n - i && e.bindings[i..n][k].local.id == x;
      NameBinder(e, i + k);
    }
    forall k | i <= k < |Children(e)| ensures Binders(Children(e)[k]) !! st1.recursive.Keys {
      assert Children(e)[k] in Children(e);
    }
    forall k | n <= k < |e.bindings| ensures e.bindings[k].local.id !in st1.recursive {
      if e.bindings[k].local.id in BoundIds(e.bindings[i..n]) {
        var m :| 0 <= m < n - i && e.bindings[i..n][m].local.id == e.bindings[k].local.id;
        assert e.bindings[i + m].local.id == e.bindings[k].local.id;
      }
    }
  }
}

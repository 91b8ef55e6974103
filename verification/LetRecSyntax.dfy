/**
  The checked expressions that closure lowering reads and writes: locals, calls, pipes, lambdas with
  their capture lists, `let rec` groups, closures of lifted functions, blocks, assignment, borrow and
  dereference. Local ids are unique within one function of the program.
 */
module LetRecSyntax {

  /** A type, seen through the two questions that lowering asks about it. */
  datatype Ty =
    | Plain(name: nat, copy: bool, drop: bool)
    | Function(parameters: seq<Ty>, result: Ty)
    | Reference(inner: Ty, mutable: bool)
  {
    predicate IsCopy() {
      match this
      case Plain(_, copy, _) => copy
      case Function(_, _) => true
      case Reference(_, mutable) => !mutable
    }

    predicate NeedsDrop() {
      match this
      case Plain(_, _, drop) => drop
      case Function(_, _) => true
      case Reference(_, _) => false
    }

    /** Neither a copy nor the end of the scope costs anything, so that captures of the type need no reference. */
    predicate Cheap() {
      IsCopy() && !NeedsDrop()
    }
  }

  datatype Local = Local(id: nat, ty: Ty, mutable: bool)

  datatype Operator = Add | Subtract | Less

  datatype Expr =
    | Literal(value: int)
    | Var(id: nat, ty: Ty)
    | FunctionRef(fid: nat)
    | Binary(operator: Operator, left: Expr, right: Expr)
    | Pipe(argument: Expr, piped: Expr)
    | Call(callee: Expr, arguments: seq<Expr>)
    | If(condition: Expr, thenBranch: Expr, elseBranch: Expr)
    | Lambda(parameters: seq<Local>, captures: seq<Local>, body: Expr, group: seq<Local>, lambdaTy: Ty)
    | Closure(lifted: nat, values: seq<Expr>, closureTy: Ty)
    | Block(bindings: seq<Binding>, result: Expr)
    | Assign(target: Expr, newValue: Expr)
    | Borrow(place: Expr, exclusive: bool)
    | Deref(reference: Expr)

  datatype Binding = Binding(local: Local, value: Expr)

  function Ids(locals: seq<Local>): (ids: seq<nat>)
    ensures |ids| == |locals|
  {
    seq(|locals|, k requires 0 <= k < |locals| => locals[k].id)
  }

  function IdSet(locals: seq<Local>): set<nat> {
    set k | 0 <= k < |locals| :: locals[k].id
  }

  lemma IdSetAppend(locals: seq<Local>, local: Local)
    ensures IdSet(locals + [local]) == IdSet(locals) + {local.id}
  {
    var all := locals + [local];
    assert all[|locals|] == local;
    forall x | x in IdSet(locals) ensures x in IdSet(all) {
      var k :| 0 <= k < |locals| && locals[k].id == x;
      assert all[k].id == x;
    }
  }

  function Immutable(local: Local): Local {
    local.(mutable := false)
  }

  /** The value belongs to a `let rec`. */
  predicate IsRecursive(value: Expr) {
    value.Lambda? && value.group != []
  }

  /** The locals that the bindings `[from, to)` of a block bind. */
  function BoundIds(bindings: seq<Binding>): set<nat> {
    set k | 0 <= k < |bindings| :: bindings[k].local.id
  }

  /** Whether the bindings from `start` on begin with the group `group`, each a lambda of that group. */
  predicate BindsGroup(bindings: seq<Binding>, start: nat, group: seq<Local>) {
    && start + |group| <= |bindings|
    && (forall k | start <= k < start + |group| ::
          && bindings[k].local.id == group[k - start].id
          && bindings[k].value.Lambda?
          && Ids(bindings[k].value.group) == Ids(group))
  }

  datatype GroupLength = Members(count: nat) | Unbound

  /** How many bindings from `start` on belong to one `let rec`. */
  function GroupLen(bindings: seq<Binding>, start: nat): (length: GroupLength)
    requires start < |bindings|
    ensures length.Members? ==> start + length.count <= |bindings|
    ensures length.Members? && length.count == 0 ==> !IsRecursive(bindings[start].value)
    ensures length.Members? && length.count > 0 ==>
              forall k | start <= k < start + length.count :: IsRecursive(bindings[k].value)
  {
    if !IsRecursive(bindings[start].value) then Members(0)
    else
      var group := bindings[start].value.group;
      if BindsGroup(bindings, start, group) then
        assert forall k | start <= k < start + |group| ::
            |Ids(bindings[k].value.group)| == |bindings[k].value.group| == |group|;
        Members(|group|)
      else Unbound
  }

  function NamesOf(members: seq<Binding>): seq<nat> {
    seq(|members|, k requires 0 <= k < |members| => members[k].local.id)
  }

  /** The bindings are the members of one group, all of them and in its order. */
  ghost predicate BoundTogether(members: seq<Binding>) {
    members != [] && forall k | 0 <= k < |members| ::
      members[k].value.Lambda? && Ids(members[k].value.group) == NamesOf(members)
  }

  ghost predicate StartsGroup(bindings: seq<Binding>, start: nat, n: nat) {
    start + n <= |bindings| && BoundTogether(bindings[start..start + n])
  }

  /** A group is found exactly where its members are bound together, and exactly where a member is not, with all
      the others, the group is unbound. */
  lemma GroupLenIs(bindings: seq<Binding>, start: nat, n: nat)
    requires start < |bindings|
    ensures n > 0 ==> (GroupLen(bindings, start) == Members(n) <==> StartsGroup(bindings, start, n))
    ensures GroupLen(bindings, start) == Members(0) <==> !IsRecursive(bindings[start].value)
    ensures GroupLen(bindings, start).Unbound?
            <==> IsRecursive(bindings[start].value) && forall m :: !StartsGroup(bindings, start, m)
  {
    if GroupLen(bindings, start) == Members(n) && n > 0 {
      BoundIsTogether(bindings, start);
    }
    forall m | StartsGroup(bindings, start, m) ensures GroupLen(bindings, start) == Members(m) {
      TogetherIsBound(bindings, start, m);
    }
    if GroupLen(bindings, start).Members? && IsRecursive(bindings[start].value) {
      BoundIsTogether(bindings, start);
    }
  }

  lemma BoundIsTogether(bindings: seq<Binding>, start: nat)
    requires start < |bindings| && GroupLen(bindings, start).Members? && IsRecursive(bindings[start].value)
    ensures StartsGroup(bindings, start, GroupLen(bindings, start).count)
  {
    var group := bindings[start].value.group;
    var members := bindings[start..start + |group|];
    forall k | 0 <= k < |members| ensures members[k].local.id == group[k].id {
      assert members[k] == bindings[start + k];
    }
    assert NamesOf(members) == Ids(group);
  }

  lemma TogetherIsBound(bindings: seq<Binding>, start: nat, n: nat)
    requires start < |bindings| && StartsGroup(bindings, start, n)
    ensures GroupLen(bindings, start) == Members(n)
  {
    var members := bindings[start..start + n];
    assert members[0] == bindings[start];
    var group := bindings[start].value.group;
    assert |Ids(group)| == n;
    forall k | start <= k < start + n
      ensures bindings[k].local.id == group[k - start].id && bindings[k].value.Lambda?
      ensures Ids(bindings[k].value.group) == Ids(group)
    {
      assert members[k - start] == bindings[k];
      assert NamesOf(members)[k - start] == Ids(group)[k - start];
    }
  }

  /** The captures of all the members of a group, without the group's own names. */
  function GroupCaptures(members: seq<Binding>): seq<Local>
    requires forall k | 0 <= k < |members| :: members[k].value.Lambda?
  {
    CapturesOutside(members, BoundIds(members))
  }

  function CapturesOutside(members: seq<Binding>, group: set<nat>): (captures: seq<Local>)
    requires forall k | 0 <= k < |members| :: members[k].value.Lambda?
    ensures forall k | 0 <= k < |captures| :: captures[k].id !in group
  {
    if members == [] then []
    else CapturesOutside(members[..|members| - 1], group) + Without(members[|members| - 1].value.captures, group)
  }

  function Without(locals: seq<Local>, group: set<nat>): (kept: seq<Local>)
    ensures forall k | 0 <= k < |kept| :: kept[k].id !in group
    ensures forall k | 0 <= k < |kept| :: kept[k] in locals
    ensures forall k | 0 <= k < |locals| && locals[k].id !in group :: locals[k] in kept
  {
    if locals == [] then []
    else
      var last := locals[|locals| - 1];
      var kept := Without(locals[..|locals| - 1], group);
      if last.id in group then kept else kept + [last]
  }

  // ----- binding the names of a group -----

  /** The names of `bindings` bound to `vals`, one after the other. */
  function BindEach<T>(m: map<nat, T>, bindings: seq<Binding>, vals: seq<T>): map<nat, T>
    requires |bindings| == |vals|
    decreases |bindings|
  {
    if bindings == [] then m
    else
      var last := |bindings| - 1;
      BindEach(m, bindings[..last], vals[..last])[bindings[last].local.id := vals[last]]
  }

  ghost predicate DistinctNames(bindings: seq<Binding>) {
    forall i, j | 0 <= i < j < |bindings| :: bindings[i].local.id != bindings[j].local.id
  }

  lemma BoundIdsAppend(bindings: seq<Binding>)
    requires bindings != []
    ensures var last := |bindings| - 1;
            BoundIds(bindings) == BoundIds(bindings[..last]) + {bindings[last].local.id}
  {
    var last := |bindings| - 1;
    forall x | x in BoundIds(bindings[..last]) ensures x in BoundIds(bindings) {
      var k :| 0 <= k < last && bindings[..last][k].local.id == x;
      assert bindings[k].local.id == x;
    }
    forall x | x in BoundIds(bindings) ensures x in BoundIds(bindings[..last]) || x == bindings[last].local.id {
      var k :| 0 <= k < |bindings| && bindings[k].local.id == x;
      if k < last { assert bindings[..last][k].local.id == x; }
    }
  }

  lemma {:induction false} BindEachOne<T>(m: map<nat, T>, bindings: seq<Binding>, vals: seq<T>, x: nat)
    requires |bindings| == |vals|
    ensures x !in BoundIds(bindings) ==>
              (x in BindEach(m, bindings, vals) <==> x in m) && (x in m ==> BindEach(m, bindings, vals)[x] == m[x])
    ensures x in BoundIds(bindings) ==> x in BindEach(m, bindings, vals)
    ensures forall k | 0 <= k < |bindings| && bindings[k].local.id == x && DistinctNames(bindings) ::
              BindEach(m, bindings, vals)[x] == vals[k]
    decreases |bindings|
  {
    if bindings != [] {
      var last := |bindings| - 1;
      BindEachOne(m, bindings[..last], vals[..last], x);
      BoundIdsAppend(bindings);
      forall k | 0 <= k < |bindings| && bindings[k].local.id == x && DistinctNames(bindings)
        ensures BindEach(m, bindings, vals)[x] == vals[k]
      {
        if k < last {
          assert bindings[..last][k] == bindings[k] && vals[..last][k] == vals[k];
        }
      }
    }
  }

  lemma BindEachAt<T>(m: map<nat, T>, bindings: seq<Binding>, vals: seq<T>)
    requires |bindings| == |vals| && DistinctNames(bindings)
    ensures var r := BindEach(m, bindings, vals);
            && r.Keys == m.Keys + BoundIds(bindings)
            && (forall k | 0 <= k < |bindings| :: bindings[k].local.id in r && r[bindings[k].local.id] == vals[k])
            && (forall x | x in m && x !in BoundIds(bindings) :: r[x] == m[x])
  {
    var r := BindEach(m, bindings, vals);
    forall x: nat
      ensures x in r <==> x in m || x in BoundIds(bindings)
      ensures x in m && x !in BoundIds(bindings) ==> r[x] == m[x]
    {
      BindEachOne(m, bindings, vals, x);
    }
    forall k | 0 <= k < |bindings| ensures bindings[k].local.id in r && r[bindings[k].local.id] == vals[k] {
      BindEachOne(m, bindings, vals, bindings[k].local.id);
      assert bindings[k].local.id in BoundIds(bindings);
    }
  }
}

/**
  Which function parameters a call can be specialized for: the callbacks that never escape the function
  they are passed to. The removal loop finds the greatest consistent choice, and in every run of the
  program an eligible callback is only called with all its arguments, used to initialize an array or a
  list, or handed on to another eligible parameter.
 */
module Eligibility {

  /** An expression after closures are lowered. `arity` is the number of parameters of a local whose type
      is a function. */
  datatype Expr =
    | Literal(n: int)
    | Local(id: nat, arity: nat)
    | Function(fid: nat)
    | Call(callee: Expr, arguments: seq<Expr>)
    | Pipe(argument: Expr, piped: Expr)
    | Add(left: Expr, right: Expr)
    | NewArray(length: Expr, initializer: Expr)
    | NewList(length: Expr, initializer: Expr)
    | Closure(lifted: nat, values: seq<Expr>)
    | Tuple(elements: seq<Expr>)
    | If(condition: Expr, thenBranch: Expr, elseBranch: Expr)
    | Block(bindings: seq<(nat, Expr)>, result: Expr)

  datatype Parameter = Parameter(id: nat, isFunction: bool)

  datatype Fun = Fun(parameters: seq<Parameter>, body: Expr, resultCarriesLoans: bool)

  type Eligible = seq<set<nat>>

  function Children(e: Expr): (r: seq<Expr>)
    ensures forall c | c in r :: c < e
  {
    match e
    case Literal(_) => []
    case Local(_, _) => []
    case Function(_) => []
    case Call(callee, arguments) => [callee] + arguments
    case Pipe(argument, piped) => [argument, piped]
    case Add(left, right) => [left, right]
    case NewArray(length, initializer) => [length, initializer]
    case NewList(length, initializer) => [length, initializer]
    case Closure(_, values) => values
    case Tuple(elements) => elements
    case If(condition, thenBranch, elseBranch) => [condition, thenBranch, elseBranch]
    case Block(bindings, result) =>
      seq(|bindings|, k requires 0 <= k < |bindings| => bindings[k].1) + [result]
  }

  predicate Is(e: Expr, local: nat) {
    e.Local? && e.id == local
  }

  /** The callee has all its arguments, and the one at `index` is an eligible callback. */
  predicate Takes(P: seq<Fun>, eligible: Eligible, callee: Expr, count: nat, index: nat) {
    callee.Function? && callee.fid < |P| && callee.fid < |eligible| && count == |P[callee.fid].parameters|
    && index in eligible[callee.fid]
  }

  predicate NonEscaping(P: seq<Fun>, eligible: Eligible, e: Expr, local: nat)
    decreases e
  {
    match e
    case Local(id, _) => id != local
    case Call(callee, arguments) =>
      if Is(callee, local) then
        callee.arity == |arguments| && forall k | 0 <= k < |arguments| :: NonEscaping(P, eligible, arguments[k], local)
      else
        && NonEscaping(P, eligible, callee, local)
        && (forall k | 0 <= k < |arguments| ::
              if Is(arguments[k], local) then Takes(P, eligible, callee, |arguments|, k)
              else NonEscaping(P, eligible, arguments[k], local))
    case Pipe(argument, piped) =>
      if Is(piped, local) then piped.arity == 1 && NonEscaping(P, eligible, argument, local)
      else if Is(argument, local) then Takes(P, eligible, piped, 1, 0)
      else NonEscaping(P, eligible, argument, local) && NonEscaping(P, eligible, piped, local)
    case NewArray(length, initializer) =>
      if Is(initializer, local) then NonEscaping(P, eligible, length, local)
      else NonEscaping(P, eligible, length, local) && NonEscaping(P, eligible, initializer, local)
    case NewList(length, initializer) =>
      if Is(initializer, local) then NonEscaping(P, eligible, length, local)
      else NonEscaping(P, eligible, length, local) && NonEscaping(P, eligible, initializer, local)
    case _ => forall c | c in Children(e) :: NonEscaping(P, eligible, c, local)
  }

  // ----- the greatest consistent choice -----

  ghost predicate Within(a: Eligible, b: Eligible) {
    |a| == |b| && forall id | 0 <= id < |a| :: a[id] <= b[id]
  }

  /** The parameters that can be callbacks at all. */
  function Candidates(f: Fun): (r: set<nat>)
    ensures forall index: nat ::
            index in r <==> index < |f.parameters| && f.parameters[index].isFunction && !f.resultCarriesLoans
  {
    set index | 0 <= index < |f.parameters| && f.parameters[index].isFunction && !f.resultCarriesLoans
  }

  function Initial(P: seq<Fun>): (r: Eligible)
    ensures |r| == |P| && forall id | 0 <= id < |P| :: r[id] == Candidates(P[id])
  {
    seq(|P|, id requires 0 <= id < |P| => Candidates(P[id]))
  }

  /** Every eligible callback is kept from escaping, given what is eligible. */
  ghost predicate Consistent(P: seq<Fun>, eligible: Eligible) {
    && |eligible| == |P|
    && (forall id | 0 <= id < |P| :: Safe(P, eligible, id))
  }

  ghost predicate Safe(P: seq<Fun>, eligible: Eligible, id: nat)
    requires |eligible| == |P| && id < |P|
  {
    forall index | index in eligible[id] ::
      index < |P[id].parameters| && NonEscaping(P, eligible, P[id].body, P[id].parameters[index].id)
  }

  /** More eligible parameters let fewer callbacks escape. */
  lemma {:induction false} NonEscapingMonotone(P: seq<Fun>, a: Eligible, b: Eligible, e: Expr, local: nat)
    requires Within(a, b) && NonEscaping(P, a, e, local)
    ensures NonEscaping(P, b, e, local)
    decreases e
  {
    match e
    case Literal(_) =>
    case Local(_, _) =>
    case Function(_) =>
    case Call(callee, arguments) =>
      if !Is(callee, local) { NonEscapingMonotone(P, a, b, callee, local); }
      forall k | 0 <= k < |arguments| && !Is(arguments[k], local) ensures NonEscaping(P, b, arguments[k], local) {
        NonEscapingMonotone(P, a, b, arguments[k], local);
      }
    case Pipe(argument, piped) =>
      if !Is(argument, local) { NonEscapingMonotone(P, a, b, argument, local); }
      if !Is(argument, local) && !Is(piped, local) { NonEscapingMonotone(P, a, b, piped, local); }
    case NewArray(length, initializer) =>
      NonEscapingMonotone(P, a, b, length, local);
      if !Is(initializer, local) { NonEscapingMonotone(P, a, b, initializer, local); }
    case NewList(length, initializer) =>
      NonEscapingMonotone(P, a, b, length, local);
      if !Is(initializer, local) { NonEscapingMonotone(P, a, b, initializer, local); }
    case _ =>
      forall c | c in Children(e) ensures NonEscaping(P, b, c, local) {
        NonEscapingMonotone(P, a, b, c, local);
      }
  }

  /** What one pass over the functions rejects. */
  ghost predicate Rejected(P: seq<Fun>, eligible: Eligible, id: nat, index: nat) {
    && id < |P| == |eligible| && index in eligible[id]
    && !(index < |P[id].parameters| && NonEscaping(P, eligible, P[id].body, P[id].parameters[index].id))
  }

  /** A consistent choice has nothing that a pass over a larger one rejects. */
  lemma KeptByConsistent(P: seq<Fun>, choice: Eligible, eligible: Eligible, id: nat, index: nat)
    requires Consistent(P, choice) && Within(choice, eligible) && Rejected(P, eligible, id, index)
    ensures index !in choice[id]
  {
    if index in choice[id] {
      assert Safe(P, choice, id);
      NonEscapingMonotone(P, choice, eligible, P[id].body, P[id].parameters[index].id);
    }
  }

  /** How many parameters are eligible. */
  ghost function Count(eligible: Eligible): nat {
    if eligible == [] then 0 else |eligible[0]| + Count(eligible[1..])
  }

  lemma {:induction false} CountWithin(a: Eligible, b: Eligible)
    requires Within(a, b)
    ensures Count(a) <= Count(b)
    ensures (exists id | 0 <= id < |a| :: a[id] != b[id]) ==> Count(a) < Count(b)
    decreases |a|
  {
    if a != [] {
      forall id | 0 <= id < |a[1..]| ensures a[1..][id] <= b[1..][id] {}
      CountWithin(a[1..], b[1..]);
      SubsetSize(a[0], b[0]);
      if id :| 0 <= id < |a| && a[id] != b[id] {
        if id > 0 { assert a[1..][id - 1] != b[1..][id - 1]; }
      }
    }
  }

  lemma SubsetSize(a: set<nat>, b: set<nat>)
    requires a <= b
    ensures |a| <= |b| && (a != b ==> |a| < |b|)
  {
    assert b == a + (b - a) && a !! (b - a);
    assert |b| == |a| + |b - a|;
    if a != b {
      var x :| x in b && x !in a;
      assert x in b - a;
    }
  }

  /** One pass: the eligible parameters whose callbacks escape. */
  method Reject(P: seq<Fun>, eligible: Eligible) returns (rejected: seq<(nat, nat)>)
    requires Within(eligible, Initial(P))
    ensures forall id: nat, index: nat :: (id, index) in rejected <==> Rejected(P, eligible, id, index)
  {
    rejected := [];
    for id := 0 to |P|
      invariant forall i: nat, index: nat :: (i, index) in rejected <==> i < id && Rejected(P, eligible, i, index)
    {
      for index := 0 to |P[id].parameters|
        invariant forall i: nat, j: nat :: (i, j) in rejected <==>
                    (i < id || (i == id && j < index)) && Rejected(P, eligible, i, j)
      {
        if index in eligible[id] && !NonEscaping(P, eligible, P[id].body, P[id].parameters[index].id) {
          rejected := rejected + [(id, index)];
        }
      }
    }
  }

  /** The eligible parameters without the rejected ones. */
  method Remove(eligible: Eligible, rejected: seq<(nat, nat)>) returns (r: Eligible)
    requires forall k | 0 <= k < |rejected| :: rejected[k].0 < |eligible|
    ensures |r| == |eligible|
    ensures forall id: nat, index: nat | id < |r| ::
            index in r[id] <==> index in eligible[id] && (id, index) !in rejected
  {
    r := eligible;
    for k := 0 to |rejected|
      invariant |r| == |eligible|
      invariant forall id: nat, index: nat | id < |r| ::
                index in r[id] <==> index in eligible[id] && (id, index) !in rejected[..k]
    {
      var (id, index) := rejected[k];
      assert rejected[..k + 1] == rejected[..k] + [rejected[k]];
      r := r[id := r[id] - {index}];
    }
    assert rejected[..|rejected|] == rejected;
  }

  /** The removal loop ends, and what it leaves is the largest consistent choice among the candidates. */
  method Choose(P: seq<Fun>) returns (eligible: Eligible)
    ensures Within(eligible, Initial(P)) && Consistent(P, eligible)
    ensures forall choice: Eligible | Within(choice, Initial(P)) && Consistent(P, choice) :: Within(choice, eligible)
  {
    eligible := Initial(P);
    while true
      invariant Within(eligible, Initial(P))
      invariant forall choice: Eligible | Within(choice, Initial(P)) && Consistent(P, choice) ::
                Within(choice, eligible)
      decreases Count(eligible)
    {
      var rejected := Reject(P, eligible);
      if rejected == [] {
        forall id | 0 <= id < |P| ensures Safe(P, eligible, id) {
          forall index | index in eligible[id]
            ensures index < |P[id].parameters| && NonEscaping(P, eligible, P[id].body, P[id].parameters[index].id)
          {
            assert !Rejected(P, eligible, id, index);
          }
        }
        return;
      }
      forall k | 0 <= k < |rejected| ensures rejected[k].0 < |eligible| {
        assert (rejected[k].0, rejected[k].1) in rejected;
      }
      var smaller := Remove(eligible, rejected);
      Shrinks(P, eligible, smaller, rejected);
      eligible := smaller;
    }
  }

  lemma Shrinks(P: seq<Fun>, eligible: Eligible, smaller: Eligible, rejected: seq<(nat, nat)>)
    requires Within(eligible, Initial(P)) && rejected != [] && |smaller| == |eligible|
    requires forall id: nat, index: nat :: (id, index) in rejected <==> Rejected(P, eligible, id, index)
    requires forall id: nat, index: nat | id < |smaller| ::
             index in smaller[id] <==> index in eligible[id] && (id, index) !in rejected
    ensures Within(smaller, eligible) && Count(smaller) < Count(eligible)
    ensures forall choice: Eligible | Within(choice, eligible) && Consistent(P, choice) :: Within(choice, smaller)
  {
    var (id, index) := rejected[0];
    assert (id, index) in rejected;
    assert Rejected(P, eligible, id, index);
    assert smaller[id] != eligible[id];
    CountWithin(smaller, eligible);
    forall choice: Eligible | Within(choice, eligible) && Consistent(P, choice) ensures Within(choice, smaller) {
      forall i: nat, j: nat | i < |choice| && j in choice[i] ensures j in smaller[i] {
        if (i, j) in rejected {
          KeptByConsistent(P, choice, eligible, i, j);
        }
      }
    }
  }
}

/**
  Specialized workers: a table of requests with a budget, in which equal requests share one id, and the
  two orders in which requested workers are emitted.
 */
module Workers {
  import opened Basics

  const MAX_SPECIALIZATIONS: nat := 1024

  datatype ClosureTarget = ClosureTarget(fid: nat, bound: nat)

  datatype Specialization = Specialization(fid: nat, callbacks: seq<(nat, ClosureTarget)>, borrowed: nat)

  datatype Drain = InRequestOrder | DepthFirst

  /** `emitted` lists the workers that were handed out, in order. */
  datatype Table = Table(
    requests: seq<Specialization>,
    refused: bool,
    next: nat,
    pending: seq<nat>,
    scheduled: nat,
    emitted: seq<nat>)

  const FRESH := Table([], false, 0, [], 0, [])

  // ----- what the operations do -----

  /** The ids from `from` up to `to`, the first of them last. */
  function Descending(from: nat, to: nat): (r: seq<nat>)
    requires from <= to
    ensures |r| == to - from
    ensures forall k | 0 <= k < |r| :: r[k] == to - 1 - k
  {
    seq(to - from, k requires 0 <= k < to - from => to - 1 - k)
  }

  lemma DescendingHas(from: nat, to: nat)
    requires from <= to
    ensures forall id: nat :: id in Descending(from, to) <==> from <= id < to
  {
    forall id: nat | from <= id < to ensures id in Descending(from, to) {
      assert Descending(from, to)[to - 1 - id] == id;
    }
  }

  lemma DistinctAppend(s: seq<nat>, x: nat)
    requires Distinct(s) && x !in s
    ensures Distinct(s + [x])
  {
    var all := s + [x];
    forall i, j | 0 <= i < j < |all| ensures all[i] != all[j] {
      if j == |s| { assert all[i] in s; }
    }
  }

  function Asked(t: Table, key: Specialization): Table {
    if key in t.requests then t
    else if |t.requests| >= MAX_SPECIALIZATIONS then t.(refused := true)
    else t.(requests := t.requests + [key])
  }

  function Scheduled(t: Table): Table {
    if t.scheduled <= |t.requests|
    then t.(pending := t.pending + Descending(t.scheduled, |t.requests|), scheduled := |t.requests|) else t
  }

  /** The worker that is handed out next. */
  function Chosen(t: Table, drain: Drain): Option<nat> {
    match drain
    case InRequestOrder => if t.next < |t.requests| then Some(t.next) else None
    case DepthFirst =>
      var s := Scheduled(t);
      if s.pending == [] then None else Some(s.pending[|s.pending| - 1])
  }

  function Popped(t: Table, drain: Drain): Table {
    match drain
    case InRequestOrder => if t.next < |t.requests| then t.(next := t.next + 1, emitted := t.emitted + [t.next]) else t
    case DepthFirst =>
      var s := Scheduled(t);
      if s.pending == [] then s
      else s.(pending := s.pending[..|s.pending| - 1], emitted := s.emitted + [s.pending[|s.pending| - 1]])
  }

  /** A run: requests and hand-outs in any order. The requests between two hand-outs are those that
      the emission of the first worker makes, and those that other functions make. */
  datatype Op = Ask(key: Specialization) | Pop

  function After(drain: Drain, ops: seq<Op>): Table {
    if ops == [] then FRESH
    else
      var t := After(drain, ops[..|ops| - 1]);
      match ops[|ops| - 1]
      case Ask(key) => Asked(t, key)
      case Pop => Popped(t, drain)
  }

  // ----- what every run keeps -----

  /** No two requests are equal, and there are not more than the budget allows. */
  ghost predicate WithinBudget(t: Table) {
    Distinct(t.requests) && |t.requests| <= MAX_SPECIALIZATIONS
  }

  /** Each scheduled worker waits or was handed out, once. */
  ghost predicate Accounted(t: Table, drain: Drain) {
    match drain
    case InRequestOrder =>
      t.next <= |t.requests| && |t.emitted| == t.next && forall k | 0 <= k < t.next :: t.emitted[k] == k
    case DepthFirst =>
      && t.scheduled <= |t.requests|
      && Distinct(t.pending) && Distinct(t.emitted)
      && (forall id :: id in t.pending ==> id !in t.emitted)
      && (forall id: nat :: id in t.pending || id in t.emitted <==> id < t.scheduled)
  }

  ghost predicate Inv(t: Table, drain: Drain) {
    WithinBudget(t) && Accounted(t, drain)
  }

  lemma ScheduledAccounted(t: Table)
    requires Accounted(t, DepthFirst)
    ensures Accounted(Scheduled(t), DepthFirst) && Scheduled(t).scheduled == |t.requests|
  {
    var more := Descending(t.scheduled, |t.requests|);
    var all := t.pending + more;
    DescendingHas(t.scheduled, |t.requests|);
    assert forall id :: id in all <==> id in t.pending || id in more;
    forall i, j | 0 <= i < j < |all| ensures all[i] != all[j] {
      if i < |t.pending| <= j {
        assert all[i] in t.pending;
      }
    }
  }

  lemma PoppedAccounted(t: Table, drain: Drain)
    requires Accounted(t, drain)
    ensures Accounted(Popped(t, drain), drain)
  {
    if drain.DepthFirst? {
      ScheduledAccounted(t);
      var s, p := Scheduled(t), Popped(t, drain);
      if s.pending != [] {
        var last := |s.pending| - 1;
        assert s.pending == p.pending + [s.pending[last]];
        assert forall id :: id in p.emitted <==> id in s.emitted || id == s.pending[last];
        DistinctAppend(s.emitted, s.pending[last]);
      }
    }
  }

  lemma {:induction false} RunKeeps(drain: Drain, ops: seq<Op>)
    ensures Inv(After(drain, ops), drain)
  {
    if ops != [] {
      RunKeeps(drain, ops[..|ops| - 1]);
      if ops[|ops| - 1].Pop? {
        PoppedAccounted(After(drain, ops[..|ops| - 1]), drain);
      }
    }
  }

  /** A request keeps its id, and the same request gets it again. */
  lemma {:induction false} IdsStay(drain: Drain, ops: seq<Op>, more: seq<Op>)
    ensures After(drain, ops).requests <= After(drain, ops + more).requests
    decreases |more|
  {
    if more == [] {
      assert ops + more == ops;
    } else {
      var all := ops + more;
      assert all[..|all| - 1] == ops + more[..|more| - 1];
      IdsStay(drain, ops, more[..|more| - 1]);
    }
  }

  /** In any run, every worker is handed out at most once, and when none is left to hand out, every
      request has been: exactly once. */
  lemma ExactlyOnce(drain: Drain, ops: seq<Op>)
    ensures var t := After(drain, ops);
            && |t.requests| <= MAX_SPECIALIZATIONS && Distinct(t.requests)
            && Distinct(t.emitted) && (forall id | id in t.emitted :: id < |t.requests|)
            && (Chosen(t, drain).None? ==> forall id: nat | id < |t.requests| :: id in t.emitted)
            && (Chosen(t, drain).Some?
                ==> Chosen(t, drain).value < |t.requests| && Chosen(t, drain).value !in t.emitted)
  {
    RunKeeps(drain, ops);
    var t := After(drain, ops);
    if drain.DepthFirst? {
      ScheduledAccounted(t);
      var s := Scheduled(t);
      assert s.pending != [] ==> s.pending[|s.pending| - 1] in s.pending;
    } else {
      forall id: nat | id < t.next ensures id in t.emitted {
        assert t.emitted[id] == id;
      }
    }
  }

  lemma {:induction false} DistinctBelow(s: seq<nat>, n: nat)
    requires Distinct(s) && forall x | x in s :: x < n
    ensures |s| <= n
  {
    if n == 0 {
      assert forall k | 0 <= k < |s| :: s[k] in s;
    } else if n - 1 in s {
      var k :| 0 <= k < |s| && s[k] == n - 1;
      var rest := s[..k] + s[k + 1..];
      forall x | x in rest ensures x < n - 1 {
        var j :| 0 <= j < |rest| && rest[j] == x;
        assert rest[j] == if j < k then s[j] else s[j + 1];
        assert x in s;
      }
      forall i, j | 0 <= i < j < |rest| ensures rest[i] != rest[j] {
        assert rest[i] == (if i < k then s[i] else s[i + 1]) && rest[j] == (if j < k then s[j] else s[j + 1]);
      }
      DistinctBelow(rest, n - 1);
    } else {
      DistinctBelow(s, n - 1);
    }
  }

  /** A run can hand out no more workers than the budget. */
  lemma EmissionsEnd(drain: Drain, ops: seq<Op>)
    ensures |After(drain, ops).emitted| <= MAX_SPECIALIZATIONS
  {
    ExactlyOnce(drain, ops);
    DistinctBelow(After(drain, ops).emitted, |After(drain, ops).requests|);
  }

  // ----- the depth-first discipline -----

  /** While the requests at and below `bottom` wait, everything requested since then, from `low` on, lies
      above them or was handed out. */
  ghost predicate Above(t: Table, bottom: seq<nat>, low: nat) {
    && bottom <= t.pending
    && (forall id: nat | low <= id < t.scheduled :: id in t.pending[|bottom|..] || id in t.emitted)
  }

  lemma AboveNow(t: Table, bottom: seq<nat>)
    requires bottom <= t.pending && t.scheduled <= |t.requests|
    ensures Above(t, bottom, |t.requests|)
  {
  }

  lemma AboveAsked(t: Table, key: Specialization, bottom: seq<nat>, low: nat)
    requires Above(t, bottom, low)
    ensures Above(Asked(t, key), bottom, low)
  {
  }

  lemma AboveScheduled(t: Table, bottom: seq<nat>, low: nat)
    requires Accounted(t, DepthFirst) && Above(t, bottom, low)
    ensures Above(Scheduled(t), bottom, low)
  {
    var s := Scheduled(t);
    var more := Descending(t.scheduled, |t.requests|);
    assert s.pending[|bottom|..] == t.pending[|bottom|..] + more;
    DescendingHas(t.scheduled, |t.requests|);
  }

  /** A hand-out takes something from above, or everything above is gone. */
  lemma AbovePopped(t: Table, bottom: seq<nat>, low: nat)
    requires Accounted(t, DepthFirst) && Above(t, bottom, low) && bottom != []
    ensures Chosen(t, DepthFirst).Some?
    ensures var id := Chosen(t, DepthFirst).value;
            if id in bottom then id == bottom[|bottom| - 1] && forall x: nat | low <= x < |t.requests| :: x in t.emitted
            else Above(Popped(t, DepthFirst), bottom, low)
  {
    AboveScheduled(t, bottom, low);
    ScheduledAccounted(t);
    var s, p := Scheduled(t), Popped(t, DepthFirst);
    var last := |s.pending| - 1;
    var id := s.pending[last];
    if |bottom| == |s.pending| {
      assert s.pending[|bottom|..] == [];
      assert s.pending == bottom && id in bottom;
    } else {
      var above := s.pending[|bottom|..];
      assert above == above[..|above| - 1] + [id] && p.pending[|bottom|..] == above[..|above| - 1];
      assert bottom <= p.pending;
      forall k | 0 <= k < |bottom| ensures bottom[k] != id {
        assert s.pending[k] == bottom[k];
      }
    }
  }

  lemma {:induction false} StaysAbove(before: seq<Op>, ops: seq<Op>, bottom: seq<nat>)
    requires bottom != [] && bottom <= Popped(After(DepthFirst, before), DepthFirst).pending
    ensures var t, u := Popped(After(DepthFirst, before), DepthFirst), After(DepthFirst, before + [Pop] + ops);
            Above(u, bottom, |t.requests|) || bottom[|bottom| - 1] in u.emitted
    decreases |ops|
  {
    hide Above, Accounted;
    var t := Popped(After(DepthFirst, before), DepthFirst);
    var all := before + [Pop] + ops;
    if ops == [] {
      assert all[..|all| - 1] == before && all[|all| - 1] == Pop;
      RunKeeps(DepthFirst, before);
      ScheduledAccounted(After(DepthFirst, before));
      AboveNow(t, bottom);
    } else {
      var front, op := ops[..|ops| - 1], ops[|ops| - 1];
      assert all[..|all| - 1] == before + [Pop] + front && all[|all| - 1] == op;
      var v := After(DepthFirst, before + [Pop] + front);
      StaysAbove(before, front, bottom);
      RunKeeps(DepthFirst, before + [Pop] + front);
      if Above(v, bottom, |t.requests|) {
        match op
        case Ask(key) => AboveAsked(v, key, bottom, |t.requests|);
        case Pop => AbovePopped(v, bottom, |t.requests|);
      }
    }
  }

  /** From the Pop after `before`, which hands a worker out, until something that waited then is handed out:
      everything that is requested meanwhile, by that worker or by any that it leads to, is handed out before. */
  lemma {:induction false} DescendantsFirst(before: seq<Op>, ops: seq<Op>, position: nat)
    requires var t := Popped(After(DepthFirst, before), DepthFirst);
             position < |t.pending|
    requires var t, u := Popped(After(DepthFirst, before), DepthFirst), After(DepthFirst, before + [Pop] + ops);
             t.pending[position] !in u.emitted && Chosen(u, DepthFirst) == Some(t.pending[position])
    ensures var t, u := Popped(After(DepthFirst, before), DepthFirst), After(DepthFirst, before + [Pop] + ops);
            forall id: nat | |t.requests| <= id < |u.requests| :: id in u.emitted
  {
    var t := Popped(After(DepthFirst, before), DepthFirst);
    var bottom := t.pending[..position + 1];
    var all := before + [Pop] + ops;
    var u := After(DepthFirst, all);
    StaysAbove(before, ops, bottom);
    RunKeeps(DepthFirst, all);
    AbovePopped(u, bottom, |t.requests|);
    assert bottom[position] in bottom;
  }

  // ----- the table as it is kept -----

  /** What happens while workers are emitted: one is handed out, or a request of its emission is answered. */
  datatype Event = Emitting(id: nat, key: Specialization) | Answered(asked: Specialization, answer: Option<nat>)

  function HandedOut(history: seq<Event>): seq<nat> {
    if history == [] then []
    else
      var last := history[|history| - 1];
      var ids := HandedOut(history[..|history| - 1]);
      if last.Emitting? then ids + [last.id] else ids
  }

  class Specializations {
    var requests: seq<Specialization>
    var keys: map<Specialization, nat>
    var refused: bool
    var next: nat
    var pending: seq<nat>
    var scheduled: nat
    ghost var emitted: seq<nat>

    ghost function Contents(): Table
      reads this
    {
      Table(requests, refused, next, pending, scheduled, emitted)
    }

    /** The keys are an index of the requests. */
    ghost predicate Valid()
      reads this
    {
      && WithinBudget(Contents())
      && (forall key :: key in keys <==> key in requests)
      && (forall k | 0 <= k < |requests| :: requests[k] in keys && keys[requests[k]] == k)
      && (forall key | key in keys :: keys[key] < |requests| && requests[keys[key]] == key)
      && scheduled <= |requests|
      && (forall k | 0 <= k < |pending| :: pending[k] < scheduled)
      && next <= |requests|
    }

    constructor ()
      ensures Valid() && Contents() == FRESH
    {
      requests, keys, refused, next, pending, scheduled, emitted := [], map[], false, 0, [], 0, [];
    }

    /** The id of a request, new or known, unless the budget is spent. */
    method Request(key: Specialization) returns (id: Option<nat>)
      requires Valid()
      modifies this
      ensures Valid() && Contents() == Asked(old(Contents()), key)
      ensures id.Some? <==> key in requests
      ensures id.Some? ==> id.value < |requests| && requests[id.value] == key
      ensures id.None? ==> refused && |requests| == MAX_SPECIALIZATIONS
      ensures key in old(requests) ==> requests == old(requests) && refused == old(refused)
    {
      if key in keys {
        return Some(keys[key]);
      }
      assert key !in requests;
      if |requests| == MAX_SPECIALIZATIONS {
        refused := true;
        return None;
      }
      var new_ := |requests|;
      keys := keys[key := new_];
      requests := requests + [key];
      return Some(new_);
    }

    /** Hands a worker out, as long as one waits; its id tells which. */
    method NextWorker(drain: Drain) returns (worker: Option<(nat, Specialization)>)
      requires Valid()
      modifies this
      ensures Valid() && Contents() == Popped(old(Contents()), drain)
      ensures worker.Some? <==> Chosen(old(Contents()), drain).Some?
      ensures worker.Some? ==>
                && Chosen(old(Contents()), drain) == Some(worker.value.0)
                && worker.value.0 < |requests| && worker.value.1 == requests[worker.value.0]
    {
      hide Distinct;
      var id: nat;
      match drain {
        case InRequestOrder =>
          id := next;
          if id == |requests| {
            return None;
          }
          next := next + 1;
        case DepthFirst =>
          pending := pending + Descending(scheduled, |requests|);
          scheduled := |requests|;
          if pending == [] {
            return None;
          }
          id := pending[|pending| - 1];
          pending := pending[..|pending| - 1];
      }
      emitted := emitted + [id];
      return Some((id, requests[id]));
    }

    /** The emission of one worker: it makes at most `calls` requests, and each may depend on everything that
        happened before. */
    method Emit(asks: seq<Event> -> Option<Specialization>, calls: nat, history: seq<Event>, ghost drain: Drain)
      returns (history': seq<Event>)
      requires Valid() && Accounted(Contents(), drain)
      modifies this
      ensures Valid() && Accounted(Contents(), drain)
      ensures emitted == old(emitted) && old(requests) <= requests
      ensures HandedOut(history') == HandedOut(history)
    {
      hide Accounted, Asked;
      history' := history;
      for k := 0 to calls
        invariant Valid() && Accounted(Contents(), drain)
        invariant emitted == old(emitted) && old(requests) <= requests
        invariant HandedOut(history') == HandedOut(history)
      {
        match asks(history') {
          case None => break;
          case Some(key) =>
            AskedKeeps(Contents(), key, drain);
            var answer := Request(key);
            history' := history' + [Answered(key, answer)];
        }
      }
    }

    /** Hands out workers until none waits, while their emission makes new requests. What an emission requests is any
        function of all that happened before: which workers were handed out, what was requested, and which ids or
        refusals came back. Nothing is left over, and each worker was handed out once. */
    method EmitWorkers(drain: Drain, asks: seq<Event> -> Option<Specialization>, calls: seq<Event> -> nat)
      returns (history: seq<Event>)
      requires Valid() && Accounted(Contents(), drain)
      modifies this
      ensures Valid() && Accounted(Contents(), drain)
      ensures Distinct(emitted) && forall id: nat :: id in emitted <==> id < |requests|
      ensures old(emitted) + HandedOut(history) == emitted && old(requests) <= requests
    {
      hide Accounted, Distinct, HandedOut, Valid;
      history := [];
      NothingHandedOut();
      var more := true;
      while more
        invariant Valid() && Accounted(Contents(), drain)
        invariant old(emitted) + HandedOut(history) == emitted && old(requests) <= requests
        invariant !more ==> Distinct(emitted) && forall id: nat :: id in emitted <==> id < |requests|
        decreases MAX_SPECIALIZATIONS - |emitted|, more
      {
        more, history := EmitNext(drain, asks, calls, history);
      }
    }

    method EmitNext(
      drain: Drain, asks: seq<Event> -> Option<Specialization>, calls: seq<Event> -> nat, history: seq<Event>)
      returns (more: bool, history': seq<Event>)
      requires Valid() && Accounted(Contents(), drain)
      modifies this
      ensures Valid() && Accounted(Contents(), drain) && old(requests) <= requests
      ensures more ==> |old(emitted)| < |emitted| <= MAX_SPECIALIZATIONS
      ensures forall start :: start + HandedOut(history) == old(emitted) ==> start + HandedOut(history') == emitted
      ensures !more ==> emitted == old(emitted) && Distinct(emitted) && forall id: nat ::
              id in emitted <==> id < |requests|
    {
      hide Accounted, Popped, Chosen, Distinct, HandedOut;
      PoppedAccounted(Contents(), drain);
      PoppedEmits(Contents(), drain);
      ghost var before := Contents();
      var worker := NextWorker(drain);
      if worker.None? {
        AllEmitted(before, drain);
        return false, history;
      }
      EmittedBounded(Contents(), drain);
      var (id, key) := worker.value;
      OneHandedOut(history, id, key);
      history' := history + [Emitting(id, key)];
      history' := Emit(asks, calls(history'), history', drain);
      assert forall start :: start + HandedOut(history) + [id] == start + (HandedOut(history) + [id]);
      return true, history';
    }
  }

  lemma NothingHandedOut()
    ensures HandedOut([]) == []
  {
  }

  lemma OneHandedOut(history: seq<Event>, id: nat, key: Specialization)
    ensures HandedOut(history + [Emitting(id, key)]) == HandedOut(history) + [id]
  {
  }

  lemma AskedKeeps(t: Table, key: Specialization, drain: Drain)
    requires Accounted(t, drain)
    ensures Accounted(Asked(t, key), drain) && Asked(t, key).emitted == t.emitted
            && t.requests <= Asked(t, key).requests
  {
  }

  lemma PoppedEmits(t: Table, drain: Drain)
    ensures Popped(t, drain).requests == t.requests
    ensures Popped(t, drain).emitted
            == if Chosen(t, drain).Some? then t.emitted + [Chosen(t, drain).value] else t.emitted
  {
  }

  lemma AllEmitted(t: Table, drain: Drain)
    requires Accounted(t, drain) && Chosen(t, drain).None?
    ensures Distinct(Popped(t, drain).emitted) && forall id: nat ::
            id in Popped(t, drain).emitted <==> id < |t.requests|
  {
    if drain.DepthFirst? {
      ScheduledAccounted(t);
    } else {
      forall id: nat | id < t.next ensures id in t.emitted {
        assert t.emitted[id] == id;
      }
    }
  }

  lemma EmittedBounded(t: Table, drain: Drain)
    requires Accounted(t, drain) && WithinBudget(t)
    ensures |t.emitted| <= MAX_SPECIALIZATIONS
  {
    if drain.DepthFirst? {
      DistinctBelow(t.emitted, |t.requests|);
    }
  }
}

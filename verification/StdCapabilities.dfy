/**
  How capabilities spread through the standard library along references, until nothing changes, and for
  each capability of a function a first step towards the place where it comes from.
 */
module StdCapabilities {
  import opened Basics
  import opened Policy

  /** Where a function takes a capability from: a builtin that it names itself, a rule for its name, or a
      function that it refers to. */
  datatype Step = Direct | Explicit | Via(target: nat)

  datatype Function = Function(std: bool, direct: seq<Capability>, explicit: Option<Capability>, references: seq<nat>)

  type Functions = seq<Function>

  ghost predicate Known(F: Functions) {
    forall id, k | 0 <= id < |F| && 0 <= k < |F[id].references| :: F[id].references[k] < |F|
  }

  /** The capability comes from the function itself. */
  predicate Source(F: Functions, id: nat, c: Capability) {
    id < |F| && F[id].std && (c in F[id].direct || F[id].explicit == Some(c))
  }

  predicate Refers(F: Functions, id: nat, target: nat) {
    id < |F| && target < |F| && F[id].std && F[target].std && target in F[id].references
  }

  // ----- the specification -----

  /** `path` leads from `id` over references between functions of the standard library to a source. */
  ghost predicate Leads(F: Functions, id: nat, path: seq<nat>, c: Capability)
    decreases |path|
  {
    if path == [] then Source(F, id, c)
    else Refers(F, id, path[0]) && Leads(F, path[0], path[1..], c)
  }

  ghost predicate Has(F: Functions, id: nat, c: Capability) {
    exists path :: Leads(F, id, path, c)
  }

  lemma HasSource(F: Functions, id: nat, c: Capability)
    requires Source(F, id, c)
    ensures Has(F, id, c)
  {
    assert Leads(F, id, [], c);
  }

  lemma HasVia(F: Functions, id: nat, target: nat, c: Capability)
    requires Refers(F, id, target) && Has(F, target, c)
    ensures Has(F, id, c)
  {
    var path :| Leads(F, target, path, c);
    assert ([target] + path)[1..] == path;
    assert Leads(F, id, [target] + path, c);
  }

  // ----- the fixed point -----

  type Capabilities = seq<CapabilitySet>

  /** The first step of each capability, and when it was found: a step leads to one that was found before. */
  type Steps = seq<map<Capability, Step>>
  type Times = seq<map<Capability, nat>>

  ghost predicate StepOk(
    F: Functions, caps: Capabilities, first: Steps, times: Times, clock: nat, id: nat, c: Capability)
    requires |F| == |caps| == |first| == |times| && id < |F|
  {
    && c in first[id] && c in times[id] && times[id][c] < clock
    && (match first[id][c]
        case Direct => F[id].std && c in F[id].direct
        case Explicit => F[id].std && F[id].explicit == Some(c)
        case Via(target) =>
          Refers(F, id, target) && c in caps[target] && c in times[target] && times[target][c] < times[id][c])
  }

  /** What the loop keeps: only capabilities that a function has, each with a step that leads back in time. */
  ghost predicate Sound(F: Functions, caps: Capabilities, first: Steps, times: Times, clock: nat) {
    && |F| == |caps| == |first| == |times|
    && (forall id: nat, c | id < |F| && c in caps[id] :: Has(F, id, c) && StepOk(F, caps, first, times, clock, id, c))
    && (forall id: nat | id < |F| :: first[id].Keys == caps[id])
  }

  ghost predicate HasSources(F: Functions, caps: Capabilities) {
    |caps| == |F| && forall id: nat, c | Source(F, id, c) :: c in caps[id]
  }

  /** Nothing is left to pass on. */
  ghost predicate Closed(F: Functions, caps: Capabilities) {
    |caps| == |F| && forall id: nat, target: nat | Refers(F, id, target) :: caps[target] <= caps[id]
  }

  lemma {:induction false} ClosedHasAll(F: Functions, caps: Capabilities, id: nat, path: seq<nat>, c: Capability)
    requires HasSources(F, caps) && Closed(F, caps) && id < |F| && Leads(F, id, path, c)
    ensures c in caps[id]
    decreases |path|
  {
    if path != [] {
      ClosedHasAll(F, caps, path[0], path[1..], c);
    }
  }

  /** The least fixed point: exactly the capabilities that some reference path leads to. */
  lemma LeastFixedPoint(
    F: Functions, caps: Capabilities, first: Steps, times: Times, clock: nat, id: nat, c: Capability)
    requires Sound(F, caps, first, times, clock) && HasSources(F, caps) && Closed(F, caps) && id < |F|
    ensures c in caps[id] <==> Has(F, id, c)
  {
    if Has(F, id, c) {
      var path :| Leads(F, id, path, c);
      ClosedHasAll(F, caps, id, path, c);
    }
  }

  // ----- the loop -----

  /** How many capabilities are missing. */
  ghost function Missing(caps: Capabilities): nat {
    if caps == [] then 0 else |ALL - caps[0]| + Missing(caps[1..])
  }

  lemma {:induction false} MissingLess(a: Capabilities, b: Capabilities)
    requires |a| == |b| && forall id | 0 <= id < |a| :: a[id] <= b[id]
    ensures Missing(b) <= Missing(a)
    ensures (exists id | 0 <= id < |a| :: a[id] != b[id]) ==> Missing(b) < Missing(a)
    decreases |a|
  {
    if a != [] {
      MissingLess(a[1..], b[1..]);
      Fewer(a[0], b[0]);
      if id :| 0 <= id < |a| && a[id] != b[id] {
        if id > 0 { assert a[1..][id - 1] != b[1..][id - 1]; }
      }
    }
  }

  lemma Fewer(a: CapabilitySet, b: CapabilitySet)
    requires a <= b
    ensures |ALL - b| <= |ALL - a| && (a != b ==> |ALL - b| < |ALL - a|)
  {
    var x, y := ALL - a, ALL - b;
    assert y <= x && x == y + (x - y);
    if a != b {
      var c :| c in b && c !in a;
      AllOfThem(c);
      assert c in x - y;
    }
  }

  function Inserted(first: map<Capability, Step>, added: CapabilitySet, target: nat): map<Capability, Step> {
    map c | c in first.Keys + added :: if c in added then Via(target) else first[c]
  }

  ghost function Stamped(times: map<Capability, nat>, added: CapabilitySet, clock: nat): map<Capability, nat> {
    map c | c in times.Keys + added :: if c in added then clock else times[c]
  }

  /** Passing on what a referenced function has and the referring one lacks. */
  lemma PassedOn(F: Functions, caps: Capabilities, first: Steps, times: Times, clock: nat, id: nat, target: nat)
    requires Sound(F, caps, first, times, clock) && Refers(F, id, target)
    ensures var added := caps[target] - caps[id];
            Sound(F, caps[id := caps[id] + added], first[id := Inserted(first[id], added, target)],
                  times[id := Stamped(times[id], added, clock)], clock + 1)
  {
    var added := caps[target] - caps[id];
    var caps', first' := caps[id := caps[id] + added], first[id := Inserted(first[id], added, target)];
    var times' := times[id := Stamped(times[id], added, clock)];
    forall x: nat, c | x < |F| && c in caps'[x]
      ensures Has(F, x, c) && StepOk(F, caps', first', times', clock + 1, x, c)
    {
      if x == id && c in added {
        assert StepOk(F, caps, first, times, clock, target, c);
        HasVia(F, id, target, c);
      } else {
        assert StepOk(F, caps, first, times, clock, x, c);
      }
    }
  }

  function DirectSet(direct: seq<Capability>): CapabilitySet {
    set c | c in direct
  }

  function OwnSet(f: Function): CapabilitySet {
    if !f.std then {} else DirectSet(f.direct) + (if f.explicit.Some? then {f.explicit.value} else {})
  }

  function OwnSteps(f: Function): map<Capability, Step> {
    map c | c in OwnSet(f) :: if c in f.direct then Direct else Explicit
  }

  /** The capabilities that functions have of their own: a builtin that is named first, then the rule. */
  method Own(F: Functions) returns (caps: Capabilities, first: Steps)
    ensures |caps| == |first| == |F|
    ensures forall id | 0 <= id < |F| :: caps[id] == OwnSet(F[id]) && first[id] == OwnSteps(F[id])
  {
    caps, first := [], [];
    for id := 0 to |F|
      invariant |caps| == |first| == id
      invariant forall k | 0 <= k < id :: caps[k] == OwnSet(F[k]) && first[k] == OwnSteps(F[k])
    {
      var own: CapabilitySet := {};
      var steps: map<Capability, Step> := map[];
      if F[id].std {
        var direct := F[id].direct;
        for k := 0 to |direct|
          invariant own == DirectSet(direct[..k])
          invariant steps == map c | c in own :: Direct
        {
          assert direct[..k + 1] == direct[..k] + [direct[k]];
          own := own + {direct[k]};
          if direct[k] !in steps {
            steps := steps[direct[k] := Direct];
          }
        }
        assert direct[..|direct|] == direct;
        if F[id].explicit.Some? {
          var c := F[id].explicit.value;
          own := own + {c};
          if c !in steps {
            steps := steps[c := Explicit];
          }
        }
      }
      caps, first := caps + [own], first + [steps];
    }
  }

  lemma OwnSound(F: Functions, caps: Capabilities, first: Steps, times: Times)
    requires |caps| == |first| == |F| == |times|
    requires forall id | 0 <= id < |F| :: caps[id] == OwnSet(F[id]) && first[id] == OwnSteps(F[id])
    requires forall id | 0 <= id < |F| :: times[id] == map c | c in caps[id] :: 0
    ensures Sound(F, caps, first, times, 1) && HasSources(F, caps)
  {
    forall id: nat, c | id < |F| && c in caps[id] ensures Has(F, id, c) && StepOk(F, caps, first, times, 1, id, c) {
      HasSource(F, id, c);
    }
  }

  ghost predicate Grown(a: Capabilities, b: Capabilities) {
    |a| == |b| && forall id | 0 <= id < |a| :: a[id] <= b[id]
  }

  lemma SoundLengths(F: Functions, caps: Capabilities, first: Steps, times: Times, clock: nat)
    requires Sound(F, caps, first, times, clock)
    ensures |F| == |caps| == |first| == |times|
  {
  }

  /** Some function has a capability that it lacked. */
  ghost predicate Progressed(a: Capabilities, b: Capabilities) {
    exists id | 0 <= id < |a| == |b| :: a[id] != b[id]
  }

  /** One reference. */
  method PassOn(
    F: Functions, caps: Capabilities, first: Steps, id: nat, target: nat, ghost times: Times, ghost clock: nat)
    returns (caps': Capabilities, first': Steps, changed: bool, ghost times': Times, ghost clock': nat)
    requires Sound(F, caps, first, times, clock) && Refers(F, id, target)
    ensures Sound(F, caps', first', times', clock') && Grown(caps, caps') && |caps'| == |F| == |caps|
    ensures changed <==> !(caps[target] <= caps[id])
    ensures changed ==> Progressed(caps, caps')
    ensures !changed ==> caps' == caps
  {
    hide Sound;
    SoundLengths(F, caps, first, times, clock);
    var added := caps[target] - caps[id];
    PassedOn(F, caps, first, times, clock, id, target);
    first' := first[id := Inserted(first[id], added, target)];
    caps' := caps[id := caps[id] + added];
    times' := times[id := Stamped(times[id], added, clock)];
    clock' := clock + 1;
    changed := added != {};
    if changed {
      assert caps'[id] != caps[id];
    } else {
      assert caps'[id] == caps[id];
    }
  }

  lemma GrownTwice(a: Capabilities, b: Capabilities, c: Capabilities)
    requires Grown(a, b) && Grown(b, c)
    ensures Grown(a, c) && (Progressed(a, b) || Progressed(b, c) ==> Progressed(a, c))
  {
    if Progressed(a, b) {
      var id :| 0 <= id < |a| && a[id] != b[id];
      assert a[id] != c[id];
    } else if Progressed(b, c) {
      var id :| 0 <= id < |b| && b[id] != c[id];
      assert a[id] != c[id];
    }
  }

  /** All references of one function. */
  method PassFunction(F: Functions, caps: Capabilities, first: Steps, id: nat, ghost times: Times, ghost clock: nat)
    returns (caps': Capabilities, first': Steps, changed: bool, ghost times': Times, ghost clock': nat)
    requires Known(F) && Sound(F, caps, first, times, clock) && id < |F|
    ensures Sound(F, caps', first', times', clock') && Grown(caps, caps') && |caps| == |F|
    ensures changed ==> Progressed(caps, caps')
    ensures !changed ==> caps' == caps && forall target: nat | Refers(F, id, target) :: caps[target] <= caps[id]
  {
    hide Sound;
    SoundLengths(F, caps, first, times, clock);
    caps', first', times', clock', changed := caps, first, times, clock, false;
    if F[id].std {
      for k := 0 to |F[id].references|
        invariant Sound(F, caps', first', times', clock') && Grown(caps, caps')
        invariant changed ==> Progressed(caps, caps')
        invariant !changed ==> caps' == caps && forall m | 0 <= m < k && F[F[id].references[m]].std ::
                  caps[F[id].references[m]] <= caps[id]
      {
        var target := F[id].references[k];
        if F[target].std {
          ghost var now := caps';
          var more;
          caps', first', more, times', clock' := PassOn(F, caps', first', id, target, times', clock');
          GrownTwice(caps, now, caps');
          changed := changed || more;
        }
      }
    }
  }

  /** One pass over the functions: unchanged means that nothing is left to pass on. */
  method Pass(F: Functions, caps: Capabilities, first: Steps, ghost times: Times, ghost clock: nat)
    returns (caps': Capabilities, first': Steps, changed: bool, ghost times': Times, ghost clock': nat)
    requires Known(F) && Sound(F, caps, first, times, clock)
    ensures Sound(F, caps', first', times', clock') && Grown(caps, caps')
    ensures changed ==> Progressed(caps, caps')
    ensures !changed ==> caps' == caps && Closed(F, caps)
  {
    hide Sound;
    SoundLengths(F, caps, first, times, clock);
    caps', first', times', clock', changed := caps, first, times, clock, false;
    for id := 0 to |F|
      invariant Sound(F, caps', first', times', clock') && Grown(caps, caps')
      invariant changed ==> Progressed(caps, caps')
      invariant !changed ==> caps' == caps && forall x: nat, y: nat | x < id && Refers(F, x, y) :: caps[y] <= caps[x]
    {
      ghost var now := caps';
      var more;
      caps', first', more, times', clock' := PassFunction(F, caps', first', id, times', clock');
      GrownTwice(caps, now, caps');
      changed := changed || more;
    }
  }

  lemma SourcesStay(F: Functions, a: Capabilities, b: Capabilities)
    requires HasSources(F, a) && Grown(a, b)
    ensures HasSources(F, b)
  {
  }

  /** The capabilities of all functions and their first steps. The loop ends: each round but the last finds
      a capability that was missing. */
  method Analyze(F: Functions) returns (caps: Capabilities, first: Steps, ghost times: Times, ghost clock: nat)
    requires Known(F)
    ensures Sound(F, caps, first, times, clock)
    ensures forall id: nat, c | id < |F| :: c in caps[id] <==> Has(F, id, c)
  {
    caps, first := Own(F);
    times := seq(|F|, id requires 0 <= id < |F| => map c | c in caps[id] :: 0);
    clock := 1;
    OwnSound(F, caps, first, times);
    hide Sound, Missing, HasSources, Closed, Has;
    var changed := true;
    while changed
      invariant Sound(F, caps, first, times, clock) && HasSources(F, caps)
      invariant !changed ==> Closed(F, caps)
      decreases Missing(caps), if changed then 1 else 0
    {
      ghost var before := caps;
      caps, first, changed, times, clock := Pass(F, caps, first, times, clock);
      MissingLess(before, caps);
      SourcesStay(F, before, caps);
    }
    SoundLengths(F, caps, first, times, clock);
    forall id: nat, c | id < |F| ensures c in caps[id] <==> Has(F, id, c) {
      LeastFixedPoint(F, caps, first, times, clock, id, c);
    }
  }

  // ----- following the steps -----

  /** Going back in time visits no function twice. */
  ghost predicate Trail(times: Times, c: Capability, visited: seq<nat>) {
    && (forall k | 0 <= k < |visited| :: visited[k] < |times| && c in times[visited[k]])
    && (forall i, j | 0 <= i < j < |visited| :: times[visited[j]][c] < times[visited[i]][c])
  }

  lemma {:induction false} TrailBounded(visited: seq<nat>, n: nat)
    requires (forall k | 0 <= k < |visited| :: visited[k] < n) && forall i, j | 0 <= i < j < |visited| ::
             visited[i] != visited[j]
    ensures |visited| <= n
  {
    var head := if visited == [] then 0 else visited[0];
    if n > 0 {
      if k :| 0 <= k < |visited| && visited[k] == n - 1 {
        var rest := visited[..k] + visited[k + 1..];
        forall i | 0 <= i < |rest| ensures rest[i] == if i < k then visited[i] else visited[i + 1] {}
        TrailBounded(rest, n - 1);
      } else {
        TrailBounded(visited, n - 1);
      }
    }
  }

  /** The chain of a capability: it visits distinct functions, each referring to the next, and arrives at a
      source within as many steps as there are functions. */
  method Chain(
    F: Functions, caps: Capabilities, first: Steps, start: nat, c: Capability, ghost times: Times, ghost clock: nat)
    returns (visited: seq<nat>, found: bool)
    requires Sound(F, caps, first, times, clock) && start < |F| && c in caps[start]
    ensures found && 0 < |visited| <= |F| && visited[0] == start
    ensures forall i, j | 0 <= i < j < |visited| :: visited[i] != visited[j]
    ensures forall k | 0 <= k < |visited| - 1 :: Refers(F, visited[k], visited[k + 1])
    ensures Source(F, visited[|visited| - 1], c)
  {
    hide Sound, Trail, Refers, StepOk;
    SoundLengths(F, caps, first, times, clock);
    var current := start;
    visited, found := [start], false;
    TrailStart(F, caps, first, times, clock, start, c);
    for i := 0 to |F|
      invariant !found && |visited| == i + 1 && visited[0] == start && visited[i] == current
      invariant current < |F| && c in caps[current] && Trail(times, c, visited)
      invariant forall k | 0 <= k < i :: Refers(F, visited[k], visited[k + 1])
    {
      TrailDistinct(times, c, visited);
      StepKnown(F, caps, first, times, clock, current, c);
      match first[current][c] {
        case Via(next) =>
          TrailNext(F, caps, first, times, clock, visited, c);
          visited := visited + [next];
          current := next;
        case Direct => found := true; return;
        case Explicit => found := true; return;
      }
    }
    TrailDistinct(times, c, visited);
  }

  lemma TrailStart(F: Functions, caps: Capabilities, first: Steps, times: Times, clock: nat, id: nat, c: Capability)
    requires Sound(F, caps, first, times, clock) && id < |F| && c in caps[id]
    ensures Trail(times, c, [id])
  {
    SoundStep(F, caps, first, times, clock, id, c);
  }

  lemma StepKnown(F: Functions, caps: Capabilities, first: Steps, times: Times, clock: nat, id: nat, c: Capability)
    requires Sound(F, caps, first, times, clock) && id < |F| && c in caps[id]
    ensures c in first[id]
    ensures first[id][c].Via?
            ==> Refers(F, id, first[id][c].target) && first[id][c].target < |F| && c in caps[first[id][c].target]
    ensures !first[id][c].Via? ==> Source(F, id, c)
  {
    SoundStep(F, caps, first, times, clock, id, c);
  }

  lemma TrailNext(
    F: Functions, caps: Capabilities, first: Steps, times: Times, clock: nat, visited: seq<nat>, c: Capability)
    requires Sound(F, caps, first, times, clock) && visited != [] && Trail(times, c, visited)
    requires var id := visited[|visited| - 1];
             id < |F| && c in caps[id] && c in first[id] && first[id][c].Via?
    ensures Trail(times, c, visited + [first[visited[|visited| - 1]][c].target])
  {
    SoundStep(F, caps, first, times, clock, visited[|visited| - 1], c);
    hide Sound;
    TrailAppend(times, c, visited, first[visited[|visited| - 1]][c].target);
  }

  lemma TrailAppend(times: Times, c: Capability, visited: seq<nat>, next: nat)
    requires visited != [] && Trail(times, c, visited) && next < |times| && c in times[next]
    requires times[next][c] < times[visited[|visited| - 1]][c]
    ensures Trail(times, c, visited + [next])
  {
    var last, all := |visited| - 1, visited + [next];
    forall i, j | 0 <= i < j < |all| ensures times[all[j]][c] < times[all[i]][c] {
      if j == last + 1 && i < last {
        assert times[visited[last]][c] < times[visited[i]][c];
      }
    }
  }

  lemma SoundStep(F: Functions, caps: Capabilities, first: Steps, times: Times, clock: nat, id: nat, c: Capability)
    requires Sound(F, caps, first, times, clock) && id < |F| && c in caps[id]
    ensures StepOk(F, caps, first, times, clock, id, c)
  {
  }

  lemma TrailDistinct(times: Times, c: Capability, visited: seq<nat>)
    requires Trail(times, c, visited)
    ensures |visited| <= |times| && forall i, j | 0 <= i < j < |visited| :: visited[i] != visited[j]
  {
    TrailBounded(visited, |times|);
  }
}

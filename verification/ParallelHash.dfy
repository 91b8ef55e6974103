/**
  Hashing the files of a bundle on several threads. The threads claim positions of the work list by a
  shared counter and stop when one of them has failed; the load of that flag may be late. Whatever the
  interleaving, the result is the one of hashing the files one after the other.
 */
module ParallelHash {
  import opened Basics

  type Digest = nat

  /** What hashing each file gives, in visit order, and the order in which the files are taken. */
  datatype Work = Work(results: seq<Option<Digest>>, order: seq<nat>)

  ghost predicate Permutation(order: seq<nat>, n: nat) {
    && |order| == n
    && (forall k | 0 <= k < n :: order[k] < n)
    && (forall i, j | 0 <= i < j < n :: order[i] != order[j])
    && (forall index: nat | index < n :: index in order)
  }

  ghost predicate WellFormed(w: Work) {
    Permutation(w.order, |w.results|)
  }

  /** One after the other: all digests in visit order, or none if a file cannot be hashed. */
  function Sequential(results: seq<Option<Digest>>): Option<seq<Digest>> {
    if results == [] then Some([])
    else
      match (Sequential(results[..|results| - 1]), results[|results| - 1])
      case (Some(front), Some(last)) => Some(front + [last])
      case _ => None
  }

  // ----- the threads -----

  datatype Phase = Looping | Claiming | Hashing(position: nat) | Finished

  /** `claims` lists the positions that a thread has claimed. */
  datatype Thread = Thread(phase: Phase, done: seq<(nat, Digest)>, claims: seq<nat>)

  datatype State = State(next: nat, failed: bool, threads: seq<Thread>)

  /** Which thread goes on, and whether its load of the flag misses a store. */
  datatype Turn = Turn(thread: nat, late: bool)

  function Start(threads: nat): State {
    State(0, false, seq(threads, _ => Thread(Looping, [], [])))
  }

  function Set(s: State, t: nat, thread: Thread): State
    requires t < |s.threads|
  {
    s.(threads := s.threads[t := thread])
  }

  function Go(w: Work, s: State, turn: Turn): State {
    if turn.thread >= |s.threads| then s
    else
      var t, thread := turn.thread, s.threads[turn.thread];
      match thread.phase
      case Looping => Set(s, t, thread.(phase := if s.failed && !turn.late then Finished else Claiming))
      case Claiming =>
        var claimed := s.(next := s.next + 1);
        if s.next < |w.order| then Set(claimed, t,
                                       thread.(phase := Hashing(s.next), claims := thread.claims + [s.next]))
        else Set(claimed, t, thread.(phase := Finished))
      case Hashing(position) =>
        if position >= |w.order| || w.order[position] >= |w.results| then s
        else (
          match w.results[w.order[position]]
          case Some(digest) => Set(s, t, thread.(phase := Looping, done := thread.done + [(w.order[position], digest)]))
          case None => Set(s.(failed := true), t, thread.(phase := Looping)))
      case Finished => s
  }

  function Run(w: Work, threads: nat, turns: seq<Turn>): State {
    if turns == [] then Start(threads) else Go(w, Run(w, threads, turns[..|turns| - 1]), turns[|turns| - 1])
  }

  // ----- what every interleaving keeps -----

  /** The entry of a position whose file can be hashed. */
  ghost predicate Recorded(w: Work, thread: Thread, k: nat) {
    k < |w.order| && w.order[k] < |w.results| && w.results[w.order[k]].Some?
    && (w.order[k], w.results[w.order[k]].value) in thread.done
  }

  ghost predicate Broken(w: Work, k: nat) {
    k < |w.order| && w.order[k] < |w.results| && w.results[w.order[k]].None?
  }

  ghost predicate ThreadOk(w: Work, s: State, thread: Thread) {
    && (forall k | k in thread.claims :: k < s.next && k < |w.order|)
    && (forall i, j | 0 <= i < j < |thread.claims| :: thread.claims[i] != thread.claims[j])
    && (thread.phase.Hashing? ==> thread.phase.position in thread.claims)
    && (forall k | k in thread.claims && !(thread.phase.Hashing? && thread.phase.position == k) ::
          Recorded(w, thread, k) || (s.failed && Broken(w, k)))
    && (forall e | e in thread.done :: e.0 < |w.results| && w.results[e.0] == Some(e.1))
    && (thread.phase.Finished? ==> s.failed || |w.order| <= s.next)
  }

  ghost predicate Claimed(s: State, k: nat) {
    exists t | 0 <= t < |s.threads| :: k in s.threads[t].claims
  }

  ghost predicate Inv(w: Work, s: State) {
    && (forall t | 0 <= t < |s.threads| :: ThreadOk(w, s, s.threads[t]))
    && (forall t, u, k | 0 <= t < u < |s.threads| && k in s.threads[t].claims :: k !in s.threads[u].claims)
    && (forall k: nat | k < s.next && k < |w.order| :: Claimed(s, k))
    && (s.failed ==> exists index | 0 <= index < |w.results| :: w.results[index].None?)
  }

  lemma GoKeeps(w: Work, s: State, turn: Turn)
    requires WellFormed(w) && Inv(w, s)
    ensures Inv(w, Go(w, s, turn))
  {
    if turn.thread < |s.threads| {
      var t, s' := turn.thread, Go(w, s, turn);
      GoThread(w, s, turn);
      forall u | 0 <= u < |s.threads| && u != t ensures ThreadOk(w, s', s'.threads[u]) {
        OtherThread(w, s, s', s.threads[u]);
      }
      forall k: nat | k < s'.next && k < |w.order| ensures Claimed(s', k) {
        if k < s.next {
          assert Claimed(s, k);
          var u :| 0 <= u < |s.threads| && k in s.threads[u].claims;
          assert k in s'.threads[u].claims;
        } else {
          assert k in s'.threads[t].claims;
        }
      }
    }
  }

  lemma OtherThread(w: Work, s: State, s': State, thread: Thread)
    requires WellFormed(w) && ThreadOk(w, s, thread) && s.next <= s'.next && (s.failed ==> s'.failed)
    ensures ThreadOk(w, s', thread)
  {
  }

  lemma GoThread(w: Work, s: State, turn: Turn)
    requires WellFormed(w) && Inv(w, s) && turn.thread < |s.threads|
    ensures var s' := Go(w, s, turn);
            && |s'.threads| == |s.threads| && ThreadOk(w, s', s'.threads[turn.thread])
            && s.next <= s'.next <= s.next + 1 && (s.failed ==> s'.failed)
            && (s'.failed && !s.failed ==> exists index | 0 <= index < |w.results| :: w.results[index].None?)
            && (forall u | 0 <= u < |s.threads| && u != turn.thread :: s'.threads[u] == s.threads[u])
            && s.threads[turn.thread].claims <= s'.threads[turn.thread].claims
            && (forall k | k in s'.threads[turn.thread].claims :: k in s.threads[turn.thread].claims || k == s.next)
            && (s'.next > s.next && s.next < |w.order| ==> s.next in s'.threads[turn.thread].claims)
  {
    var thread := s.threads[turn.thread];
    assert ThreadOk(w, s, thread);
    match thread.phase
    case Looping => PhaseOnly(w, s, thread, if s.failed && !turn.late then Finished else Claiming);
    case Hashing(position) =>
      assert position in thread.claims;
      HashOne(w, s, thread, position);
    case Claiming =>
      if s.next < |w.order| { ClaimNext(w, s, thread); }
      else { OtherThread(w, s, s.(next := s.next + 1), thread); PhaseOnly(w, s.(next := s.next + 1), thread, Finished);
        }
    case _ =>
  }

  lemma HashOne(w: Work, s: State, thread: Thread, position: nat)
    requires WellFormed(w) && ThreadOk(w, s, thread) && thread.phase == Hashing(position) && position < |w.order|
    ensures var result := w.results[w.order[position]];
            if result.Some? then ThreadOk(w, s,
                                          thread.(phase := Looping,
                                                  done := thread.done + [(w.order[position], result.value)]))
            else ThreadOk(w, s.(failed := true), thread.(phase := Looping))
  {
    var result := w.results[w.order[position]];
    if result.Some? {
      var thread' := thread.(phase := Looping, done := thread.done + [(w.order[position], result.value)]);
      assert Recorded(w, thread', position);
      forall k | k in thread'.claims && k != position ensures Recorded(w, thread', k) || (s.failed && Broken(w, k)) {
        assert Recorded(w, thread, k) || (s.failed && Broken(w, k));
      }
    } else {
      assert Broken(w, position);
      forall k | Recorded(w, thread, k) ensures Recorded(w, thread.(phase := Looping), k) {}
    }
  }

  lemma PhaseOnly(w: Work, s: State, thread: Thread, phase: Phase)
    requires ThreadOk(w, s, thread) && !thread.phase.Hashing? && !phase.Hashing?
             && (phase.Finished? ==> s.failed || |w.order| <= s.next)
    ensures ThreadOk(w, s, thread.(phase := phase))
  {
    forall k | Recorded(w, thread, k) ensures Recorded(w, thread.(phase := phase), k) {}
  }

  lemma ClaimNext(w: Work, s: State, thread: Thread)
    requires ThreadOk(w, s, thread) && thread.phase.Claiming? && s.next < |w.order|
    ensures ThreadOk(w, s.(next := s.next + 1), thread.(phase := Hashing(s.next), claims := thread.claims + [s.next]))
  {
    var claims := thread.claims + [s.next];
    forall i, j | 0 <= i < j < |claims| ensures claims[i] != claims[j] {
      if j == |thread.claims| { assert claims[i] in thread.claims; }
    }
    forall k | k in claims && k != s.next ensures Recorded(w, thread, k) || (s.failed && Broken(w, k)) {
      assert k in thread.claims;
    }
    forall k | k in thread.claims && Recorded(w, thread, k)
      ensures Recorded(w, thread.(phase := Hashing(s.next), claims := claims), k) {}
  }

  lemma {:induction false} RunKeeps(w: Work, threads: nat, turns: seq<Turn>)
    requires WellFormed(w)
    ensures Inv(w, Run(w, threads, turns)) && |Run(w, threads, turns).threads| == threads
  {
    if turns != [] {
      RunKeeps(w, threads, turns[..|turns| - 1]);
      GoKeeps(w, Run(w, threads, turns[..|turns| - 1]), turns[|turns| - 1]);
    }
  }

  predicate AllFinished(s: State) {
    forall t | 0 <= t < |s.threads| :: s.threads[t].phase.Finished?
  }

  predicate Busy(s: State, t: nat) {
    t < |s.threads| && !s.threads[t].phase.Finished?
  }

  // ----- every interleaving ends -----

  /** The turns that a thread takes at most before it next claims a position or finishes. */
  function Weight(phase: Phase): nat {
    match phase
    case Looping => 2
    case Claiming => 1
    case Hashing(_) => 3
    case Finished => 0
  }

  function Weights(threads: seq<Thread>): nat {
    if threads == [] then 0 else Weights(threads[..|threads| - 1]) + Weight(threads[|threads| - 1].phase)
  }

  /** The turns that are left at most: three for each position that is not claimed yet, and those of the threads. */
  function Left(w: Work, s: State): nat {
    3 * (if s.next < |w.order| then |w.order| - s.next else 0) + Weights(s.threads)
  }

  lemma {:induction false} WeightsSet(threads: seq<Thread>, t: nat, thread: Thread)
    requires t < |threads|
    ensures Weights(threads[t := thread]) == Weights(threads) - Weight(threads[t].phase) + Weight(thread.phase)
    decreases |threads|
  {
    var last := |threads| - 1;
    if t == last {
      assert threads[t := thread][..last] == threads[..last];
    } else {
      assert threads[t := thread][..last] == threads[..last][t := thread];
      WeightsSet(threads[..last], t, thread);
    }
  }

  lemma {:induction false} WeightsStart(threads: nat)
    ensures Weights(Start(threads).threads) == 2 * threads
  {
    if threads > 0 {
      assert Start(threads).threads[..threads - 1] == Start(threads - 1).threads;
      WeightsStart(threads - 1);
    }
  }

  /** A turn of a thread that has not finished uses one up, whether or not it sees the flag in time. */
  lemma TurnUsed(w: Work, s: State, turn: Turn)
    requires WellFormed(w) && Inv(w, s) && Busy(s, turn.thread)
    ensures Left(w, Go(w, s, turn)) < Left(w, s)
  {
    hide Weights;
    var thread := s.threads[turn.thread];
    assert ThreadOk(w, s, thread);
    WeightsSet(s.threads, turn.thread, Go(w, s, turn).threads[turn.thread]);
  }

  /** How many of the turns were taken by threads that had not finished. */
  function BusyTurns(w: Work, threads: nat, turns: seq<Turn>): nat {
    if turns == [] then 0
    else
      var front := turns[..|turns| - 1];
      BusyTurns(w, threads, front) + if Busy(Run(w, threads, front), turns[|turns| - 1].thread) then 1 else 0
  }

  /** In every interleaving, the threads take at most three turns for each file and two for each thread. */
  lemma {:induction false} TurnsBounded(w: Work, threads: nat, turns: seq<Turn>)
    requires WellFormed(w)
    ensures BusyTurns(w, threads, turns) + Left(w, Run(w, threads, turns)) <= 3 * |w.order| + 2 * threads
  {
    hide Go, Inv, Left;
    if turns == [] {
      StartLeft(w, threads);
    } else {
      var front, turn := turns[..|turns| - 1], turns[|turns| - 1];
      TurnsBounded(w, threads, front);
      RunKeeps(w, threads, front);
      var s := Run(w, threads, front);
      if Busy(s, turn.thread) {
        TurnUsed(w, s, turn);
      } else {
        IdleTurn(w, s, turn);
      }
    }
  }

  lemma StartLeft(w: Work, threads: nat)
    ensures Left(w, Start(threads)) == 3 * |w.order| + 2 * threads
  {
    WeightsStart(threads);
  }

  lemma IdleTurn(w: Work, s: State, turn: Turn)
    requires !Busy(s, turn.thread)
    ensures Go(w, s, turn) == s
  {
  }

  // ----- joining the threads -----

  /** The digests of all threads put in their places. */
  method Join(n: nat, threads: seq<Thread>) returns (digests: seq<Digest>)
    requires forall t, e | 0 <= t < |threads| && e in threads[t].done :: e.0 < n
    ensures |digests| == n
    ensures forall index: nat, d | index < n && Only(threads, |threads|, index, d)
            && Some1(threads, |threads|, index) :: digests[index] == d
  {
    var placed := new Digest[n](_ => 0);
    for t := 0 to |threads|
      invariant forall index: nat, d | index < n && Only(threads, t, index, d) && Some1(threads, t, index) ::
                placed[index] == d
    {
      for k := 0 to |threads[t].done|
        invariant forall index: nat, d | index < n && Only(threads, t, index, d)
                  && OnlyIn(threads[t].done[..k], index, d)
                    && (Some1(threads, t, index) || SomeIn(threads[t].done[..k], index)) :: placed[index] == d
      {
        var e := threads[t].done[k];
        assert e in threads[t].done;
        assert threads[t].done[..k + 1] == threads[t].done[..k] + [e];
        placed[e.0] := e.1;
      }
      assert threads[t].done[..|threads[t].done|] == threads[t].done;
    }
    digests := placed[..];
  }

  /** Every entry for `index` among the first `n` threads holds `d`. */
  ghost predicate Only(threads: seq<Thread>, n: nat, index: nat, d: Digest)
    requires n <= |threads|
  {
    forall t | 0 <= t < n :: OnlyIn(threads[t].done, index, d)
  }

  ghost predicate OnlyIn(done: seq<(nat, Digest)>, index: nat, d: Digest) {
    forall e | e in done && e.0 == index :: e.1 == d
  }

  ghost predicate Some1(threads: seq<Thread>, n: nat, index: nat)
    requires n <= |threads|
  {
    exists t | 0 <= t < n :: SomeIn(threads[t].done, index)
  }

  ghost predicate SomeIn(done: seq<(nat, Digest)>, index: nat) {
    exists e | e in done :: e.0 == index
  }

  // ----- the result -----

  lemma {:induction false} SequentialIs(results: seq<Option<Digest>>)
    ensures Sequential(results).None? <==> exists index | 0 <= index < |results| :: results[index].None?
    ensures Sequential(results).Some? ==>
              && |Sequential(results).value| == |results|
              && (forall index | 0 <= index < |results| :: results[index] == Some(Sequential(results).value[index]))
  {
    if results != [] {
      var last := |results| - 1;
      SequentialIs(results[..last]);
      if results[last].Some? && exists index | 0 <= index < |results| :: results[index].None? {
        var index :| 0 <= index < |results| && results[index].None?;
        assert results[..last][index].None?;
      }
    }
  }

  /** When all threads have finished, either one of them has failed, or the entry of every file is there. */
  lemma FinishedOutcome(w: Work, s: State)
    requires WellFormed(w) && Inv(w, s) && AllFinished(s) && |s.threads| > 0
    ensures s.failed <==> exists index | 0 <= index < |w.results| :: w.results[index].None?
    ensures !s.failed ==> forall index: nat | index < |w.results| ::
              w.results[index].Some? && Some1(s.threads, |s.threads|, index)
              && Only(s.threads, |s.threads|, index, w.results[index].value)
    ensures !s.failed ==> forall k: nat | k < |w.order| :: Claimed(s, k)
  {
    if !s.failed {
      assert ThreadOk(w, s, s.threads[0]);
      assert |w.order| <= s.next;
      forall index: nat | index < |w.results|
        ensures w.results[index].Some? && Some1(s.threads, |s.threads|, index)
                && Only(s.threads, |s.threads|, index, w.results[index].value)
      {
        assert index in w.order;
        var k :| 0 <= k < |w.order| && w.order[k] == index;
        assert Claimed(s, k);
        var t :| 0 <= t < |s.threads| && k in s.threads[t].claims;
        assert ThreadOk(w, s, s.threads[t]);
        assert Recorded(w, s.threads[t], k);
        assert SomeIn(s.threads[t].done, index);
        forall u | 0 <= u < |s.threads| ensures OnlyIn(s.threads[u].done, index, w.results[index].value) {
          assert ThreadOk(w, s, s.threads[u]);
        }
      }
    }
  }

  /** The scheduler lets some thread go on that has not finished, as long as there is one. */
  ghost predicate Schedules(next: State -> Turn) {
    forall s :: AllFinished(s) || Busy(s, next(s).thread)
  }

  /** Parallel hashing is sequential hashing: for any number of threads and any scheduler, the threads finish,
      after at most three turns for each file and two for each thread, and the result is the sequential one.
      (No state recurs before all have finished, so that a scheduler can choose every interleaving.) */
  method Inventory(w: Work, threads: nat, next: State -> Turn) returns (r: Option<seq<Digest>>, turns: seq<Turn>)
    requires WellFormed(w) && threads > 0 && Schedules(next)
    ensures r == Sequential(w.results)
    ensures AllFinished(Run(w, threads, turns)) && |turns| <= 3 * |w.order| + 2 * threads
  {
    hide Go, Inv, Left, ThreadOk;
    var s := Start(threads);
    turns := [];
    StartLeft(w, threads);
    while !AllFinished(s)
      invariant s == Run(w, threads, turns)
      invariant |turns| + Left(w, s) <= 3 * |w.order| + 2 * threads
      decreases Left(w, s)
    {
      var turn := next(s);
      RunKeeps(w, threads, turns);
      TurnUsed(w, s, turn);
      assert (turns + [turn])[..|turns|] == turns;
      s, turns := Go(w, s, turn), turns + [turn];
    }
    RunKeeps(w, threads, turns);
    r := Collect(w, s);
  }

  method Collect(w: Work, s: State) returns (r: Option<seq<Digest>>)
    requires WellFormed(w) && Inv(w, s) && AllFinished(s) && |s.threads| > 0
    ensures r == Sequential(w.results)
  {
    FinishedOutcome(w, s);
    SequentialIs(w.results);
    if s.failed {
      return None;
    }
    forall t, e | 0 <= t < |s.threads| && e in s.threads[t].done ensures e.0 < |w.results| {
      assert ThreadOk(w, s, s.threads[t]);
    }
    var digests := Join(|w.results|, s.threads);
    assert digests == Sequential(w.results).value;
    return Some(digests);
  }

  /** No file is hashed twice, by one thread or by two. */
  lemma HashedOnce(w: Work, threads: nat, turns: seq<Turn>, t: nat, i: nat, u: nat, j: nat)
    requires WellFormed(w)
    requires var s := Run(w, threads, turns);
             t < |s.threads| && i < |s.threads[t].claims| && u < |s.threads| && j < |s.threads[u].claims|
             && (t, i) != (u, j)
    ensures var s := Run(w, threads, turns);
            var a, b := s.threads[t].claims[i], s.threads[u].claims[j];
            a < |w.order| && b < |w.order| && w.order[a] != w.order[b]
  {
    RunKeeps(w, threads, turns);
    var s := Run(w, threads, turns);
    assert ThreadOk(w, s, s.threads[t]) && ThreadOk(w, s, s.threads[u]);
    var a, b := s.threads[t].claims[i], s.threads[u].claims[j];
    assert a in s.threads[t].claims && b in s.threads[u].claims;
    assert a != b;
  }

  ghost predicate Hashed(w: Work, s: State, k: nat) {
    exists t | 0 <= t < |s.threads| :: k in s.threads[t].claims && Recorded(w, s.threads[t], k)
  }

  /** When all threads have finished, every file was hashed, and its digest is recorded by the thread that claimed
      it; unless a file cannot be hashed, and then one has failed. */
  lemma NoneLeftOut(w: Work, threads: nat, turns: seq<Turn>)
    requires WellFormed(w) && threads > 0 && AllFinished(Run(w, threads, turns))
    ensures var s := Run(w, threads, turns);
            && (s.failed <==> exists index | 0 <= index < |w.results| :: w.results[index].None?)
            && (!s.failed ==> forall k: nat | k < |w.order| :: Hashed(w, s, k))
  {
    RunKeeps(w, threads, turns);
    var s := Run(w, threads, turns);
    FinishedOutcome(w, s);
    forall k: nat | k < |w.order| && !s.failed ensures Hashed(w, s, k) {
      assert Claimed(s, k);
      var t :| 0 <= t < |s.threads| && k in s.threads[t].claims;
      assert ThreadOk(w, s, s.threads[t]);
    }
  }
}

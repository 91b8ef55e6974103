/**
  Cleaning the build cache up: what is listed is taken in the order of its last use, and removed while it
  has expired or the cache is over its budget. Nothing interferes with the listing here.
 */
module Eviction {
  import opened Basics

  datatype Kind = KeyEntry | LockFile | StagingDirectory | Other

  /** An entry of the cache's directory; `name` is its place in the order of names. */
  datatype Listed = Listed(kind: Kind, name: nat, size: nat, used: nat)

  datatype Limits = Limits(maxBytes: nat, maxAge: nat, scanEntries: nat, removeEntries: nat)

  function SaturatingAdd(a: nat, b: nat): nat {
    if a + b > MAX_U64 then MAX_U64 else a + b
  }

  function SaturatingSub(a: nat, b: nat): nat {
    if a < b then 0 else a - b
  }

  predicate Expired(limits: Limits, now: nat, e: Listed) {
    SaturatingSub(now, e.used) > limits.maxAge
  }

  // ----- the order of last use -----

  predicate Before(a: Listed, b: Listed) {
    a.used < b.used || (a.used == b.used && a.name <= b.name)
  }

  predicate Sorted(s: seq<Listed>) {
    forall i, j | 0 <= i < j < |s| :: Before(s[i], s[j])
  }

  function Insert(s: seq<Listed>, e: Listed): (r: seq<Listed>)
    requires Sorted(s)
    ensures Sorted(r) && multiset(r) == multiset(s) + multiset{e}
  {
    if s == [] then [e]
    else
      var last, front := s[|s| - 1], s[..|s| - 1];
      assert s == front + [last];
      if Before(last, e) then s + [e]
      else
        var inner := Insert(front, e);
        InsertedBefore(front, e, inner, last);
        inner + [last]
  }

  lemma InsertedBefore(front: seq<Listed>, e: Listed, inner: seq<Listed>, last: Listed)
    requires multiset(inner) == multiset(front) + multiset{e} && Sorted(inner)
    requires Before(e, last) && forall i | 0 <= i < |front| :: Before(front[i], last)
    ensures Sorted(inner + [last])
  {
    forall i | 0 <= i < |inner| ensures Before(inner[i], last) {
      assert inner[i] in multiset(inner);
      assert inner[i] in multiset(front) || inner[i] == e;
    }
  }

  function Sort(s: seq<Listed>): (r: seq<Listed>)
    ensures Sorted(r) && multiset(r) == multiset(s)
  {
    if s == [] then []
    else
      assert s == s[..|s| - 1] + [s[|s| - 1]];
      Insert(Sort(s[..|s| - 1]), s[|s| - 1])
  }

  // ----- sizes -----

  function Sum(s: seq<Listed>): nat {
    if s == [] then 0 else Sum(s[..|s| - 1]) + s[|s| - 1].size
  }

  lemma SumAppend(s: seq<Listed>, e: Listed)
    ensures Sum(s + [e]) == Sum(s) + e.size
  {
    assert (s + [e])[..|s|] == s;
  }

  lemma {:induction false} SumOfSame(s: seq<Listed>, t: seq<Listed>)
    requires multiset(s) == multiset(t)
    ensures Sum(s) == Sum(t)
    decreases |s|
  {
    if s == [] {
      assert |multiset(t)| == 0;
    } else {
      var e, front := s[|s| - 1], s[..|s| - 1];
      OneLess(s, |s| - 1);
      assert front + s[|s|..] == front;
      assert e in multiset(t);
      var k :| 0 <= k < |t| && t[k] == e;
      OneLess(t, k);
      SumOfSame(front, t[..k] + t[k + 1..]);
      SumWithout(t, k);
    }
  }

  lemma OneLess(t: seq<Listed>, k: nat)
    requires k < |t|
    ensures multiset(t[..k] + t[k + 1..]) == multiset(t) - multiset{t[k]}
  {
    assert t == t[..k] + [t[k]] + t[k + 1..];
  }

  lemma {:induction false} SumWithout(t: seq<Listed>, k: nat)
    requires k < |t|
    ensures Sum(t) == Sum(t[..k] + t[k + 1..]) + t[k].size
    decreases |t|
  {
    var last, front := t[|t| - 1], t[..|t| - 1];
    if k == |t| - 1 {
      assert t[..k] + t[k + 1..] == front;
    } else {
      SumWithout(front, k);
      assert t[..k] + t[k + 1..] == (front[..k] + front[k + 1..]) + [last];
      SumAppend(front[..k] + front[k + 1..], last);
    }
  }

  // ----- what is looked at -----

  function Matched(listing: seq<Listed>): (r: seq<Listed>)
    ensures forall e :: e in r <==> e in listing && e.kind != Other
  {
    if listing == [] then []
    else
      var last := listing[|listing| - 1];
      assert listing == listing[..|listing| - 1] + [last];
      if last.kind == Other then Matched(listing[..|listing| - 1]) else Matched(listing[..|listing| - 1]) + [last]
  }

  function Scanned(listing: seq<Listed>, limits: Limits): seq<Listed> {
    Matched(if |listing| <= limits.scanEntries then listing else listing[..limits.scanEntries])
  }

  /** Each entry was removed because it had expired, or because what was left was over the budget. Only key
      entries are removed for the budget. */
  ghost predicate Justified(limits: Limits, now: nat, total: nat, removed: seq<Listed>, k: nat)
    requires k < |removed|
  {
    Expired(limits, now, removed[k]) || (removed[k].kind == KeyEntry && total > limits.maxBytes + Sum(removed[..k]))
  }

  /** Younger entries than a removed key entry may stay, older key entries may not. */
  ghost predicate LeastRecent(order: seq<Listed>, removed: seq<Listed>) {
    forall i, j | 0 <= i < j < |order| && order[j] in removed && order[j].kind == KeyEntry
      && order[i].kind == KeyEntry ::
      order[i] in removed
  }

  /** Nothing expired is left, and what is left fits the budget. */
  ghost predicate Clean(limits: Limits, now: nat, order: seq<Listed>, removed: seq<Listed>) {
    && (forall k | 0 <= k < |order| && order[k] !in removed :: !Expired(limits, now, order[k]))
    && Sum(order) <= limits.maxBytes + Sum(removed)
  }

  /** The entries before `i` in the order, as they were dealt with. */
  ghost predicate Dealt(limits: Limits, now: nat, order: seq<Listed>, removed: seq<Listed>, i: nat)
    requires i <= |order|
  {
    && (forall e | e in removed :: e in order[..i])
    && (forall k | 0 <= k < i && order[k] !in removed :: order[k].kind != KeyEntry && !Expired(limits, now, order[k]))
    && Sum(removed) == Sum(order[..i])
  }

  ghost predicate Names(order: seq<Listed>) {
    forall i, j | 0 <= i < j < |order| :: order[i].name != order[j].name
  }

  /** Only key entries have a size. */
  ghost predicate Sizes(s: seq<Listed>) {
    forall e | e in s && e.kind != KeyEntry :: e.size == 0
  }

  lemma UniqueMultiset(s: seq<Listed>)
    requires Names(s)
    ensures forall e :: multiset(s)[e] <= 1
  {
    if e :| multiset(s)[e] > 1 {
      TwiceAt(s, e);
    }
  }

  lemma {:induction false} TwiceAt(s: seq<Listed>, e: Listed)
    requires multiset(s)[e] > 1
    ensures exists i, j | 0 <= i < j < |s| :: s[i] == e && s[j] == e
  {
    var last, front := s[|s| - 1], s[..|s| - 1];
    assert s == front + [last];
    if last == e {
      assert e in multiset(front);
      var i :| 0 <= i < |front| && front[i] == e;
      assert s[i] == e && s[|s| - 1] == e;
    } else {
      TwiceAt(front, e);
      var i, j :| 0 <= i < j < |front| && front[i] == e && front[j] == e;
      assert s[i] == e && s[j] == e;
    }
  }

  /** How the listing is taken: the sizes add up, saturating. */
  method Scan(listing: seq<Listed>, limits: Limits) returns (entries: seq<Listed>, total: nat)
    ensures entries == Scanned(listing, limits)
    ensures Sum(entries) <= MAX_U64 ==> total == Sum(entries)
  {
    hide Sum, Matched;
    entries, total := [], 0;
    var looked := if |listing| <= limits.scanEntries then listing else listing[..limits.scanEntries];
    NothingMatched();
    assert looked[..0] == [];
    for i := 0 to |looked|
      invariant entries == Matched(looked[..i])
      invariant total == if Sum(entries) <= MAX_U64 then Sum(entries) else MAX_U64
    {
      var e := looked[i];
      MatchedNext(looked, i);
      if e.kind == Other {
        continue;
      }
      SumAppend(entries, e);
      total := SaturatingAdd(total, e.size);
      entries := entries + [e];
    }
    assert looked[..|looked|] == looked;
  }

  lemma NothingMatched()
    ensures Matched([]) == [] && Sum([]) == 0
  {
  }

  lemma MatchedNext(looked: seq<Listed>, i: nat)
    requires i < |looked|
    ensures Matched(looked[..i + 1])
            == if looked[i].kind == Other then Matched(looked[..i]) else Matched(looked[..i]) + [looked[i]]
  {
    assert looked[..i + 1][..i] == looked[..i];
  }

  /** Removes the least recently used entries. */
  method Evict(listing: seq<Listed>, limits: Limits, now: nat) returns (removed: seq<Listed>)
    requires Names(listing) && Sizes(listing)
    ensures |removed| <= limits.removeEntries
    ensures forall e | e in removed :: e in listing && e.kind != Other
    ensures forall e | e in removed && e.kind != KeyEntry :: Expired(limits, now, e)
    ensures var order := Sort(Scanned(listing, limits));
            && LeastRecent(order, removed)
            && (Sum(order) <= MAX_U64
                ==> forall k | 0 <= k < |removed| :: Justified(limits, now, Sum(order), removed, k))
            && (Sum(order) <= MAX_U64 && |order| <= limits.removeEntries ==> Clean(limits, now, order, removed))
  {
    var entries, total := Scan(listing, limits);
    var order := Sort(entries);
    OrderOf(listing, limits);
    SumOfSame(entries, order);
    removed := RemoveInOrder(order, total, limits, now);
  }

  /** Takes the entries in order, until what is left is young and fits. */
  method RemoveInOrder(order: seq<Listed>, sum: nat, limits: Limits, now: nat) returns (removed: seq<Listed>)
    requires Sorted(order) && Names(order) && Sizes(order) && (Sum(order) <= MAX_U64 ==> sum == Sum(order))
    ensures |removed| <= limits.removeEntries
    ensures forall e | e in removed :: e in order
    ensures forall e | e in removed && e.kind != KeyEntry :: Expired(limits, now, e)
    ensures LeastRecent(order, removed)
    ensures Sum(order) <= MAX_U64 ==> forall k | 0 <= k < |removed| :: Justified(limits, now, Sum(order), removed, k)
    ensures Sum(order) <= MAX_U64 && |order| <= limits.removeEntries ==> Clean(limits, now, order, removed)
  {
    hide Sum, Justified, Dealt, LeastRecent, Expired, Names, Clean;
    removed := [];
    var i := 0;
    var total: nat := sum;
    ghost var stopped := false;
    DealtNone(limits, now, order);
    while i < |order| && i < limits.removeEntries
      invariant i <= |order| && i <= limits.removeEntries && |removed| <= i && !stopped
      invariant Sum(order) <= MAX_U64 ==> total == Sum(order) - Sum(removed)
      invariant Dealt(limits, now, order, removed, i)
      invariant forall e | e in removed && e.kind != KeyEntry :: Expired(limits, now, e)
      invariant Sum(order) <= MAX_U64
                ==> forall k | 0 <= k < |removed| :: Justified(limits, now, Sum(order), removed, k)
    {
      var e := order[i];
      if total <= limits.maxBytes && !Expired(limits, now, e) {
        RestIsYoung(limits, now, order, i);
        stopped := true;
        break;
      }
      if e.kind != KeyEntry && !Expired(limits, now, e) {
        DealtSkipped(limits, now, order, removed, i);
        i := i + 1;
        continue;
      }
      DealtRemoved(limits, now, order, removed, i);
      if Sum(order) <= MAX_U64 {
        JustifiedMore(limits, now, Sum(order), removed, e);
      }
      removed := removed + [e];
      total := SaturatingSub(total, e.size);
      i := i + 1;
    }
    KeptOrder(limits, now, order, removed, i);
    Removed(limits, now, order, removed, i);
    if Sum(order) <= MAX_U64 && |order| <= limits.removeEntries {
      Finished(limits, now, order, removed, i);
    }
  }

  lemma DealtNone(limits: Limits, now: nat, order: seq<Listed>)
    ensures Dealt(limits, now, order, [], 0) && Sum([]) == 0
  {
  }

  lemma DealtSkipped(limits: Limits, now: nat, order: seq<Listed>, removed: seq<Listed>, i: nat)
    requires i < |order| && Dealt(limits, now, order, removed, i) && Sizes(order)
    requires order[i].kind != KeyEntry && !Expired(limits, now, order[i])
    ensures Dealt(limits, now, order, removed, i + 1)
  {
    assert order[..i + 1] == order[..i] + [order[i]];
    SumAppend(order[..i], order[i]);
  }

  lemma DealtRemoved(limits: Limits, now: nat, order: seq<Listed>, removed: seq<Listed>, i: nat)
    requires i < |order| && Dealt(limits, now, order, removed, i)
    ensures Dealt(limits, now, order, removed + [order[i]], i + 1)
    ensures Sum(removed + [order[i]]) == Sum(removed) + order[i].size <= Sum(order)
  {
    hide Sum, Expired;
    var e, now_ := order[i], order[..i + 1];
    assert now_ == order[..i] + [e];
    SumAppend(order[..i], e);
    SumAppend(removed, e);
    SumPart(order, i + 1);
    InJoined(removed, order[..i], e);
    forall k | 0 <= k < i + 1 && order[k] !in removed + [e]
      ensures order[k].kind != KeyEntry && !Expired(limits, now, order[k])
    {
      NotJoined(removed, e, order[k]);
    }
  }

  lemma InJoined(a: seq<Listed>, b: seq<Listed>, e: Listed)
    requires forall x | x in a :: x in b
    ensures forall x | x in a + [e] :: x in b + [e]
  {
  }

  lemma NotJoined(a: seq<Listed>, e: Listed, x: Listed)
    requires x !in a + [e]
    ensures x != e && x !in a
  {
    assert e in a + [e];
  }

  lemma JustifiedMore(limits: Limits, now: nat, total: nat, removed: seq<Listed>, e: Listed)
    requires forall k | 0 <= k < |removed| :: Justified(limits, now, total, removed, k)
    requires Expired(limits, now, e) || (e.kind == KeyEntry && total > limits.maxBytes + Sum(removed))
    ensures forall k | 0 <= k < |removed| + 1 :: Justified(limits, now, total, removed + [e], k)
  {
    var all := removed + [e];
    forall k | 0 <= k < |all| ensures Justified(limits, now, total, all, k) {
      if k == |removed| {
        assert all[..k] == removed;
      } else {
        assert all[..k] == removed[..k] && all[k] == removed[k];
        assert Justified(limits, now, total, removed, k);
      }
    }
  }

  lemma Removed(limits: Limits, now: nat, order: seq<Listed>, removed: seq<Listed>, i: nat)
    requires i <= |order| && Dealt(limits, now, order, removed, i)
    ensures forall e | e in removed :: e in order
  {
  }

  lemma Finished(limits: Limits, now: nat, order: seq<Listed>, removed: seq<Listed>, i: nat)
    requires i <= |order| && Dealt(limits, now, order, removed, i)
    requires i < |order| ==> Sum(order) <= limits.maxBytes + Sum(removed) && forall k | i <= k < |order| ::
             !Expired(limits, now, order[k])
    ensures Clean(limits, now, order, removed)
  {
    if i == |order| {
      assert order[..i] == order;
    }
  }

  lemma OrderOf(listing: seq<Listed>, limits: Limits)
    requires Names(listing) && Sizes(listing)
    ensures var order := Sort(Scanned(listing, limits));
            && Names(order) && Sizes(order) && forall e | e in order :: e in listing && e.kind != Other
  {
    var order := Sort(Scanned(listing, limits));
    var scanned := Scanned(listing, limits);
    forall e | e in order ensures e in listing && e.kind != Other {
      assert e in multiset(order);
      assert e in multiset(scanned);
    }
    MatchedNames(if |listing| <= limits.scanEntries then listing else listing[..limits.scanEntries]);
    UniqueMultiset(scanned);
    forall i, j | 0 <= i < j < |order| ensures order[i].name != order[j].name {
      DistinctInOrder(scanned, order, i, j);
    }
  }

  lemma {:induction false} MatchedNames(listing: seq<Listed>)
    requires Names(listing)
    ensures Names(Matched(listing))
  {
    if listing != [] {
      var last, front := listing[|listing| - 1], listing[..|listing| - 1];
      MatchedNames(front);
      if last.kind != Other {
        var r := Matched(front);
        forall i | 0 <= i < |r| ensures r[i].name != last.name {
          assert r[i] in front;
        }
      }
    }
  }

  lemma DistinctInOrder(s: seq<Listed>, order: seq<Listed>, i: nat, j: nat)
    requires Names(s) && multiset(order) == multiset(s) && i < j < |order| && forall e :: multiset(s)[e] <= 1
    ensures order[i].name != order[j].name
  {
    assert order[i] in multiset(s) && order[j] in multiset(s);
    var a :| 0 <= a < |s| && s[a] == order[i];
    var b :| 0 <= b < |s| && s[b] == order[j];
    if order[i] == order[j] {
      TwiceCounts(order, i, j);
    }
  }

  lemma TwiceCounts(s: seq<Listed>, i: nat, j: nat)
    requires i < j < |s| && s[i] == s[j]
    ensures multiset(s)[s[i]] > 1
  {
    assert s == s[..i] + [s[i]] + s[i + 1..j] + [s[j]] + s[j + 1..];
    assert multiset(s)
           == multiset(s[..i]) + multiset{s[i]} + multiset(s[i + 1..j]) + multiset{s[j]} + multiset(s[j + 1..]);
  }

  lemma RestIsYoung(limits: Limits, now: nat, order: seq<Listed>, i: nat)
    requires Sorted(order) && i < |order| && !Expired(limits, now, order[i])
    ensures forall k | i <= k < |order| :: !Expired(limits, now, order[k])
  {
    forall k | i <= k < |order| ensures !Expired(limits, now, order[k]) {
      assert k == i || Before(order[i], order[k]);
    }
  }

  lemma {:induction false} SumPart(s: seq<Listed>, n: nat)
    requires n <= |s|
    ensures Sum(s[..n]) <= Sum(s)
    decreases |s| - n
  {
    if n == |s| {
      assert s[..n] == s;
    } else {
      SumPart(s, n + 1);
      assert s[..n + 1] == s[..n] + [s[n]];
      SumAppend(s[..n], s[n]);
    }
  }

  lemma KeptOrder(limits: Limits, now: nat, order: seq<Listed>, removed: seq<Listed>, n: nat)
    requires Names(order) && n <= |order| && Dealt(limits, now, order, removed, n)
    ensures LeastRecent(order, removed)
  {
    forall i, j | 0 <= i < j < |order| && order[j] in removed && order[j].kind == KeyEntry && order[i].kind == KeyEntry
      ensures order[i] in removed
    {
      var m :| 0 <= m < n && order[..n][m] == order[j];
      assert order[m].name == order[j].name;
    }
  }
}

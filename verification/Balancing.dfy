/** Provider ranking and the two load balancers (transport_manager.go). */
module Balancing {
  import opened Arithmetic
  import opened Wrappers

  // ---------------------------------------------------------------- weighted selection

  /** Missing and non-positive weights count as 1. */
  function Weight(weights: map<nat, int>, transport: nat): (w: int)
    ensures w >= 1
  {
    if transport in weights && weights[transport] > 0 then weights[transport] else 1
  }

  /** The total weight of the first k transports. */
  function Total(weights: map<nat, int>, transports: seq<nat>, k: nat): (sum: int)
    requires k <= |transports|
    ensures sum >= k
  {
    if k == 0 then 0 else Total(weights, transports, k - 1) + Weight(weights, transports[k - 1])
  }

  lemma {:induction false} TotalGrows(weights: map<nat, int>, transports: seq<nat>, i: nat, k: nat)
    requires i <= k <= |transports|
    ensures Total(weights, transports, i) <= Total(weights, transports, k)
  {
    if i < k {
      TotalGrows(weights, transports, i, k - 1);
    }
  }

  /** The position whose share of the total weight contains the target. */
  ghost predicate Owns(weights: map<nat, int>, transports: seq<nat>, i: nat, target: int)
    requires i < |transports|
  {
    Total(weights, transports, i) <= target < Total(weights, transports, i + 1)
  }

  lemma OwnerIsUnique(weights: map<nat, int>, transports: seq<nat>, i: nat, j: nat, target: int)
    requires i < |transports| && j < |transports| && Owns(weights, transports, i, target) && Owns(weights, transports, j, target)
    ensures i == j
  {
    if i < j {
      TotalGrows(weights, transports, i + 1, j);
    } else if j < i {
      TotalGrows(weights, transports, j + 1, i);
    }
  }

  /** Of the targets below n, how many position i owns. */
  ghost function Owned(weights: map<nat, int>, transports: seq<nat>, i: nat, n: nat): nat
    requires i < |transports|
  {
    if n == 0 then 0 else Owned(weights, transports, i, n - 1) + if Owns(weights, transports, i, n - 1) then 1 else 0
  }

  lemma {:induction false} OwnedSoFar(weights: map<nat, int>, transports: seq<nat>, i: nat, n: nat)
    requires i < |transports|
    ensures var low, high := Total(weights, transports, i), Total(weights, transports, i + 1);
      Owned(weights, transports, i, n) == if n <= low then 0 else if n <= high then n - low else high - low
  {
    if n > 0 {
      OwnedSoFar(weights, transports, i, n - 1);
    }
  }

  /** Of all possible targets, how many position i owns. */
  ghost function Share(weights: map<nat, int>, transports: seq<nat>, i: nat): nat
    requires i < |transports|
  {
    Owned(weights, transports, i, Total(weights, transports, |transports|))
  }

  /** Exactly weight many of the possible targets belong to each position. */
  lemma SharesMatchWeights(weights: map<nat, int>, transports: seq<nat>, i: nat)
    requires i < |transports|
    ensures Share(weights, transports, i) == Weight(weights, transports[i])
  {
    TotalGrows(weights, transports, i + 1, |transports|);
    OwnedSoFar(weights, transports, i, Total(weights, transports, |transports|));
  }

  /** Go's remainder has the sign of the dividend. */
  function GoRemainder(x: int, y: int): (r: int)
    requires y > 0
    ensures -y < r < y && (x >= 0 ==> r == x % y)
  {
    if x >= 0 then x % y else -((-x) % y)
  }

  class WeightedLoadBalancer {
    var weights: map<nat, int>

    constructor ()
      ensures weights == map[]
    {
      weights := map[];
    }

    /** In any list, the transport's positions then own that many targets each, all others as many as before. */
    method SetWeight(transport: nat, weight: int)
      modifies this
      ensures weights == old(weights)[transport := weight]
      ensures forall transports: seq<nat>, i: nat :: i < |transports| ==>
        Share(weights, transports, i)
          == if transports[i] != transport then Share(old(weights), transports, i) else if weight > 0 then weight else 1
    {
      ghost var before := weights;
      weights := weights[transport := weight];
      forall transports: seq<nat>, i: nat | i < |transports|
        ensures Share(weights, transports, i)
          == if transports[i] != transport then Share(before, transports, i) else if weight > 0 then weight else 1
      {
        SharesMatchWeights(weights, transports, i);
        SharesMatchWeights(before, transports, i);
      }
    }

    /** The position selected at the given time; the returns after the loop and for a zero total are never reached. */
    method SelectTransport(transports: seq<nat>, now: int) returns (position: Option<int>, fellThrough: bool)
      ensures position.None? <==> transports == []
      ensures transports != [] ==> 0 <= position.value < |transports| && !fellThrough
      ensures transports != [] && now >= 0 ==>
        Owns(weights, transports, position.value, now % Total(weights, transports, |transports|))
      ensures transports != [] && now < 0 ==> position.value == 0
    {
      if |transports| == 0 {
        return None, false;
      }
      var totalWeight := 0;
      for i := 0 to |transports|
        invariant totalWeight == Total(weights, transports, i)
      {
        var weight := if transports[i] in weights then weights[transports[i]] else 0;
        if weight <= 0 {
          weight := 1;
        }
        totalWeight := totalWeight + weight;
      }
      if totalWeight == 0 {
        return Some(0), true;
      }
      var target := GoRemainder(now, totalWeight);
      var current := 0;
      position := None;
      for i := 0 to |transports|
        invariant position.None? && current == Total(weights, transports, i) && (i > 0 ==> current <= target)
      {
        var weight := if transports[i] in weights then weights[transports[i]] else 0;
        if weight <= 0 {
          weight := 1;
        }
        current := current + weight;
        if current > target {
          position := Some(i);
          break;
        }
      }
      fellThrough := position.None?;
      if fellThrough {
        position := Some(0);
      }
    }
  }

  // ---------------------------------------------------------------- round robin

  /** How often position i is among the selections numbered from start up to, but not including, end. */
  function Picks(n: int, i: nat, start: nat, end: nat): nat
    requires n > 0 && start <= end
    decreases end
  {
    if start == end then 0 else Picks(n, i, start, end - 1) + if (end - 1) % n == i then 1 else 0
  }

  lemma NextRemainder(m: nat, n: int)
    requires n > 0
    ensures (m + 1) % n == if m % n == n - 1 then 0 else m % n + 1
    ensures (m + 1) / n == m / n + if m % n == n - 1 then 1 else 0
  {
    var q, r := m / n, m % n;
    assert m == q * n + r;
    if r == n - 1 {
      assert m + 1 == (q + 1) * n + 0;
      QuotientIsUnique(m + 1, q + 1, 0, n);
    } else {
      QuotientIsUnique(m + 1, q, r + 1, n);
    }
  }

  /** One pick per full round, and one more for the positions that the last round has already passed. */
  lemma {:induction false} PicksByRounds(n: int, i: nat, start: nat, end: nat)
    requires i < n && start <= end
    ensures Picks(n, i, start, end)
      == end / n - start / n + (if i < end % n then 1 else 0) - (if i < start % n then 1 else 0)
    decreases end
  {
    if start < end {
      PicksByRounds(n, i, start, end - 1);
      NextRemainder(end - 1, n);
    }
  }

  /** In every window of consecutive selections any two positions are picked equally often, up to one. */
  lemma RoundRobinIsFair(n: int, i: nat, j: nat, start: nat, end: nat)
    requires i < n && j < n && start <= end
    ensures -1 <= Picks(n, i, start, end) - Picks(n, j, start, end) <= 1
  {
    PicksByRounds(n, i, start, end);
    PicksByRounds(n, j, start, end);
  }

  class RoundRobinLoadBalancer {
    var counter: nat

    constructor ()
      ensures counter == 0
    {
      counter := 0;
    }

    method SelectTransport(transports: seq<nat>) returns (position: Option<nat>)
      modifies this
      ensures position == if transports == [] then None else Some(old(counter) % |transports|)
      ensures counter == old(counter) + if transports == [] then 0 else 1
    {
      if |transports| == 0 {
        return None;
      }
      position := Some(counter % |transports|);
      counter := counter + 1;
    }

    /** Any number of selections from a fixed list, counted per position. */
    method SelectMany(transports: seq<nat>, times: nat) returns (counts: seq<nat>)
      requires transports != []
      modifies this
      ensures counter == old(counter) + times && |counts| == |transports|
      ensures forall i :: 0 <= i < |counts| ==> counts[i] == Picks(|transports|, i, old(counter), counter)
      ensures forall i, j :: 0 <= i < |counts| && 0 <= j < |counts| ==> counts[i] <= counts[j] + 1
    {
      var n := |transports|;
      counts := seq(n, i => 0);
      for k := 0 to times
        invariant counter == old(counter) + k && |counts| == n
        invariant forall i :: 0 <= i < n ==> counts[i] == Picks(n, i, old(counter), counter)
      {
        var p := SelectTransport(transports);
        counts := counts[p.value := counts[p.value] + 1];
      }
      forall i, j | 0 <= i < n && 0 <= j < n
        ensures counts[i] <= counts[j] + 1
      {
        RoundRobinIsFair(n, i, j, old(counter), counter);
      }
    }
  }

  // ---------------------------------------------------------------- ranking providers

  datatype Provider = Provider(name: nat, priority: int, supports: bool)

  function Suitable(providers: seq<Provider>): seq<Provider> {
    if providers == [] then []
    else
      var last := |providers| - 1;
      Suitable(providers[..last]) + if providers[last].supports then [providers[last]] else []
  }

  /** Exactly the providers that support the endpoint, each as often as it is registered, in the same order. */
  lemma {:induction false} SuitableAre(providers: seq<Provider>, p: Provider)
    ensures multiset(Suitable(providers))[p] == if p.supports then multiset(providers)[p] else 0
  {
    if providers != [] {
      var last := |providers| - 1;
      SuitableAre(providers[..last], p);
      assert providers == providers[..last] + [providers[last]];
    }
  }

  ghost predicate IsPermutation(a: seq<Provider>, b: seq<Provider>) {
    multiset(a) == multiset(b)
  }

  lemma SwapPermutes(s: seq<Provider>, i: nat, j: nat)
    requires i < |s| && j < |s|
    ensures IsPermutation(s, s[i := s[j]][j := s[i]])
  {
  }

  /** Highest priority first: an exchange sort of exactly the suitable providers, in place. */
  method FindSuitableProviders(providers: seq<Provider>) returns (suitable: array<Provider>)
    ensures fresh(suitable) && IsPermutation(suitable[..], Suitable(providers))
    ensures forall p :: multiset(suitable[..])[p] == if p.supports then multiset(providers)[p] else 0
    ensures forall i, j :: 0 <= i < j < suitable.Length ==> suitable[i].priority >= suitable[j].priority
  {
    var filtered: seq<Provider> := [];
    for i := 0 to |providers|
      invariant filtered == Suitable(providers[..i])
    {
      assert providers[..i + 1][..i] == providers[..i];
      if providers[i].supports {
        filtered := filtered + [providers[i]];
      }
    }
    assert providers[..|providers|] == providers;
    suitable := new Provider[|filtered|];
    for k := 0 to |filtered|
      invariant suitable[..k] == filtered[..k]
    {
      suitable[k] := filtered[k];
    }
    assert suitable[..] == filtered;
    SortByPriority(suitable);
    forall p: Provider
      ensures multiset(suitable[..])[p] == if p.supports then multiset(providers)[p] else 0
    {
      SuitableAre(providers, p);
    }
  }

  method SortByPriority(a: array<Provider>)
    modifies a
    ensures IsPermutation(a[..], old(a[..]))
    ensures forall i, j :: 0 <= i < j < a.Length ==> a[i].priority >= a[j].priority
  {
    var i := 0;
    while i < a.Length - 1
      invariant 0 <= i <= a.Length
      invariant IsPermutation(a[..], old(a[..]))
      invariant Ranked(a[..], i)
    {
      for j := i + 1 to a.Length
        invariant IsPermutation(a[..], old(a[..]))
        invariant Ranked(a[..], i)
        invariant forall k :: i < k < j ==> a[i].priority >= a[k].priority
      {
        if a[i].priority < a[j].priority {
          ExchangeKeepsRanked(a[..], i, j);
          Exchange(a, i, j);
        }
      }
      i := i + 1;
    }
  }

  /** The first i are in order and nothing after them outranks them. */
  ghost predicate Ranked(s: seq<Provider>, i: nat) {
    forall k, l :: 0 <= k < i && k < l < |s| ==> s[k].priority >= s[l].priority
  }

  lemma ExchangeKeepsRanked(s: seq<Provider>, i: nat, j: nat)
    requires i < j < |s| && Ranked(s, i)
    ensures Ranked(s[i := s[j]][j := s[i]], i)
  {
  }

  method Exchange(a: array<Provider>, i: nat, j: nat)
    requires i < j < a.Length
    modifies a
    ensures a[..] == old(a[..])[i := old(a[j])][j := old(a[i])]
    ensures IsPermutation(a[..], old(a[..]))
  {
    SwapPermutes(a[..], i, j);
    a[i], a[j] := a[j], a[i];
  }
}

/** Ranking access points by latency: probes end in any order, the ranking does not
    depend on it. */
module LatencyRank {
  import opened Wrappers

  type Latency = Option<nat>

  datatype Ordering = Less | Equal | Greater

  /** How a probe ends: with a latency for its index (`None` is unreachable), or by
      a panic of its task. */
  datatype Completion = Done(index: nat, rtt: Latency) | Panicked

  function CmpLatency(a: Latency, b: Latency): Ordering {
    match (a, b)
    case (Some(x), Some(y)) => CmpIndex(x, y)
    case (Some(_), None) => Less
    case (None, Some(_)) => Greater
    case (None, None) => Equal
  }

  function CmpIndex(a: nat, b: nat): Ordering {
    if a < b then Less else if a > b then Greater else Equal
  }

  /** The comparison the sort uses: latencies, then positions. */
  predicate Before(slots: seq<Latency>, a: nat, b: nat)
    requires a < |slots| && b < |slots|
  {
    CmpLatency(slots[a], slots[b]).Less? || (CmpLatency(slots[a], slots[b]).Equal? && CmpIndex(a, b).Less?)
  }

  // ------------------------------------------------------------------
  // Collecting the probes
  // ------------------------------------------------------------------

  /** The slots after the completions, the loop ending at the first panic. */
  function Collect(slots: seq<Latency>, completions: seq<Completion>): (r: seq<Latency>)
    ensures |r| == |slots|
    decreases |completions|
  {
    if completions == [] || completions[0].Panicked? then slots
    else
      var done := completions[0];
      Collect(if done.index < |slots| then slots[done.index := done.rtt] else slots, completions[1..])
  }

  function Unmeasured(n: nat): seq<Latency> {
    seq(n, _ => None)
  }

  /** Completions in some order of the probes that were launched. `measured[i]` is
      what the probe of dot `i` yields, `None` when no client could be built. */
  ghost predicate SomeOrder(completions: seq<Completion>, launched: set<nat>, measured: seq<Latency>) {
    && (forall c :: c in completions ==>
          c.Done? && c.index in launched && c.index < |measured| && c.rtt == measured[c.index])
    && (forall i :: i in launched ==> i < |measured| && Done(i, measured[i]) in completions)
    && (forall i :: 0 <= i < |measured| && i !in launched ==> measured[i].None?)
  }

  /** Launching every dot that has a latency, there is an order in which they end. */
  lemma {:induction false} SomeOrderExists(measured: seq<Latency>)
    returns (completions: seq<Completion>, launched: set<nat>)
    ensures SomeOrder(completions, launched, measured)
    ensures forall i :: 0 <= i < |measured| && measured[i].Some? ==> i in launched
  {
    completions, launched := [], {};
    if measured != [] {
      var last := |measured| - 1;
      var front := measured[..last];
      completions, launched := SomeOrderExists(front);
      assert forall i :: 0 <= i < last ==> front[i] == measured[i];
      completions, launched := completions + [Done(last, measured[last])], launched + {last};
    }
  }

  lemma {:induction false} CollectEach(
      slots: seq<Latency>, completions: seq<Completion>, measured: seq<Latency>, i: nat)
    requires |slots| == |measured| && i < |slots|
    requires forall c :: c in completions ==> c.Done? && c.index < |measured| && c.rtt == measured[c.index]
    ensures Collect(slots, completions)[i] == if Done(i, measured[i]) in completions then measured[i] else slots[i]
    decreases |completions|
  {
    if completions != [] {
      var done := completions[0];
      assert done in completions;
      CollectEach(slots[done.index := done.rtt], completions[1..], measured, i);
      assert completions == [done] + completions[1..];
    }
  }

  /** Whatever the completion order, each slot ends up with the latency of its own
      dot. */
  lemma CollectIsMeasured(completions: seq<Completion>, launched: set<nat>, measured: seq<Latency>)
    requires SomeOrder(completions, launched, measured)
    ensures Collect(Unmeasured(|measured|), completions) == measured
  {
    var slots := Unmeasured(|measured|);
    forall i | 0 <= i < |measured| ensures Collect(slots, completions)[i] == measured[i] {
      CollectEach(slots, completions, measured, i);
    }
  }

  /** A panic of one probe hides every probe that ends after it: their dots rank
      with the unreachable ones. */
  lemma {:induction false} PanicHidesLaterProbes(slots: seq<Latency>, early: seq<Completion>, late: seq<Completion>)
    ensures Collect(slots, early + [Panicked] + late) == Collect(slots, early)
    decreases |early|
  {
    var all := early + [Panicked] + late;
    if early != [] {
      assert all[1..] == early[1..] + [Panicked] + late;
      if early[0].Done? {
        var done := early[0];
        PanicHidesLaterProbes(if done.index < |slots| then slots[done.index := done.rtt] else slots, early[1..], late);
      }
    }
  }

  /** The completions the loop gets to see: those before the first panic. */
  function Heard(completions: seq<Completion>): (r: seq<Completion>)
    ensures forall c :: c in r ==> c.Done?
  {
    if completions == [] || completions[0].Panicked? then [] else [completions[0]] + Heard(completions[1..])
  }

  lemma {:induction false} OnlyHeardCounts(slots: seq<Latency>, completions: seq<Completion>)
    ensures Collect(slots, completions) == Collect(slots, Heard(completions))
    decreases |completions|
  {
    if completions != [] && completions[0].Done? {
      var done := completions[0];
      assert Heard(completions)[1..] == Heard(completions[1..]);
      OnlyHeardCounts(if done.index < |slots| then slots[done.index := done.rtt] else slots, completions[1..]);
    }
  }

  /** Each completion is about a dot of the list and tells its own latency. */
  ghost predicate Truthful(completions: seq<Completion>, measured: seq<Latency>) {
    forall c :: c in completions && c.Done? ==> c.index < |measured| && c.rtt == measured[c.index]
  }

  /** Every reachable dot was heard of. */
  ghost predicate AllHeard(completions: seq<Completion>, measured: seq<Latency>) {
    forall i: nat :: i < |measured| && measured[i].Some? ==> Done(i, measured[i]) in Heard(completions)
  }

  /** What the loop knows at its end: the latencies it heard of. */
  function Known(completions: seq<Completion>, measured: seq<Latency>): seq<Latency> {
    seq(|measured|, i requires 0 <= i < |measured| =>
      if Done(i, measured[i]) in Heard(completions) then measured[i] else None)
  }

  lemma {:induction false} HeardIsTruthful(completions: seq<Completion>, measured: seq<Latency>)
    requires Truthful(completions, measured)
    ensures Truthful(Heard(completions), measured)
  {
    if completions != [] && completions[0].Done? {
      HeardIsTruthful(completions[1..], measured);
    }
  }

  lemma CollectIsKnown(completions: seq<Completion>, measured: seq<Latency>)
    requires Truthful(completions, measured)
    ensures Collect(Unmeasured(|measured|), completions) == Known(completions, measured)
  {
    var slots := Unmeasured(|measured|);
    OnlyHeardCounts(slots, completions);
    HeardIsTruthful(completions, measured);
    forall i | 0 <= i < |measured| ensures Collect(slots, completions)[i] == Known(completions, measured)[i] {
      CollectEach(slots, Heard(completions), measured, i);
    }
  }

  /** A panic does no harm to the slots exactly when every reachable dot was heard of
      before it. */
  lemma SlotsAreMeasuredIff(completions: seq<Completion>, measured: seq<Latency>)
    requires Truthful(completions, measured)
    ensures Collect(Unmeasured(|measured|), completions) == measured <==> AllHeard(completions, measured)
  {
    CollectIsKnown(completions, measured);
    var known := Known(completions, measured);
    if AllHeard(completions, measured) {
      assert forall i :: 0 <= i < |measured| ==> known[i] == measured[i];
    }
    if known == measured {
      forall i: nat | i < |measured| && measured[i].Some? ensures Done(i, measured[i]) in Heard(completions) {
        assert known[i] == measured[i];
      }
    }
  }

  // ------------------------------------------------------------------
  // The ranking
  // ------------------------------------------------------------------

  predicate Below(order: seq<nat>, n: nat) {
    forall p :: 0 <= p < |order| ==> order[p] < n
  }

  /** The positions `0..n`, each once. */
  ghost predicate Permutation(order: seq<nat>, n: nat) {
    && |order| == n
    && Below(order, n)
    && (forall i :: 0 <= i < n ==> i in order)
  }

  ghost predicate Sorted(order: seq<nat>, slots: seq<Latency>) {
    && Below(order, |slots|)
    && (forall p, q :: 0 <= p < q < |order| ==> Before(slots, order[p], order[q]))
  }

  function Insert(order: seq<nat>, slots: seq<Latency>, i: nat): (r: seq<nat>)
    requires i < |slots| && Below(order, |slots|)
    ensures |r| == |order| + 1
    ensures Below(r, |slots|)
    ensures forall k :: k in r <==> k == i || k in order
  {
    if order == [] then [i]
    else if Before(slots, i, order[0]) then [i] + order
    else
      assert order == [order[0]] + order[1..];
      [order[0]] + Insert(order[1..], slots, i)
  }

  lemma ConsSorts(head: nat, rest: seq<nat>, slots: seq<Latency>)
    requires head < |slots| && Sorted(rest, slots)
    requires forall q :: 0 <= q < |rest| ==> Before(slots, head, rest[q])
    ensures Sorted([head] + rest, slots)
  {
    var all := [head] + rest;
    forall p, q | 0 <= p < q < |all| ensures Before(slots, all[p], all[q]) {
      assert all[q] == rest[q - 1];
      if p > 0 {
        assert all[p] == rest[p - 1];
      }
    }
  }

  lemma BeforeIsTransitive(slots: seq<Latency>, a: nat, b: nat, c: nat)
    requires a < |slots| && b < |slots| && c < |slots|
    requires Before(slots, a, b) && Before(slots, b, c)
    ensures Before(slots, a, c)
  {
  }

  lemma {:induction false} InsertSorts(order: seq<nat>, slots: seq<Latency>, i: nat)
    requires Sorted(order, slots) && i < |slots| && i !in order
    ensures Sorted(Insert(order, slots, i), slots)
  {
    if order != [] {
      var head, rest := order[0], order[1..];
      if Before(slots, i, head) {
        forall q | 0 <= q < |order| ensures Before(slots, i, order[q]) {
          if q > 0 {
            BeforeIsTransitive(slots, i, head, order[q]);
          }
        }
        ConsSorts(i, order, slots);
      } else {
        SortedDistinct(order, slots, i);
        InsertSorts(rest, slots, i);
        var r := Insert(rest, slots, i);
        forall q | 0 <= q < |r| ensures Before(slots, head, r[q]) {
          assert r[q] in r;
          if r[q] != i {
            var p :| 0 <= p < |rest| && rest[p] == r[q];
            assert order[p + 1] == r[q];
          }
        }
        ConsSorts(head, r, slots);
      }
    }
  }

  /** The order of the first `n` positions that the sort produces. */
  function OrderOf(slots: seq<Latency>, n: nat): (r: seq<nat>)
    requires n <= |slots|
    ensures Permutation(r, n)
  {
    if n == 0 then []
    else
      var r := Insert(OrderOf(slots, n - 1), slots, n - 1);
      assert forall p :: 0 <= p < |r| ==> r[p] in r;
      r
  }

  lemma {:induction false} OrderOfSorts(slots: seq<Latency>, n: nat)
    requires n <= |slots|
    ensures Sorted(OrderOf(slots, n), slots)
  {
    if n > 0 {
      OrderOfSorts(slots, n - 1);
      InsertSorts(OrderOf(slots, n - 1), slots, n - 1);
    }
  }

  /** Only one arrangement of given positions is sorted. */
  lemma {:induction false} SortedIsUnique(a: seq<nat>, b: seq<nat>, slots: seq<Latency>)
    requires Sorted(a, slots) && Sorted(b, slots) && forall i :: i in a <==> i in b
    ensures a == b
  {
    assert a != [] ==> a[0] in a;
    assert b != [] ==> b[0] in b;
    if a != [] {
      var p :| 0 <= p < |b| && b[p] == a[0];
      var q :| 0 <= q < |a| && a[q] == b[0];
      assert a[0] == b[0];
      forall i ensures i in a[1..] <==> i in b[1..] {
        SortedDistinct(a, slots, i);
        SortedDistinct(b, slots, i);
      }
      SortedIsUnique(a[1..], b[1..], slots);
      assert a == [a[0]] + a[1..] && b == [b[0]] + b[1..];
    }
  }

  lemma SortedDistinct(a: seq<nat>, slots: seq<Latency>, i: nat)
    requires Sorted(a, slots) && a != []
    ensures i in a[1..] <==> i in a && i != a[0]
    ensures Sorted(a[1..], slots)
  {
    assert forall p :: 0 < p < |a| ==> Before(slots, a[0], a[p]);
    assert forall p :: 0 <= p < |a[1..]| ==> a[1..][p] == a[p + 1];
    assert a == [a[0]] + a[1..];
  }

  function Arrange<T>(dots: seq<T>, order: seq<nat>): seq<T>
    requires Below(order, |dots|)
  {
    seq(|order|, i requires 0 <= i < |order| => dots[order[i]])
  }

  /** The ranking: reachable dots first, then by latency, then in the given order. */
  ghost predicate IsRanking<T>(ranked: seq<T>, dots: seq<T>, slots: seq<Latency>)
    requires |slots| == |dots|
  {
    exists order :: Permutation(order, |dots|) && Sorted(order, slots) && ranked == Arrange(dots, order)
  }

  /** No other list is the ranking, and it holds the same dots, equally often. */
  lemma RankingIsUnique<T>(a: seq<T>, b: seq<T>, dots: seq<T>, slots: seq<Latency>)
    requires |slots| == |dots| && IsRanking(a, dots, slots) && IsRanking(b, dots, slots)
    ensures a == b
  {
    var p :| Permutation(p, |dots|) && Sorted(p, slots) && a == Arrange(dots, p);
    var q :| Permutation(q, |dots|) && Sorted(q, slots) && b == Arrange(dots, q);
    SortedIsUnique(p, q, slots);
  }

  /** The ranking has the dots it was given. */
  lemma RankingKeepsDots<T>(ranked: seq<T>, dots: seq<T>, slots: seq<Latency>)
    requires |slots| == |dots| && IsRanking(ranked, dots, slots)
    ensures |ranked| == |dots|
    ensures forall d :: d in ranked <==> d in dots
  {
    var order :| Permutation(order, |dots|) && Sorted(order, slots) && ranked == Arrange(dots, order);
    forall d | d in dots ensures d in ranked {
      var i :| 0 <= i < |dots| && dots[i] == d;
      assert i in order;
      var p :| 0 <= p < |order| && order[p] == i;
      assert ranked[p] == d;
    }
  }

  /** `rank_dots_by_latency`: the result is the ranking by what the probes yield, for
      every order in which they end. */
  method RankDots<T>(dots: seq<T>, completions: seq<Completion>, ghost launched: set<nat>, ghost measured: seq<Latency>)
    returns (ranked: seq<T>)
    requires |measured| == |dots|
    ensures IsRanking(ranked, dots, Collect(Unmeasured(|dots|), completions))
    ensures SomeOrder(completions, launched, measured) ==> IsRanking(ranked, dots, measured)
    ensures Truthful(completions, measured) ==> IsRanking(ranked, dots, Known(completions, measured))
    ensures Truthful(completions, measured) && AllHeard(completions, measured) ==> IsRanking(ranked, dots, measured)
  {
    if Truthful(completions, measured) {
      CollectIsKnown(completions, measured);
      SlotsAreMeasuredIff(completions, measured);
    }
    if |dots| <= 1 {
      ranked := dots;
      ghost var slots := Collect(Unmeasured(|dots|), completions);
      ghost var order := OrderOf(slots, |dots|);
      OrderOfSorts(slots, |dots|);
      OrderOfSorts(measured, |dots|);
      assert ranked == Arrange(dots, order);
      assert ranked == Arrange(dots, OrderOf(measured, |dots|));
      return;
    }
    var latencies := new Latency[|dots|](_ => None);
    assert latencies[..] == Unmeasured(|dots|);
    var next := 0;
    while next < |completions| && completions[next].Done?
      invariant 0 <= next <= |completions|
      invariant Collect(latencies[..], completions[next..]) == Collect(Unmeasured(|dots|), completions)
    {
      var done := completions[next];
      ghost var before := latencies[..];
      if done.index < latencies.Length {
        latencies[done.index] := done.rtt;
      }
      assert latencies[..] == if done.index < |before| then before[done.index := done.rtt] else before;
      assert completions[next..][1..] == completions[next + 1..];
      next := next + 1;
    }
    var slots := latencies[..];
    assert slots == Collect(Unmeasured(|dots|), completions);
    var order := OrderOf(slots, |dots|);
    OrderOfSorts(slots, |dots|);
    ranked := Arrange(dots, order);
    if SomeOrder(completions, launched, measured) {
      CollectIsMeasured(completions, launched, measured);
    }
  }

  /** Two sets of slots rank every list alike exactly when they compare every pair of
      dots alike: so a panic spoils the ranking exactly when, of some two dots, what
      was heard and what is true come in different order. */
  lemma SameOrderIff(known: seq<Latency>, measured: seq<Latency>)
    requires |known| == |measured|
    ensures OrderOf(known, |known|) == OrderOf(measured, |measured|) <==>
            forall a: nat, b: nat :: a < |known| && b < |known| ==> (Before(known, a, b) <==> Before(measured, a, b))
  {
    var n := |known|;
    var p, q := OrderOf(known, n), OrderOf(measured, n);
    OrderOfSorts(known, n);
    OrderOfSorts(measured, n);
    if p == q {
      forall a: nat, b: nat | a < n && b < n ensures Before(known, a, b) <==> Before(measured, a, b) {
        PlacesDecide(p, known, measured, a, b);
      }
    }
    if forall a: nat, b: nat :: a < n && b < n ==> (Before(known, a, b) <==> Before(measured, a, b)) {
      assert Sorted(p, measured);
      SortedIsUnique(p, q, measured);
    }
  }

  lemma PlacesDecide(order: seq<nat>, known: seq<Latency>, measured: seq<Latency>, a: nat, b: nat)
    requires |known| == |measured| && Permutation(order, |known|) && a < |known| && b < |known|
    requires Sorted(order, known) && Sorted(order, measured)
    ensures Before(known, a, b) <==> Before(measured, a, b)
  {
    assert a in order && b in order;
    var i :| 0 <= i < |order| && order[i] == a;
    var j :| 0 <= j < |order| && order[j] == b;
    if i < j {
      assert Before(known, order[i], order[j]) && Before(measured, order[i], order[j]);
    } else if j < i {
      assert Before(known, order[j], order[i]) && Before(measured, order[j], order[i]);
    }
  }

  /** What the ranking says of two dots: a reachable one comes before an unreachable
      one, a faster one before a slower one, and of equals the first stays first. */
  lemma RankingOrders(slots: seq<Latency>, order: seq<nat>, p: nat, q: nat)
    requires Permutation(order, |slots|) && Sorted(order, slots) && p < |order| && q < |order|
    ensures p < q <==>
            || (slots[order[p]].Some? && slots[order[q]].None?)
            || (slots[order[p]].Some? && slots[order[q]].Some? && slots[order[p]].value < slots[order[q]].value)
            || (slots[order[p]] == slots[order[q]] && order[p] < order[q])
  {
    if p < q {
      assert Before(slots, order[p], order[q]);
    } else if q < p {
      assert Before(slots, order[q], order[p]);
    }
  }
}

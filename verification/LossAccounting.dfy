/** Loss accounting over whole packet histories.

    A history is the sequence of ids received since the last reset. What counts as missing,
    lost, recovered or ignored is defined from the history alone, and the collector's running
    counts are proved to agree with it after every history. */
module LossAccounting {
  import opened Metrics

  // ----- definitions over a history -----

  ghost function Highest(h: seq<nat>): (m: nat)
    requires h != []
    ensures m in h && forall i :: i in h ==> i <= m
  {
    if |h| == 1 then h[0]
    else
      var m := Highest(h[..|h| - 1]);
      var x := h[|h| - 1];
      assert h == h[..|h| - 1] + [x];
      if x > m then x else m
  }

  /** Arrival k comes before the highest id has run WINDOW ahead of it. */
  ghost predicate Timely(h: seq<nat>, k: nat)
    requires k < |h|
  {
    k == 0 || Highest(h[..k]) < h[k] + WINDOW
  }

  /** Id i was received before the highest id reached i + WINDOW. */
  ghost predicate InTime(h: seq<nat>, i: nat) {
    exists k :: 0 <= k < |h| && h[k] == i && Timely(h, k)
  }

  /** Strictly between first and highest, less than WINDOW below the highest, never received. */
  ghost function MissingIds(h: seq<nat>): set<nat>
    requires h != []
  {
    set i | i in Between(h[0], Highest(h)) && Highest(h) < i + WINDOW && i !in h
  }

  /** At least WINDOW below the highest id and not received before it got that far. */
  ghost function LostIds(h: seq<nat>): set<nat>
    requires h != []
  {
    set i | i in Between(h[0], Highest(h)) && i + WINDOW <= Highest(h) && !InTime(h, i)
  }

  datatype Kind = First | Advance | Recovery | Ignored

  /** What arrival k is: ignored arrivals are duplicates, ids below the first one, and ids
      already given up. */
  ghost function KindOf(h: seq<nat>, k: nat): Kind
    requires k < |h|
  {
    if k == 0 then First
    else if h[k] > Highest(h[..k]) then Advance
    else if h[k] in h[..k] || h[k] < h[0] || h[k] + WINDOW <= Highest(h[..k]) then Ignored
    else Recovery
  }

  ghost function Count(h: seq<nat>, kind: Kind): nat {
    if h == [] then 0
    else Count(h[..|h| - 1], kind) + if KindOf(h, |h| - 1) == kind then 1 else 0
  }

  /** The collector after a history. */
  ghost function After(h: seq<nat>): Loss {
    if h == [] then NO_LOSS else Arrive(After(h[..|h| - 1]), h[|h| - 1])
  }

  // ----- sizes of sets of ids -----

  lemma {:induction false} BetweenSize(low: nat, high: nat)
    requires low < high
    ensures |Between(low, high)| == high - low - 1
  {
    if high == low + 1 {
      assert Between(low, high) == {};
    } else {
      BetweenSize(low, high - 1);
      assert Between(low, high) == Between(low, high - 1) + {high - 1};
    }
  }

  lemma DisjointSize(a: set<nat>, b: set<nat>)
    requires a !! b
    ensures |a + b| == |a| + |b|
  {
  }

  lemma SubsetSize(a: set<nat>, b: set<nat>)
    requires a <= b
    ensures |a| <= |b|
  {
    if a != b {
      DisjointSize(a, b - a);
      assert a + (b - a) == b;
    }
  }

  // ----- one more arrival -----

  lemma InTimeGrows(h: seq<nat>, x: nat, i: nat)
    requires h != []
    ensures InTime(h + [x], i) <==> InTime(h, i) || (i == x && Highest(h) < x + WINDOW)
  {
    var h' := h + [x];
    assert h'[..|h|] == h;
    assert forall k :: 0 <= k < |h| ==> h'[..k] == h[..k];
    if InTime(h, i) {
      var k :| 0 <= k < |h| && h[k] == i && Timely(h, k);
      assert h'[k] == i && Timely(h', k);
    }
    if i == x && Highest(h) < x + WINDOW {
      assert h'[|h|] == i && Timely(h', |h|);
    }
    if InTime(h', i) {
      var k :| 0 <= k < |h'| && h'[k] == i && Timely(h', k);
      if k < |h| {
        assert h[k] == i && Timely(h, k);
      }
    }
  }

  lemma HighestGrows(h: seq<nat>, x: nat)
    requires h != []
    ensures Highest(h + [x]) == if x > Highest(h) then x else Highest(h)
  {
    assert (h + [x])[..|h|] == h;
  }

  /** An id at most WINDOW - 1 below the highest one was in time if it was received at all. */
  lemma RecentIsInTime(h: seq<nat>, i: nat)
    requires h != [] && Highest(h) < i + WINDOW
    ensures InTime(h, i) <==> i in h
  {
    if i in h {
      var k :| 0 <= k < |h| && h[k] == i;
      if k > 0 {
        assert h[..k] <= h;
        assert Highest(h[..k]) in h;
      }
      assert Timely(h, k);
    }
  }

  lemma AdvanceStep(h: seq<nat>, x: nat)
    requires h != [] && x > Highest(h)
    ensures var all := MissingIds(h) + Between(Highest(h), x);
            var h' := h + [x];
            MissingIds(h') == all - Stale(all, x) &&
            LostIds(h') == LostIds(h) + Stale(all, x) && LostIds(h) !! Stale(all, x)
  {
    var all, h' := MissingIds(h) + Between(Highest(h), x), h + [x];
    HighestGrows(h, x);
    forall i: nat
      ensures i in MissingIds(h') <==> i in all - Stale(all, x)
      ensures i in LostIds(h') <==> i in LostIds(h) + Stale(all, x)
    {
      InTimeGrows(h, x, i);
      assert h'[0] == h[0] && h[0] in h && h[0] <= Highest(h);
      assert i in h' <==> i in h || i == x;
      assert i > Highest(h) ==> i !in h && !InTime(h, i);
      assert i in all <==> i in MissingIds(h) || Highest(h) < i < x;
      assert i in Stale(all, x) <==> i in all && i + WINDOW <= x;
      if Highest(h) < i + WINDOW {
        RecentIsInTime(h, i);
      }
    }
  }

  lemma BelowStep(h: seq<nat>, x: nat)
    requires h != [] && x <= Highest(h)
    ensures MissingIds(h + [x]) == MissingIds(h) - {x}
    ensures LostIds(h + [x]) == LostIds(h)
  {
    var h' := h + [x];
    HighestGrows(h, x);
    forall i: nat
      ensures i in MissingIds(h') <==> i in MissingIds(h) - {x}
      ensures i in LostIds(h') <==> i in LostIds(h)
    {
      InTimeGrows(h, x, i);
    }
  }

  ghost function NewKind(p: seq<nat>, x: nat): Kind {
    if p == [] then First
    else if x > Highest(p) then Advance
    else if x in p || x < p[0] || x + WINDOW <= Highest(p) then Ignored
    else Recovery
  }

  lemma HistoryGrows(p: seq<nat>, x: nat, kind: Kind)
    ensures Count(p + [x], kind) == Count(p, kind) + if NewKind(p, x) == kind then 1 else 0
    ensures After(p + [x]) == Arrive(After(p), x)
  {
    var h := p + [x];
    assert h[..|p|] == p;
    assert KindOf(h, |p|) == NewKind(p, x);
  }

  // ----- the collector agrees with the definitions -----

  ghost predicate Exact(h: seq<nat>)
    requires h != []
  {
    After(h) == Loss(true, Highest(h), MissingIds(h), |h|, Count(h, Recovery), |LostIds(h)|)
  }

  lemma ExactFirst(x: nat)
    ensures Exact([x])
    ensures MissingIds([x]) == {} && LostIds([x]) == {}
    ensures Count([x], Advance) == Count([x], Recovery) == Count([x], Ignored) == 0
  {
    assert [x] == [] + [x];
    HistoryGrows([], x, Advance);
    HistoryGrows([], x, Recovery);
    HistoryGrows([], x, Ignored);
    assert Between(x, x) == {};
    assert MissingIds([x]) == {} && LostIds([x]) == {};
  }

  lemma ExactStep(p: seq<nat>, x: nat)
    requires p != [] && Exact(p)
    ensures Exact(p + [x])
  {
    hide Count, After;
    HighestGrows(p, x);
    HistoryGrows(p, x, Recovery);
    if x > Highest(p) {
      AdvanceStep(p, x);
      DisjointSize(LostIds(p), Stale(MissingIds(p) + Between(Highest(p), x), x));
    } else {
      BelowStep(p, x);
      assert NewKind(p, x) == Recovery <==> x in MissingIds(p);
      assert x !in MissingIds(p) ==> MissingIds(p) - {x} == MissingIds(p);
    }
  }

  /** After any history the running state is the declarative one. */
  lemma {:induction false} CollectorIsExact(h: seq<nat>)
    requires h != []
    ensures After(h) == Loss(true, Highest(h), MissingIds(h), |h|, Count(h, Recovery), |LostIds(h)|)
  {
    var p, x := h[..|h| - 1], h[|h| - 1];
    assert h == p + [x];
    if p == [] {
      ExactFirst(x);
    } else {
      CollectorIsExact(p);
      ExactStep(p, x);
    }
  }

  /** The window in numbers: a gap left behind by a jump from one id to another holds as missing
      exactly the ids less than a thousand below, and the others are lost. */
  lemma {:induction false} WindowIsAThousand(first: nat, last: nat, i: nat)
    requires first < i < last
    ensures i in After([first, last]).missing <==> last < i + 1000
    ensures After([first, last]).LossCount() == last - first - 1
  {
    var h := [first, last];
    CollectorIsExact(h);
    IdsAreConserved(h);
    assert [first, last][..1] == [first] && [first][..0] == [];
    assert Highest(h) == last by {
      assert first in h && last in h;
    }
    assert Count([first], Advance) == 0 && Count([first], Recovery) == 0;
    assert KindOf(h, 1) == Advance;
    assert Count(h, Advance) == 1 && Count(h, Recovery) == 0;
  }

  /** The set of missing ids never outgrows the window. */
  lemma MissingIsBounded(h: seq<nat>)
    requires h != []
    ensures |After(h).missing| <= 999
  {
    CollectorIsExact(h);
    var m := Highest(h);
    var low := if m > WINDOW then m - WINDOW else 0;
    if m > 0 {
      assert MissingIds(h) <= Between(low, m);
      SubsetSize(MissingIds(h), Between(low, m));
      BetweenSize(low, m);
    } else {
      assert MissingIds(h) == {};
    }
  }

  // ----- conservation -----

  ghost predicate Conserved(h: seq<nat>)
    requires h != []
  {
    && Highest(h) - h[0] == Count(h, Advance) + Count(h, Recovery) + |MissingIds(h)| + |LostIds(h)|
    && |h| == 1 + Count(h, Advance) + Count(h, Recovery) + Count(h, Ignored)
  }

  lemma ConservedAdvance(p: seq<nat>, x: nat)
    requires p != [] && x > Highest(p)
    ensures |MissingIds(p + [x])| + |LostIds(p + [x])| == |MissingIds(p)| + |LostIds(p)| + (x - Highest(p) - 1)
  {
    var gap := Between(Highest(p), x);
    var all := MissingIds(p) + gap;
    var stale := Stale(all, x);
    AdvanceStep(p, x);
    BetweenSize(Highest(p), x);
    DisjointSize(MissingIds(p), gap);
    DisjointSize(LostIds(p), stale);
    DisjointSize(all - stale, stale);
    assert (all - stale) + stale == all;
  }

  lemma ConservedBelow(p: seq<nat>, x: nat)
    requires p != [] && x <= Highest(p)
    ensures |MissingIds(p + [x])| + |LostIds(p + [x])| ==
            |MissingIds(p)| + |LostIds(p)| - if NewKind(p, x) == Recovery then 1 else 0
  {
    BelowStep(p, x);
    assert NewKind(p, x) == Recovery <==> x in MissingIds(p);
    if x !in MissingIds(p) {
      assert MissingIds(p) - {x} == MissingIds(p);
    }
  }

  lemma {:induction false} AllConserved(h: seq<nat>)
    requires h != []
    ensures Conserved(h)
  {
    hide Count, After;
    var p, x := h[..|h| - 1], h[|h| - 1];
    assert h == p + [x];
    if p == [] {
      ExactFirst(x);
    } else {
      AllConserved(p);
      HighestGrows(p, x);
      HistoryGrows(p, x, Advance);
      HistoryGrows(p, x, Recovery);
      HistoryGrows(p, x, Ignored);
      if x > Highest(p) {
        ConservedAdvance(p, x);
      } else {
        ConservedBelow(p, x);
      }
    }
  }

  /** Every id above the first one up to the highest is accounted for exactly once. */
  lemma {:induction false} IdsAreConserved(h: seq<nat>)
    requires h != []
    ensures Highest(h) - h[0] ==
            Count(h, Advance) + Count(h, Recovery) + |After(h).missing| + After(h).confirmedLost
  {
    hide Count, After;
    CollectorIsExact(h);
    AllConserved(h);
  }

  /** Received plus lost is the span of ids seen, plus the arrivals that were ignored. */
  lemma {:induction false} PacketsAreConserved(h: seq<nat>)
    requires h != []
    ensures After(h).received + After(h).LossCount() == (Highest(h) - h[0] + 1) + Count(h, Ignored)
  {
    hide Count, After;
    CollectorIsExact(h);
    AllConserved(h);
  }

  // ----- end to end -----

  /** The sender numbers its packets 1, 2, ..., sent; the channel may lose, delay, reorder and
      duplicate them. The books balance without a correction exactly when no arrival was
      ignored, i.e. none was a duplicate, below the first one, or too late. */
  lemma {:induction false} EndToEnd(h: seq<nat>, sent: nat)
    requires h != []
    requires forall k :: 0 <= k < |h| ==> 1 <= h[k] <= sent
    ensures sent + Count(h, Ignored) ==
            (h[0] - 1) + After(h).received + After(h).LossCount() + (sent - Highest(h))
    ensures sent == (h[0] - 1) + After(h).received + After(h).LossCount() + (sent - Highest(h)) <==>
            forall k :: 0 < k < |h| ==> Welcome(h, k)
  {
    hide Count, After;
    PacketsAreConserved(h);
    NothingIgnoredIff(h);
  }

  ghost predicate Welcome(h: seq<nat>, k: nat)
    requires k < |h|
  {
    h[k] !in h[..k] && h[k] >= h[0] && Timely(h, k)
  }

  lemma {:induction false} NothingIgnoredIff(h: seq<nat>)
    ensures Count(h, Ignored) == 0 <==> forall k :: 0 < k < |h| ==> Welcome(h, k)
  {
    if h != [] {
      var n := |h| - 1;
      var p, x := h[..n], h[n];
      assert h == p + [x];
      NothingIgnoredIff(p);
      HistoryGrows(p, x, Ignored);
      forall k | 0 < k < n
        ensures Welcome(p, k) <==> Welcome(h, k)
      {
        assert p[..k] == h[..k];
      }
      assert h[..n] == p;
      if n > 0 {
        assert p[0] in p && (x in p ==> x <= Highest(p));
        assert Timely(h, n) <==> Highest(p) < x + WINDOW;
      }
      assert n > 0 ==> (NewKind(p, x) == Ignored <==> !Welcome(h, n));
    }
  }

  // ----- order independence -----

  ghost function Ids(h: seq<nat>): set<nat> {
    set i | i in h
  }

  /** The count a reader would make from the ids alone. */
  ghost function SimpleLoss(h: seq<nat>): nat
    requires h != []
  {
    |Between(h[0], Highest(h)) - Ids(h)|
  }

  /** Ids that did arrive, but only after they had been given up. */
  ghost function LateIds(h: seq<nat>): set<nat>
    requires h != []
  {
    set i | i in Between(h[0], Highest(h)) && i in h && !InTime(h, i)
  }

  /** LossCount exceeds the set-based count by exactly the ids that came too late. */
  lemma {:induction false} LossIsSimplePlusLate(h: seq<nat>)
    requires h != []
    ensures After(h).LossCount() == SimpleLoss(h) + |LateIds(h)|
  {
    hide After, SimpleLoss, LateIds, MissingIds, LostIds;
    CollectorIsExact(h);
    LossByIds(h);
  }

  lemma LossByIds(h: seq<nat>)
    requires h != []
    ensures |MissingIds(h)| + |LostIds(h)| == SimpleLoss(h) + |LateIds(h)|
  {
    hide InTime, Highest;
    var never := Between(h[0], Highest(h)) - Ids(h);
    forall i: nat
      ensures InTime(h, i) ==> i in h
      ensures Highest(h) < i + WINDOW && i in h ==> InTime(h, i)
    {
      ReceivedIfInTime(h, i);
    }
    assert MissingIds(h) + LostIds(h) == never + LateIds(h);
    DisjointSize(MissingIds(h), LostIds(h));
    DisjointSize(never, LateIds(h));
  }

  lemma ReceivedIfInTime(h: seq<nat>, i: nat)
    ensures InTime(h, i) ==> i in h
    ensures h != [] && Highest(h) < i + WINDOW && i in h ==> InTime(h, i)
  {
    if h != [] && Highest(h) < i + WINDOW {
      RecentIsInTime(h, i);
    }
  }

  /** Two arrival orders of the same ids, from the same first packet and with nothing late,
      report the same loss; with equally many arrivals, the same loss rate. */
  lemma {:induction false} OrderDoesNotMatter(h1: seq<nat>, h2: seq<nat>)
    requires h1 != [] && h2 != [] && h1[0] == h2[0] && Ids(h1) == Ids(h2)
    requires LateIds(h1) == {} && LateIds(h2) == {}
    ensures After(h1).LossCount() == After(h2).LossCount() == SimpleLoss(h1)
    ensures |h1| == |h2| ==> After(h1).LossRate() == After(h2).LossRate()
  {
    hide After, SimpleLoss, LateIds;
    LossIsSimplePlusLate(h1);
    LossIsSimplePlusLate(h2);
    SimpleLossDependsOnIds(h1, h2);
    hide Ids, Loss.LossCount, Loss.LossRate;
    EveryArrivalIsReceived(h1);
    EveryArrivalIsReceived(h2);
    if |h1| == |h2| {
      RateFromCounts(After(h1), After(h2));
    }
  }

  lemma EveryArrivalIsReceived(h: seq<nat>)
    requires h != []
    ensures After(h).received == |h|
  {
    hide After, Highest, MissingIds, LostIds, Count;
    CollectorIsExact(h);
  }

  lemma RateFromCounts(l1: Loss, l2: Loss)
    requires l1.received == l2.received && l1.LossCount() == l2.LossCount()
    ensures l1.LossRate() == l2.LossRate()
  {
    hide Loss.LossCount;
  }

  lemma SimpleLossDependsOnIds(h1: seq<nat>, h2: seq<nat>)
    requires h1 != [] && h2 != [] && h1[0] == h2[0] && Ids(h1) == Ids(h2)
    ensures SimpleLoss(h1) == SimpleLoss(h2)
  {
    assert Highest(h1) in Ids(h1) && Highest(h2) in Ids(h2);
    assert Highest(h1) in h2 && Highest(h2) in h1;
  }

  /** Without that condition it does matter: the same three ids, one order with id 2 late. */
  lemma LatenessMatters()
    ensures Ids([1, 2, 1002]) == Ids([1, 1002, 2])
    ensures After([1, 2, 1002]).LossCount() != After([1, 1002, 2]).LossCount()
  {
    hide After, SimpleLoss;
    var a, b := [1, 2, 1002], [1, 1002, 2];
    SameThree();
    LossIsSimplePlusLate(a);
    LossIsSimplePlusLate(b);
    SimpleLossDependsOnIds(a, b);
    TwoInTime();
    TwoLate();
  }

  lemma SameThree()
    ensures Ids([1, 2, 1002]) == Ids([1, 1002, 2])
  {
    assert forall i: nat :: i in [1, 2, 1002] <==> i in [1, 1002, 2];
  }

  lemma TwoInTime()
    ensures LateIds([1, 2, 1002]) == {}
  {
    var a := [1, 2, 1002];
    assert a[..1] == [1];
    assert Highest([1]) == 1;
    assert a[1] == 2 && Timely(a, 1);
    assert InTime(a, 2);
  }

  lemma TwoLate()
    ensures LateIds([1, 1002, 2]) != {}
  {
    var b := [1, 1002, 2];
    assert b[..2] == [1, 1002];
    assert 1002 in b[..2] && 1002 in b;
    assert !Timely(b, 2);
    assert b[2] == 2 && b[0] == 1 && b[1] == 1002;
    assert !InTime(b, 2);
    assert 2 in LateIds(b);
  }

  // ----- a straggler as first packet -----

  /** If the first packet recorded after a reset is a straggler numbered at or above everything
      that follows, every later packet is ignored and no loss is ever reported. */
  lemma {:induction false} StragglerHidesLoss(h: seq<nat>)
    requires h != []
    requires forall k :: 0 <= k < |h| ==> h[k] <= h[0]
    ensures After(h).LossCount() == 0 && After(h).recovered == 0 && Count(h, Ignored) == |h| - 1
  {
    hide Count, After;
    CollectorIsExact(h);
    AllConserved(h);
    assert Highest(h) == h[0];
    assert Between(h[0], h[0]) == {};
    assert MissingIds(h) == {} && LostIds(h) == {};
  }
}

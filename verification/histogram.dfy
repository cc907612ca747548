/**
 The frequency table of the calculator: every BMI value of the history is
 placed in its range, and the number of values per range is reported in
 range order, one slot per range (ranges with no value report 0). Values
 outside [0, 50) belong to no range and are left out of every slot.

 The table is always rebuilt from the whole history.
 */
module BmiHistogram {
  import opened Wrappers
  import opened BmiBins

  /** One bar of the chart: a range label and how many history values lie in that range. */
  datatype Bar = Bar(rangeLabel: string, frequency: nat)

  /** Adds one to the slot named by b, if b names a slot of c. */
  function Tally(c: seq<nat>, b: Option<nat>): (r: seq<nat>)
    ensures |r| == |c|
    ensures forall i :: 0 <= i < |c| ==> r[i] == c[i] + (if b == Some(i) then 1 else 0)
  {
    if b.Some? && b.value < |c| then c[b.value := c[b.value] + 1] else c
  }

  /** The per-range counts of a history, one slot per range in range order. */
  function Counts(h: seq<real>): (c: seq<nat>)
    ensures |c| == NumBuckets
    decreases |h|
  {
    if |h| == 0 then seq(NumBuckets, _ => 0)
    else Tally(Counts(h[1..]), Bucket(h[0]))
  }

  /** Reference definition: the number of values of h in the interval of range i. */
  function Members(h: seq<real>, i: nat): nat {
    if |h| == 0 then 0
    else (if InBucket(h[0], i) then 1 else 0) + Members(h[1..], i)
  }

  /** Reference definition: the number of values of h in [0, 50). */
  function InRangeCount(h: seq<real>): nat {
    if |h| == 0 then 0
    else (if 0.0 <= h[0] < 50.0 then 1 else 0) + InRangeCount(h[1..])
  }

  function Sum(c: seq<nat>): nat {
    if |c| == 0 then 0 else c[0] + Sum(c[1..])
  }

  /** Slot i of the counts is the number of history values in the interval of range i. */
  lemma {:induction false} CountsMatchIntervals(h: seq<real>)
    ensures forall i :: 0 <= i < NumBuckets ==> Counts(h)[i] == Members(h, i)
    decreases |h|
  {
    if |h| > 0 {
      CountsMatchIntervals(h[1..]);
      forall i | 0 <= i < NumBuckets ensures Counts(h)[i] == Members(h, i) {
        BucketIff(h[0], i);
      }
    }
  }

  lemma {:induction false} SumUpdate(c: seq<nat>, i: nat, x: nat)
    requires i < |c|
    ensures Sum(c[i := x]) == Sum(c) - c[i] + x
    decreases |c|
  {
    if i == 0 {
      assert c[i := x][1..] == c[1..];
    } else {
      assert c[i := x][1..] == c[1..][i - 1 := x];
      SumUpdate(c[1..], i - 1, x);
    }
  }

  lemma {:induction false} SumZeros(n: nat)
    ensures Sum(seq(n, _ => 0)) == 0
  {
    if n > 0 {
      assert seq(n, _ => 0)[1..] == seq(n - 1, _ => 0);
      SumZeros(n - 1);
    }
  }

  /**
   Count conservation: the counts add up to the number of history values in
   [0, 50); values outside that interval are dropped without error.
   */
  lemma {:induction false} CountsConserve(h: seq<real>)
    ensures Sum(Counts(h)) == InRangeCount(h)
    decreases |h|
  {
    if |h| == 0 {
      SumZeros(NumBuckets);
    } else {
      CountsConserve(h[1..]);
      var c := Counts(h[1..]);
      var b := Bucket(h[0]);
      assert Counts(h) == Tally(c, b);
      assert InRangeCount(h) == (if b.Some? then 1 else 0) + InRangeCount(h[1..]);
      if b.Some? {
        assert Tally(c, b) == c[b.value := c[b.value] + 1];
        SumUpdate(c, b.value, c[b.value] + 1);
      } else {
        assert Tally(c, b) == c;
      }
    }
  }

  lemma {:induction false} MembersConcat(a: seq<real>, b: seq<real>, i: nat)
    ensures Members(a + b, i) == Members(a, i) + Members(b, i)
    decreases |a|
  {
    if |a| == 0 {
      assert a + b == b;
    } else {
      assert (a + b)[1..] == a[1..] + b;
      MembersConcat(a[1..], b, i);
    }
  }

  /** The number of in-range values of two histories joined is the sum of theirs. */
  lemma {:induction false} InRangeCountConcat(a: seq<real>, b: seq<real>)
    ensures InRangeCount(a + b) == InRangeCount(a) + InRangeCount(b)
    decreases |a|
  {
    if |a| == 0 {
      assert a + b == b;
    } else {
      assert (a + b)[1..] == a[1..] + b;
      InRangeCountConcat(a[1..], b);
    }
  }

  /** The counts of two histories joined are the slot-wise sums of their counts. */
  lemma CountsConcat(a: seq<real>, b: seq<real>)
    ensures forall i :: 0 <= i < NumBuckets ==> Counts(a + b)[i] == Counts(a)[i] + Counts(b)[i]
  {
    CountsMatchIntervals(a + b);
    CountsMatchIntervals(a);
    CountsMatchIntervals(b);
    forall i | 0 <= i < NumBuckets ensures Counts(a + b)[i] == Counts(a)[i] + Counts(b)[i] {
      MembersConcat(a, b, i);
    }
  }

  /**
   Rebuilding the counts of a history extended by one value gives the old
   counts with the new value's range bumped by one.
   */
  lemma CountsAppend(h: seq<real>, v: real)
    ensures Counts(h + [v]) == Tally(Counts(h), Bucket(v))
  {
    CountsConcat(h, [v]);
    assert [v][1..] == [];
    assert Counts([v]) == Tally(seq(NumBuckets, _ => 0), Bucket(v));
  }

  lemma {:induction false} MembersIgnoreOrder(a: seq<real>, b: seq<real>, i: nat)
    requires multiset(a) == multiset(b)
    ensures Members(a, i) == Members(b, i)
    decreases |a|
  {
    if |a| == 0 {
      assert |b| == |multiset(b)| == 0;
    } else {
      assert a[0] in multiset(b);
      var k :| 0 <= k < |b| && b[k] == a[0];
      var b' := b[..k] + b[k + 1..];
      assert a == [a[0]] + a[1..];
      assert b == b[..k] + [b[k]] + b[k + 1..];
      assert multiset(a[1..]) == multiset(b') by {
        assert multiset(a) == multiset{a[0]} + multiset(a[1..]);
        assert multiset(b) == multiset(b[..k]) + multiset{b[k]} + multiset(b[k + 1..]);
        assert multiset(b') == multiset(b[..k]) + multiset(b[k + 1..]);
        assert multiset(a[1..]) == multiset(a) - multiset{a[0]};
      }
      MembersIgnoreOrder(a[1..], b', i);
      MembersConcat([a[0]], a[1..], i);
      MembersConcat(b[..k] + [b[k]], b[k + 1..], i);
      MembersConcat(b[..k], [b[k]], i);
      MembersConcat(b[..k], b[k + 1..], i);
    }
  }

  /**
   The counts depend only on which values the history holds, not on the
   order in which they were added.
   */
  lemma CountsIgnoreOrder(a: seq<real>, b: seq<real>)
    requires multiset(a) == multiset(b)
    ensures Counts(a) == Counts(b)
  {
    CountsMatchIntervals(a);
    CountsMatchIntervals(b);
    forall i | 0 <= i < NumBuckets ensures Counts(a)[i] == Counts(b)[i] {
      MembersIgnoreOrder(a, b, i);
    }
  }

  /** The chart of a history: one bar per range, labelled, in range order. */
  function Chart(h: seq<real>): (bars: seq<Bar>)
    ensures |bars| == NumBuckets
    ensures forall i :: 0 <= i < NumBuckets ==> bars[i].rangeLabel == Labels[i] && bars[i].frequency == Members(h, i)
  {
    CountsMatchIntervals(h);
    var c := Counts(h);
    seq(NumBuckets, i requires 0 <= i < NumBuckets => Bar(Labels[i], c[i]))
  }

  /** The bar heights of a chart, in bar order. */
  function Heights(bars: seq<Bar>): seq<nat> {
    seq(|bars|, i requires 0 <= i < |bars| => bars[i].frequency)
  }

  /** The bar heights of the chart are the per-range counts, in range order. */
  lemma HeightsOfChart(h: seq<real>)
    ensures Heights(Chart(h)) == Counts(h)
  {
  }

  /** The chart's bars add up to the number of history values in [0, 50). */
  lemma ChartConserves(h: seq<real>)
    ensures Sum(Heights(Chart(h))) == InRangeCount(h)
  {
    HeightsOfChart(h);
    CountsConserve(h);
  }
}

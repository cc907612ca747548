/**
 The nine BMI ranges of the calculator and the rule that places one BMI value
 into one of them.

 The ranges are given by ten ascending edges; range i is the half-open
 interval [Edges[i], Edges[i+1]). The placement follows `pandas.cut` with
 `right=False`: count the edges that are at or below the value (a
 right-sided sorted search); a count of 0 (below the first edge) or of all
 ten edges (at or above the last edge) means the value belongs to no range,
 otherwise the value belongs to range count - 1.
 */
module BmiBins {
  import opened Wrappers

  /** The bin edges of the histogram, in ascending order. */
  const Edges: seq<real> := [0.0, 18.5, 20.0, 21.0, 24.0, 27.0, 30.0, 35.0, 40.0, 50.0]

  /** The label shown for each range, in range order. */
  const Labels: seq<string> := ["<18.5", "18.5-20", "20-21", "21-24", "24-27", "27-30", "30-35", "35-40", "40+"]

  const NumBuckets: nat := 9

  ghost predicate StrictlyIncreasing(e: seq<real>) {
    forall i, j :: 0 <= i < j < |e| ==> e[i] < e[j]
  }

  /** Value v lies in range i: lower edge inclusive, upper edge exclusive. */
  predicate InBucket(v: real, i: nat) {
    i < NumBuckets && Edges[i] <= v < Edges[i + 1]
  }

  /** The edges are strictly ascending and there is exactly one edge more than there are labels. */
  lemma EdgesWellFormed()
    ensures |Edges| == |Labels| + 1 == NumBuckets + 1
    ensures StrictlyIncreasing(Edges)
  {
  }

  /** The number of edges in e that are at or below v. */
  function CountAtOrBelow(e: seq<real>, v: real): (k: nat)
    ensures k <= |e|
  {
    if |e| == 0 then 0
    else (if e[0] <= v then 1 else 0) + CountAtOrBelow(e[1..], v)
  }

  /**
   On ascending edges the count of edges at or below v splits the edges
   into a prefix at or below v and a suffix strictly above it.
   */
  lemma {:induction false} CountAtOrBelowSplits(e: seq<real>, v: real)
    requires StrictlyIncreasing(e)
    ensures forall j :: 0 <= j < CountAtOrBelow(e, v) ==> e[j] <= v
    ensures forall j :: CountAtOrBelow(e, v) <= j < |e| ==> v < e[j]
  {
    if |e| > 0 {
      var rest := e[1..];
      assert StrictlyIncreasing(rest) by {
        forall i, j | 0 <= i < j < |rest| ensures rest[i] < rest[j] {
          assert rest[i] == e[i + 1] && rest[j] == e[j + 1];
        }
      }
      CountAtOrBelowSplits(rest, v);
      var k' := CountAtOrBelow(rest, v);
      if e[0] <= v {
        forall j | 0 <= j < k' + 1 ensures e[j] <= v {
          if j > 0 { assert e[j] == rest[j - 1]; }
        }
        forall j | k' + 1 <= j < |e| ensures v < e[j] {
          assert e[j] == rest[j - 1];
        }
      }
    }
  }

  /** The range a BMI value is placed in, or None when it lies outside [0, 50). */
  function Bucket(v: real): (r: Option<nat>)
    ensures r.Some? <==> 0.0 <= v < 50.0
    ensures r.Some? ==> InBucket(v, r.value)
  {
    EdgesWellFormed();
    CountAtOrBelowSplits(Edges, v);
    var k := CountAtOrBelow(Edges, v);
    assert 0 < k ==> Edges[0] <= v;
    assert k < |Edges| ==> v < Edges[|Edges| - 1];
    if k == 0 || k == |Edges| then None else Some(k - 1)
  }

  /** No value lies in two ranges. */
  lemma BucketsDisjoint(v: real, i: nat, j: nat)
    requires InBucket(v, i) && InBucket(v, j)
    ensures i == j
  {
  }

  /** A value is placed in range i exactly when it lies in the interval of range i. */
  lemma BucketIff(v: real, i: nat)
    ensures Bucket(v) == Some(i) <==> InBucket(v, i)
  {
  }

  /** Every value in [0, 50) lies in exactly one range; every other value in none. */
  lemma RangesPartition(v: real)
    ensures 0.0 <= v < 50.0 ==> exists i :: InBucket(v, i)
    ensures forall i, j :: InBucket(v, i) && InBucket(v, j) ==> i == j
    ensures !(0.0 <= v < 50.0) ==> forall i :: !InBucket(v, i)
  {
    if 0.0 <= v < 50.0 {
      assert InBucket(v, Bucket(v).value);
    }
    forall i, j | InBucket(v, i) && InBucket(v, j) ensures i == j {
      BucketsDisjoint(v, i, j);
    }
    forall i | InBucket(v, i) ensures 0.0 <= v < 50.0 {
      BucketIff(v, i);
    }
  }

  /** Each edge except the last belongs to the range that starts at it. */
  lemma EdgeStartsItsRange(i: nat)
    requires i < NumBuckets
    ensures Bucket(Edges[i]) == Some(i)
  {
    EdgesWellFormed();
    BucketIff(Edges[i], i);
  }

  /** The boundary cases of the placement rule. */
  lemma BoundaryCases()
    ensures Bucket(0.0) == Some(0)
    ensures Bucket(18.5) == Some(1)
    ensures Bucket(40.0) == Some(8)
    ensures forall v :: v < 0.0 ==> Bucket(v) == None
    ensures forall v :: 50.0 <= v ==> Bucket(v) == None
  {
  }
}

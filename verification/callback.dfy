/**
 The click handler of the calculator. One click carries the button's click
 counter and the current height and weight fields (each possibly empty). A
 click that passes the guard computes the BMI, appends it to the history and
 answers with the BMI and the chart of the whole history; any other click
 leaves the history alone and answers with the request for valid input and
 an empty chart.

 The history, a process-wide list in the application, is threaded through
 `Step` as explicit state.
 */
module BmiCallback {
  import opened Wrappers
  import opened BmiBins
  import opened BmiHistogram

  /** The text shown above the chart: the computed BMI, or the request for valid input. */
  datatype Message = ShowBmi(bmi: real) | AskForValidInput

  datatype Response = Response(message: Message, chart: seq<Bar>)

  /** The history after a click, and what the page shows for it. */
  datatype Transition = Transition(history: seq<real>, response: Response)

  /** The state of the page when a click is handled. */
  datatype Click = Click(nClicks: int, height: Option<real>, weight: Option<real>)

  /** Python truthiness of an optional number: present and non-zero. */
  predicate Truthy(x: Option<real>) {
    x.Some? && x.value != 0.0
  }

  /**
   The guard of the handler: clicked at least once, height and weight both
   truthy, that is neither None nor zero. Negative values pass.
   */
  predicate Accepts(c: Click) {
    c.nClicks > 0 && Truthy(c.height) && Truthy(c.weight)
  }

  /** Weight over height squared. */
  function Bmi(height: real, weight: real): (bmi: real)
    requires height != 0.0
    ensures bmi * (height * height) == weight
  {
    weight / (height * height)
  }

  /** The answer to a click that fails the guard. */
  const Rejection: Response := Response(AskForValidInput, [])

  /** Handles one click against the current history. */
  function Step(history: seq<real>, c: Click): (t: Transition)
    ensures Accepts(c) ==>
              && |t.history| == |history| + 1
              && t.history[..|history|] == history
              && t.history[|history|] * (c.height.value * c.height.value) == c.weight.value
              && t.response.message == ShowBmi(t.history[|history|])
              && t.response.chart == Chart(t.history)
    ensures !Accepts(c) ==> t.history == history && t.response.message.AskForValidInput? && t.response.chart == []
  {
    if Accepts(c) then
      var bmi := Bmi(c.height.value, c.weight.value);
      var h := history + [bmi];
      assert h[..|history|] == history;
      Transition(h, Response(ShowBmi(bmi), Chart(h)))
    else
      Transition(history, Rejection)
  }

  /** A click never removes or changes a value already in the history. */
  lemma StepIsAppendOnly(history: seq<real>, c: Click)
    ensures Step(history, c).history[..|history|] == history
    ensures |Step(history, c).history| == |history| + (if Accepts(c) then 1 else 0)
  {
  }

  /**
   The history grows exactly when the click counter is positive and neither
   height nor weight is None or zero; negative values pass the guard.
   */
  lemma StepGrowsIffGuard(history: seq<real>, c: Click)
    ensures |Step(history, c).history| == |history| + 1
            <==> c.nClicks > 0 && c.height !in {None, Some(0.0)} && c.weight !in {None, Some(0.0)}
  {
  }

  /** A rejected click answers the same way whatever the history holds. */
  lemma RejectionIgnoresHistory(h1: seq<real>, h2: seq<real>, c: Click)
    requires !Accepts(c)
    ensures Step(h1, c).response == Step(h2, c).response
  {
  }

  /**
   The chart of an accepted click, rebuilt from the whole history, equals the
   previous history's counts with the new value's range bumped by one.
   */
  lemma StepChartIsOldCountsPlusNewValue(history: seq<real>, c: Click)
    requires Accepts(c)
    ensures var t := Step(history, c);
            var bmi := t.response.message.bmi;
            Heights(t.response.chart) == Tally(Counts(history), Bucket(bmi))
  {
    var t := Step(history, c);
    var bmi := t.response.message.bmi;
    assert t.history == history + [bmi];
    CountsMatchIntervals(t.history);
    assert Heights(t.response.chart) == Counts(t.history);
    CountsAppend(history, bmi);
  }

  /**
   The bars of an accepted click add up to the number of values in [0, 50)
   in the previous history plus one if the new BMI lies in [0, 50).
   */
  lemma StepChartTotal(history: seq<real>, c: Click)
    requires Accepts(c)
    ensures var t := Step(history, c);
            var bmi := t.response.message.bmi;
            Sum(Heights(t.response.chart)) == InRangeCount(history) + (if 0.0 <= bmi < 50.0 then 1 else 0)
  {
    var t := Step(history, c);
    var bmi := t.response.message.bmi;
    assert t.history == history + [bmi];
    ChartConserves(t.history);
    InRangeCountConcat(history, [bmi]);
  }

  /** The history after handling a sequence of clicks in order. */
  function Replay(history: seq<real>, clicks: seq<Click>): (h: seq<real>)
    ensures |history| <= |h| <= |history| + |clicks|
    ensures h[..|history|] == history
    decreases |clicks|
  {
    if |clicks| == 0 then history
    else Replay(Step(history, clicks[0]).history, clicks[1..])
  }

  /** The BMIs of the accepted clicks, in click order. */
  function AcceptedBmis(clicks: seq<Click>): (bmis: seq<real>)
    ensures |bmis| <= |clicks|
  {
    if |clicks| == 0 then []
    else if Accepts(clicks[0]) then [Bmi(clicks[0].height.value, clicks[0].weight.value)] + AcceptedBmis(clicks[1..])
    else AcceptedBmis(clicks[1..])
  }

  /**
   Over any run of clicks the history only grows at its end: it becomes the
   starting history followed by the BMI of each accepted click, in order.
   */
  lemma {:induction false} ReplayAppendsAcceptedBmis(history: seq<real>, clicks: seq<Click>)
    ensures Replay(history, clicks) == history + AcceptedBmis(clicks)
    decreases |clicks|
  {
    if |clicks| > 0 {
      var c := clicks[0];
      ReplayAppendsAcceptedBmis(Step(history, c).history, clicks[1..]);
      if Accepts(c) {
        assert Step(history, c).history == history + [Bmi(c.height.value, c.weight.value)];
        assert history + [Bmi(c.height.value, c.weight.value)] + AcceptedBmis(clicks[1..])
            == history + AcceptedBmis(clicks);
      }
    }
  }

  /** First click with height 1.75 m and weight 70 kg: BMI 70 / 1.75^2, one value in "21-24". */
  lemma FirstClickScenario()
    ensures var t := Step([], Click(1, Some(1.75), Some(70.0)));
            && t.history == [70.0 / 3.0625]
            && t.response.message == ShowBmi(70.0 / 3.0625)
            && Heights(t.response.chart) == [0, 0, 0, 1, 0, 0, 0, 0, 0]
  {
    var v := 70.0 / 3.0625;
    var t := Step([], Click(1, Some(1.75), Some(70.0)));
    assert t.history == [] + [v];
    BucketIff(v, 3);
    CountsAppend([], v);
    HeightsOfChart([] + [v]);
  }

  /** A click with an empty height field is rejected with an empty chart. */
  lemma MissingHeightScenario(history: seq<real>)
    ensures Step(history, Click(1, None, Some(70.0))) == Transition(history, Rejection)
  {
  }

  /** The initial call with zero clicks is rejected and leaves the history empty. */
  lemma InitialLoadScenario()
    ensures Step([], Click(0, Some(1.75), Some(70.0))) == Transition([], Rejection)
  {
  }

  /**
   Three clicks with counters 1, 2, 3 and filled-in fields leave the three
   BMIs in the history, in click order (with height 1 and weights 19, 19.5
   and 22 these are 19, 19.5 and 22).
   */
  lemma ThreeClicksHistory(height: real, w1: real, w2: real, w3: real)
    requires height != 0.0 && w1 != 0.0 && w2 != 0.0 && w3 != 0.0
    ensures Replay([], [Click(1, Some(height), Some(w1)), Click(2, Some(height), Some(w2)), Click(3, Some(height), Some(w3))])
         == [Bmi(height, w1), Bmi(height, w2), Bmi(height, w3)]
  {
    var clicks := [Click(1, Some(height), Some(w1)), Click(2, Some(height), Some(w2)), Click(3, Some(height), Some(w3))];
    ReplayAppendsAcceptedBmis([], clicks);
    assert clicks[1..] == [clicks[1], clicks[2]] && clicks[1..][1..] == [clicks[2]] && clicks[1..][1..][1..] == [];
    assert AcceptedBmis(clicks[1..][1..]) == [Bmi(height, w3)];
  }

  /**
   The chart of a history of three values, two in "18.5-20" and one in
   "21-24" (as 19, 19.5 and 22): heights 2 and 1 at those ranges, 0
   elsewhere, in range order.
   */
  lemma ThreeValuesChart(x: real, y: real, z: real)
    requires 18.5 <= x < 20.0 && 18.5 <= y < 20.0 && 21.0 <= z < 24.0
    ensures Heights(Chart([x, y, z])) == [0, 2, 0, 1, 0, 0, 0, 0, 0]
  {
    var h := [x, y, z];
    var bars := Chart(h);
    assert h[1..] == [y, z] && h[1..][1..] == [z] && h[1..][1..][1..] == [];
    forall i | 0 <= i < NumBuckets
      ensures bars[i].frequency == [0, 2, 0, 1, 0, 0, 0, 0, 0][i]
    {
      assert Members([z], i) == (if InBucket(z, i) then 1 else 0) + Members([], i);
      assert Members([y, z], i) == (if InBucket(y, i) then 1 else 0) + Members([z], i);
      assert Members(h, i) == (if InBucket(x, i) then 1 else 0) + (if InBucket(y, i) then 1 else 0) + (if InBucket(z, i) then 1 else 0);
      assert InBucket(x, 1) && InBucket(y, 1) && InBucket(z, 3);
      if InBucket(x, i) { BucketsDisjoint(x, 1, i); }
      if InBucket(y, i) { BucketsDisjoint(y, 1, i); }
      if InBucket(z, i) { BucketsDisjoint(z, 3, i); }
    }
  }

  /**
   The third click of the run 19, 19.5, 22 (height 1, weight 22 after the
   history [19, 19.5]) shows frequency 2 in "18.5-20" and 1 in "21-24".
   */
  lemma ThirdClickChart()
    ensures Heights(Step([19.0, 19.5], Click(3, Some(1.0), Some(22.0))).response.chart) == [0, 2, 0, 1, 0, 0, 0, 0, 0]
  {
    assert Step([19.0, 19.5], Click(3, Some(1.0), Some(22.0))).history == [19.0, 19.5, 22.0];
    ThreeValuesChart(19.0, 19.5, 22.0);
  }
}

# BMI calculator: click handler and BMI frequency histogram

A Dafny model of the logic of the single-page BMI calculator ("Calculadora de
IMC"). One click of the "Calcular IMC" button runs the handler
`calculate_bmi`:

- **Guard.** The click counter must be positive and both the height and weight
  fields must be truthy (present and non-zero). Otherwise the page shows the
  request for valid input ("Introduce valores válidos para calcular el IMC.")
  and an empty chart, and the history is left alone.
- **BMI and history.** The BMI is `weight / height ** 2`. It is appended to the
  process-wide history `bmi_values`.
- **Histogram.** The whole history is re-bucketed with
  `pandas.cut(bins=[0, 18.5, 20, 21, 24, 27, 30, 35, 40, 50], right=False)`
  into nine half-open ranges labelled `<18.5`, `18.5-20`, …, `40+`. The lower
  edge is inclusive and the upper edge exclusive. Values outside `[0, 50)`
  belong to no range and are dropped. The per-range frequencies are reported
  in range order.

Modules:

- `Wrappers` (`wrappers.dfy`): `Option`, standing for a field that may be `None`.
- `BmiBins` (`bins.dfy`): the edges and labels, and `Bucket`, the placement of
  one value. `Bucket` follows the way `pandas.cut` with `right=False` places a
  value: count the edges at or below it. A count of 0 or 10 means no range;
  otherwise the range is the count minus one. It is proved equal to the
  interval reading `Edges[i] <= v < Edges[i+1]`.
- `BmiHistogram` (`histogram.dfy`): `Counts`, a nine-slot count vector. It is
  related to two reference counts: `Members` counts the values in one
  interval, and `InRangeCount` counts the values in `[0, 50)`. `Chart` builds
  the labelled bars.
- `BmiCallback` (`callback.dfy`): the guard, `Bmi`, and `Step`, which handles one
  click against an explicit history. `Replay` handles a sequence of clicks.
  There are also lemmas for concrete clicks: first click, missing height,
  initial load, three clicks.

Floats are modelled as exact `real`s. Bucketing only compares values with the
edge constants, so the classification rules are unaffected. The history is
passed explicitly to `Step`, not kept as a global list.

Zero-count ranges: `value_counts()` on the categorical column from
`pandas.cut` lists every category, including those with count 0, and
`sort_index()` puts them in label order, so the chart always has nine bars,
some of which may have frequency 0.

## Model

| member | source | states |
|---|---|---|
| BmiBins.EdgesWellFormed | app.py:60-61 | the ten edges strictly ascend and there is exactly one edge more than the nine labels |
| BmiBins.CountAtOrBelowSplits | app.py:65 | on ascending edges, the number of edges at or below v splits them into a prefix at or below v and a suffix strictly above v |
| BmiBins.Bucket | app.py:60-65 | a value gets a range exactly when it lies in [0, 50), and that range's interval [lower, upper) contains it |
| BmiBins.BucketsDisjoint | app.py:60-61 | no value lies in two ranges |
| BmiBins.BucketIff | app.py:60-65 | a value is placed in range i if and only if lower edge i <= v < upper edge i |
| BmiBins.RangesPartition | app.py:60-65 | every value in [0, 50) lies in exactly one range, and values outside it lie in none |
| BmiBins.EdgeStartsItsRange | app.py:65 | each edge except 50 belongs to the range that starts at it (lower bound inclusive) |
| BmiBins.BoundaryCases | app.py:60-65 | 0 is in "<18.5", 18.5 is in "18.5-20", 40 is in "40+", and 50, anything above it and anything below 0 are in no range |
| BmiHistogram.Tally | app.py:68 | counting one more value adds one to exactly the slot of its range and changes no other slot |
| BmiHistogram.Counts | app.py:64-68 | the count vector always has one slot per range (nine) |
| BmiHistogram.CountsMatchIntervals | app.py:64-68 | slot i equals the number of history values in interval i |
| BmiHistogram.CountsConserve | app.py:64-68 | the slots add up to the number of history values in [0, 50); other values are dropped without error |
| BmiHistogram.CountsConcat | app.py:64-68 | the counts of two histories joined are the slot-wise sums of their counts |
| BmiHistogram.CountsAppend | app.py:54-68 | recounting a history extended by one value gives the old counts with that value's range bumped by one |
| BmiHistogram.CountsIgnoreOrder | app.py:64-68 | histories holding the same values in any order have the same counts, so the report follows range order, not insertion order |
| BmiHistogram.Chart | app.py:60-69 | the chart has nine bars; bar i carries label i and the number of history values in interval i |
| BmiHistogram.HeightsOfChart | app.py:68-69 | the bar frequencies, read in bar order, are the count vector |
| BmiHistogram.ChartConserves | app.py:64-69 | the bar frequencies add up to the number of history values in [0, 50) |
| BmiCallback.StepGrowsIffGuard | app.py:51 | the history grows exactly when the click counter is positive and neither height nor weight is `None` or 0 (negative values pass) |
| BmiCallback.Bmi | app.py:53 | the BMI times the height squared gives back the weight |
| BmiCallback.Step | app.py:50-77 | an accepted click appends one value whose product with height squared is the weight, keeps all earlier values, and shows that BMI with the chart of the whole new history; a rejected click keeps the history and shows the request for valid input with an empty chart |
| BmiCallback.StepIsAppendOnly | app.py:51-54 | a click keeps the old history as a prefix and grows it by one exactly when the guard passes |
| BmiCallback.RejectionIgnoresHistory | app.py:75-77 | a rejected click answers identically whatever the history holds |
| BmiCallback.StepChartIsOldCountsPlusNewValue | app.py:53-68 | the chart rebuilt after an accepted click equals the previous counts with the new BMI's range bumped by one |
| BmiCallback.StepChartTotal | app.py:53-68 | after an accepted click the bars add up to the earlier in-range values plus one when the new BMI is in [0, 50) |
| BmiCallback.Replay | app.py:15-54 | handling clicks one after another keeps the starting history as a prefix and adds at most one value per click |
| BmiCallback.ReplayAppendsAcceptedBmis | app.py:51-54 | over any run of clicks, starting from any history, the history becomes the start followed by the BMIs of the accepted clicks in click order |
| BmiCallback.FirstClickScenario | app.py:51-68 | height 1.75 and weight 70 on the first click give BMI 70/3.0625 and a single value in "21-24" |
| BmiCallback.MissingHeightScenario | app.py:51-77 | a click with an empty height field is rejected and the history is unchanged |
| BmiCallback.InitialLoadScenario | app.py:51-77 | the call with zero clicks is rejected even with both fields filled, and the history stays empty |
| BmiCallback.ThreeClicksHistory | app.py:51-54 | three filled-in clicks leave their three BMIs in the history in click order |
| BmiCallback.ThreeValuesChart | app.py:60-68 | two values in "18.5-20" and one in "21-24" (such as 19, 19.5, 22) give frequencies 0, 2, 0, 1, 0, 0, 0, 0, 0 in range order |
| BmiCallback.ThirdClickChart | app.py:51-68 | the click adding 22 to the history [19, 19.5] shows frequencies 0, 2, 0, 1, 0, 0, 0, 0, 0 |

## Left out

- Page layout, labels, input widgets, favicon and title (app.py:6-40): presentation only.
- The plotly figures (app.py:72, 77): the chart is modelled as a sequence of (label, frequency) bars. The rejection chart is the empty sequence.
- The server entry point (app.py:79-80).
- The message text and its `:.2f` rounding (app.py:57): the message is a datatype carrying the BMI value, not a string.
- The `min=0.1` attributes of the inputs (app.py:24, 28): the browser enforces them, not the handler. The guard is only "present and non-zero", so negative heights and weights pass it.
- IEEE float behaviour: rounding, overflow of the division to infinity, NaN inputs (which are truthy in Python), a height above about 1.3e154 whose `height ** 2` raises `OverflowError`, and a tiny non-zero height whose square underflows to 0 and raises `ZeroDivisionError`. Values are exact reals, so `height * height` is never 0 for a non-zero height.
- A click counter of `None`: the button starts at 0, so the handler always receives an integer.
- Sharing of the global history between concurrent visitors (app.py:15): the history is explicit state threaded through `Step`, one click at a time.

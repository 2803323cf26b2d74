/**
 * The analytics page: the summary figures over the selected days (total
 * patients, rounded average wait, busiest day, peak hour), the peak-hour
 * series for 8am to 7pm, the department chart rows with their fallbacks,
 * and the prediction-accuracy rows.
 */
module Analytics {
  import opened Common
  import opened Types

  // ---------------------------------------------------------------------------
  // First maximum (reduce((max, x) => x > max ? x : max, xs[0]))
  // ---------------------------------------------------------------------------

  /**
   * The index the reduce ends on: it only moves to a later element that is
   * strictly larger, so ties go to the earliest.
   */
  function FirstMaxIndex(values: seq<int>): (r: nat)
    requires values != []
    ensures r < |values|
    ensures forall j :: 0 <= j < |values| ==> values[j] <= values[r]
    ensures forall j :: 0 <= j < r ==> values[j] < values[r]
  {
    if |values| == 1 then 0
    else
      var best := FirstMaxIndex(values[..|values| - 1]);
      if values[|values| - 1] > values[best] then |values| - 1 else best
  }

  // ---------------------------------------------------------------------------
  // Summary figures
  // ---------------------------------------------------------------------------

  function Served(days: seq<QueueAnalytics>): (r: seq<int>)
    ensures |r| == |days| && forall k :: 0 <= k < |r| ==> r[k] == days[k].patientsServed
  {
    seq(|days|, k requires 0 <= k < |days| => days[k].patientsServed)
  }

  function DailyWaits(days: seq<QueueAnalytics>): (r: seq<int>)
    ensures |r| == |days| && forall k :: 0 <= k < |r| ==> r[k] == days[k].averageWaitTime
  {
    seq(|days|, k requires 0 <= k < |days| => days[k].averageWaitTime)
  }

  /** Total Patients: the patients served over the selected days. */
  function TotalPatients(days: seq<QueueAnalytics>): int {
    Sum(Served(days))
  }

  /** The total over two spans of days is the sum of their totals. */
  lemma TotalPatientsAppend(a: seq<QueueAnalytics>, b: seq<QueueAnalytics>)
    ensures TotalPatients(a + b) == TotalPatients(a) + TotalPatients(b)
  {
    assert Served(a + b) == Served(a) + Served(b);
    SumAppend(Served(a), Served(b));
  }

  /** Avg. Wait Time: the rounded mean of the daily averages, or 0 without days. */
  function AverageWait(days: seq<QueueAnalytics>): (r: int)
    ensures days == [] ==> r == 0
    ensures days != [] ==> 2 * |days| * r <= 2 * Sum(DailyWaits(days)) + |days|
                                          < 2 * |days| * r + 2 * |days|
  {
    if days == [] then 0 else RoundedMean(DailyWaits(days))
  }

  /** The average wait lies between the shortest and the longest daily average. */
  lemma AverageWaitWithin(days: seq<QueueAnalytics>, lo: int, hi: int)
    requires days != []
    requires forall k :: 0 <= k < |days| ==> lo <= days[k].averageWaitTime <= hi
    ensures lo <= AverageWait(days) <= hi
  {
    RoundedMeanWithin(DailyWaits(days), lo, hi);
  }

  /** Busiest Day: the first day with the most patients served; none without days. */
  function BusiestDay(days: seq<QueueAnalytics>): (r: Option<QueueAnalytics>)
    ensures r.None? <==> days == []
    ensures r.Some? ==> exists i :: 0 <= i < |days| && days[i] == r.value
                          && (forall j :: 0 <= j < |days| ==> days[j].patientsServed <= r.value.patientsServed)
                          && (forall j :: 0 <= j < i ==> days[j].patientsServed < r.value.patientsServed)
  {
    if days == [] then None
    else
      var i := FirstMaxIndex(Served(days));
      Some(days[i])
  }

  /** With no negative counts, the busiest day never served more than the whole span. */
  lemma {:induction false} BusiestWithinTotal(days: seq<QueueAnalytics>)
    requires days != []
    requires forall k :: 0 <= k < |days| ==> days[k].patientsServed >= 0
    ensures BusiestDay(days).value.patientsServed <= TotalPatients(days)
  {
    var i := FirstMaxIndex(Served(days));
    var before, after := days[..i], days[i + 1..];
    assert days == before + [days[i]] + after;
    TotalPatientsAppend(before + [days[i]], after);
    TotalPatientsAppend(before, [days[i]]);
    assert Served([days[i]]) == [days[i].patientsServed];
    assert Sum([days[i].patientsServed]) == days[i].patientsServed by {
      assert [days[i].patientsServed][..0] == [];
    }
    SumWithin(Served(before), 0, days[i].patientsServed);
    SumWithin(Served(after), 0, days[i].patientsServed);
  }

  // ---------------------------------------------------------------------------
  // Peak hours (peakHoursData)
  // ---------------------------------------------------------------------------

  /** day.peakHours.find(peak => peak.hour === hour)?.count, or 0 when there is none. */
  function FirstPeakCount(peaks: seq<PeakHour>, hour: int): (r: int)
    ensures (forall k :: 0 <= k < |peaks| ==> peaks[k].hour != hour) ==> r == 0
    ensures (exists k :: 0 <= k < |peaks| && peaks[k].hour == hour) ==>
              exists k :: 0 <= k < |peaks| && peaks[k].hour == hour && r == peaks[k].count
                          && forall j :: 0 <= j < k ==> peaks[j].hour != hour
  {
    if peaks == [] then 0
    else if peaks[0].hour == hour then peaks[0].count
    else
      var r := FirstPeakCount(peaks[1..], hour);
      assert forall k :: 0 < k < |peaks| ==> peaks[k] == peaks[1..][k - 1];
      r
  }

  function PeakCounts(days: seq<QueueAnalytics>, hour: int): (r: seq<int>)
    ensures |r| == |days| && forall k :: 0 <= k < |r| ==> r[k] == FirstPeakCount(days[k].peakHours, hour)
  {
    seq(|days|, k requires 0 <= k < |days| => FirstPeakCount(days[k].peakHours, hour))
  }

  /** The patients counted at an hour over all the selected days. */
  function HourCount(days: seq<QueueAnalytics>, hour: int): int {
    Sum(PeakCounts(days, hour))
  }

  /** Counting an hour over two spans of days adds their counts. */
  lemma HourCountAppend(a: seq<QueueAnalytics>, b: seq<QueueAnalytics>, hour: int)
    ensures HourCount(a + b, hour) == HourCount(a, hour) + HourCount(b, hour)
  {
    assert PeakCounts(a + b, hour) == PeakCounts(a, hour) + PeakCounts(b, hour);
    SumAppend(PeakCounts(a, hour), PeakCounts(b, hour));
  }

  /** An hour that no day records counts 0. */
  lemma HourCountUnrecorded(days: seq<QueueAnalytics>, hour: int)
    requires forall k, j :: 0 <= k < |days| && 0 <= j < |days[k].peakHours| ==> days[k].peakHours[j].hour != hour
    ensures HourCount(days, hour) == 0
  {
    SumWithin(PeakCounts(days, hour), 0, 0);
  }

  /** `${hour}am` up to 12 (so noon reads 12am), `${hour - 12}pm` after it. */
  function HourLabel(hour: nat): (r: string)
    ensures |r| >= 3 && r[|r| - 2..] == (if hour <= 12 then "am" else "pm")
    ensures forall i :: 0 <= i < |r| - 2 ==> IsDigit(r[i])
    ensures DigitsValue(r[..|r| - 2]) == (if hour <= 12 then hour else hour - 12)
  {
    var n: nat := if hour <= 12 then hour else hour - 12;
    var digits := NatToString(n);
    NatToStringValue(n);
    var r := digits + (if hour <= 12 then "am" else "pm");
    assert r[..|r| - 2] == digits;
    r
  }

  /** The twelve hours from 8 to 19 get twelve different labels. */
  lemma HourLabelsDistinct(h1: nat, h2: nat)
    requires 8 <= h1 < h2 <= 19
    ensures HourLabel(h1) != HourLabel(h2)
  {
    var l1, l2 := HourLabel(h1), HourLabel(h2);
    if (h1 <= 12) != (h2 <= 12) {
      assert l1[|l1| - 2] == 'a' && l2[|l2| - 2] == 'p';
    }
  }

  datatype PeakHourRow = PeakHourRow(hour: string, count: int)

  /** The counts of the hours from 8 to 19, in order. */
  function HourCounts(days: seq<QueueAnalytics>): (r: seq<int>)
    ensures |r| == 12 && forall k :: 0 <= k < 12 ==> r[k] == HourCount(days, k + 8)
  {
    seq(12, k requires 0 <= k < 12 => HourCount(days, k + 8))
  }

  /** The labels of the hours from 8 to 19, in order. */
  function HourLabels(): (r: seq<string>)
    ensures |r| == 12 && forall k :: 0 <= k < 12 ==> r[k] == HourLabel(k + 8)
  {
    seq(12, k requires 0 <= k < 12 => HourLabel(k + 8))
  }

  /** peakHoursData: one row per hour from 8am to 7pm, in order. */
  function PeakHoursData(days: seq<QueueAnalytics>): (r: seq<PeakHourRow>)
    ensures |r| == 12
    ensures forall k :: 0 <= k < 12 ==> r[k].hour == HourLabels()[k]
    ensures forall k :: 0 <= k < 12 ==> r[k].count == HourCounts(days)[k]
  {
    var labels, counts := HourLabels(), HourCounts(days);
    seq(12, k requires 0 <= k < 12 => PeakHourRow(labels[k], counts[k]))
  }

  /** The row the Peak Hour reduce ends on: the first hour with the largest count. */
  function PeakHourIndex(days: seq<QueueAnalytics>): (k: nat)
    ensures k < 12
    ensures forall j :: 0 <= j < 12 ==> HourCounts(days)[j] <= HourCounts(days)[k]
    ensures forall j :: 0 <= j < k ==> HourCounts(days)[j] < HourCounts(days)[k]
  {
    FirstMaxIndex(HourCounts(days))
  }

  /** Peak Hour: the label of that row (there are always twelve rows, so never '-'). */
  function PeakHourLabel(days: seq<QueueAnalytics>): (r: string)
    ensures r == HourLabel(PeakHourIndex(days) + 8)
  {
    PeakHoursData(days)[PeakHourIndex(days)].hour
  }

  // ---------------------------------------------------------------------------
  // Department chart (departmentData)
  // ---------------------------------------------------------------------------

  datatype DepartmentRow = DepartmentRow(name: string, waitTime: int, patients: int, value: int)

  /** A zero average wait shows as 10 + 5 * index, a zero waiting count as 5 + 3 * index. */
  function DepartmentData(departments: seq<Department>): (r: seq<DepartmentRow>)
    ensures |r| == |departments|
    ensures forall k :: 0 <= k < |r| ==> r[k].name == departments[k].name && r[k].patients == r[k].value
    ensures forall k :: 0 <= k < |r| ==>
              r[k].waitTime == (if departments[k].averageWaitTime != 0 then departments[k].averageWaitTime else 10 + 5 * k)
    ensures forall k :: 0 <= k < |r| ==>
              r[k].patients == (if departments[k].patientsWaiting != 0 then departments[k].patientsWaiting else 5 + 3 * k)
  {
    seq(|departments|, k requires 0 <= k < |departments| =>
      var d := departments[k];
      var patients := if d.patientsWaiting != 0 then d.patientsWaiting else 5 + 3 * k;
      DepartmentRow(d.name, if d.averageWaitTime != 0 then d.averageWaitTime else 10 + 5 * k, patients, patients))
  }

  /** With no negative figures, every bar of the department chart is positive. */
  lemma DepartmentBarsPositive(departments: seq<Department>)
    requires forall k :: 0 <= k < |departments| ==>
               departments[k].averageWaitTime >= 0 && departments[k].patientsWaiting >= 0
    ensures forall k :: 0 <= k < |departments| ==>
              DepartmentData(departments)[k].waitTime > 0 && DepartmentData(departments)[k].value > 0
  {
  }

  // ---------------------------------------------------------------------------
  // Prediction accuracy (predictionAccuracyData)
  // ---------------------------------------------------------------------------

  /** predictions.filter(p => p.actualArrivals !== undefined) */
  function WithActual(predictions: seq<PredictionData>): (r: seq<PredictionData>)
    ensures |r| <= |predictions|
    ensures forall k :: 0 <= k < |r| ==> r[k].actualArrivals.Some?
  {
    if predictions == [] then []
    else
      var rest := WithActual(predictions[1..]);
      if predictions[0].actualArrivals.Some? then [predictions[0]] + rest else rest
  }

  /** Exactly the predictions with an actual count are kept. */
  lemma {:induction false} WithActualMembers(predictions: seq<PredictionData>)
    ensures forall p :: p in WithActual(predictions) <==> p in predictions && p.actualArrivals.Some?
  {
    if predictions != [] {
      WithActualMembers(predictions[1..]);
      assert forall p :: p in predictions <==> p == predictions[0] || p in predictions[1..];
    }
  }

  /** The filter keeps the hourly order: filtering two spans filters each in place. */
  lemma {:induction false} WithActualAppend(a: seq<PredictionData>, b: seq<PredictionData>)
    ensures WithActual(a + b) == WithActual(a) + WithActual(b)
  {
    if a == [] {
      assert a + b == b;
    } else {
      var ab := a + b;
      assert ab[0] == a[0] && ab[1..] == a[1..] + b;
      WithActualAppend(a[1..], b);
    }
  }

  datatype AccuracyRow = AccuracyRow(hour: string, predicted: int, actual: int)

  /** The chart row of a prediction with an actual count: `${hour}:00`, predicted, actual. */
  function AccuracyRowOf(p: PredictionData): (r: AccuracyRow)
    requires p.actualArrivals.Some?
    ensures r.hour == IntToString(p.hour) + ":00"
    ensures r.predicted == p.predictedArrivals && r.actual == p.actualArrivals.value
  {
    AccuracyRow(IntToString(p.hour) + ":00", p.predictedArrivals, p.actualArrivals.value)
  }

  function PredictionAccuracyData(predictions: seq<PredictionData>): (r: seq<AccuracyRow>)
    ensures |r| == |WithActual(predictions)|
    ensures forall k :: 0 <= k < |r| ==> r[k] == AccuracyRowOf(WithActual(predictions)[k])
  {
    var kept := WithActual(predictions);
    seq(|kept|, k requires 0 <= k < |kept| => AccuracyRowOf(kept[k]))
  }

  /** With every actual count recorded, each prediction gets its row. */
  lemma {:induction false} AllRecordedKeepsAll(predictions: seq<PredictionData>)
    requires forall k :: 0 <= k < |predictions| ==> predictions[k].actualArrivals.Some?
    ensures WithActual(predictions) == predictions
  {
    if predictions != [] {
      AllRecordedKeepsAll(predictions[1..]);
    }
  }
}

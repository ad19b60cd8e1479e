/**
 * The chart of the web front end: historical prices and predictions share
 * one label axis, and each of the two datasets is padded with nulls where
 * the other one has its points.
 */
module PriceChart {

  /** One point of either series: a date label and a price. */
  datatype PriceData = PriceData(date: string, price: real)

  /** A chart value; `Null` is the `null` Chart.js leaves unplotted. */
  datatype Point = Null | Value(v: real)

  function Dates(ps: seq<PriceData>): (ds: seq<string>)
    ensures |ds| == |ps| && forall i :: 0 <= i < |ps| ==> ds[i] == ps[i].date
  {
    seq(|ps|, i requires 0 <= i < |ps| => ps[i].date)
  }

  function Values(ps: seq<PriceData>): (vs: seq<Point>)
    ensures |vs| == |ps| && forall i :: 0 <= i < |ps| ==> vs[i] == Value(ps[i].price)
  {
    seq(|ps|, i requires 0 <= i < |ps| => Value(ps[i].price))
  }

  /** `Array(n).fill(null)`. */
  function Nulls(n: nat): (vs: seq<Point>)
    ensures |vs| == n && forall i :: 0 <= i < n ==> vs[i] == Null
  {
    seq(n, _ => Null)
  }

  /** The x-axis: the historical dates, then the prediction dates. */
  function Labels(historical: seq<PriceData>, predictions: seq<PriceData>): (labels: seq<string>)
    ensures |labels| == |historical| + |predictions|
    ensures forall i :: 0 <= i < |historical| ==> labels[i] == historical[i].date
    ensures forall j :: 0 <= j < |predictions| ==> labels[|historical| + j] == predictions[j].date
  {
    Dates(historical) + Dates(predictions)
  }

  /** The "Histórico" dataset: the historical prices, then one null per prediction. */
  function HistoricalSeries(historical: seq<PriceData>, predictions: seq<PriceData>): (data: seq<Point>)
    ensures |data| == |historical| + |predictions|
    ensures forall i :: 0 <= i < |historical| ==> data[i] == Value(historical[i].price)
    ensures forall i :: |historical| <= i < |data| ==> data[i] == Null
  {
    Values(historical) + Nulls(|predictions|)
  }

  /** The "Predicción" dataset: one null per historical price, then the predicted prices. */
  function PredictionSeries(historical: seq<PriceData>, predictions: seq<PriceData>): (data: seq<Point>)
    ensures |data| == |historical| + |predictions|
    ensures forall i :: 0 <= i < |historical| ==> data[i] == Null
    ensures forall j :: 0 <= j < |predictions| ==> data[|historical| + j] == Value(predictions[j].price)
  {
    Nulls(|historical|) + Values(predictions)
  }

  /**
   * The placeholder text is shown instead of the chart when there are no
   * labels, which is exactly when both inputs are empty.
   */
  function ShowsEmptyState(historical: seq<PriceData>, predictions: seq<PriceData>): (shown: bool)
    ensures shown <==> |historical| == 0 && |predictions| == 0
  {
    !(|Labels(historical, predictions)| > 0)
  }

  /** The plotted values of a dataset, in order, nulls skipped. */
  function Plotted(data: seq<Point>): seq<real> {
    if |data| == 0 then []
    else
      match data[|data| - 1]
      case Null => Plotted(data[..|data| - 1])
      case Value(v) => Plotted(data[..|data| - 1]) + [v]
  }

  function Prices(ps: seq<PriceData>): (vs: seq<real>)
    ensures |vs| == |ps| && forall i :: 0 <= i < |ps| ==> vs[i] == ps[i].price
  {
    seq(|ps|, i requires 0 <= i < |ps| => ps[i].price)
  }

  // ---------------------------------------------------------------------
  // Properties
  // ---------------------------------------------------------------------

  /** At every label exactly one of the two datasets has a point. */
  lemma {:induction false} SeriesPartitionLabels(historical: seq<PriceData>, predictions: seq<PriceData>)
    ensures var h := HistoricalSeries(historical, predictions);
      var p := PredictionSeries(historical, predictions);
      forall i :: 0 <= i < |Labels(historical, predictions)| ==> (h[i].Value? <==> p[i].Null?)
  {
    var h := HistoricalSeries(historical, predictions);
    var p := PredictionSeries(historical, predictions);
    forall i | 0 <= i < |historical| + |predictions| ensures h[i].Value? <==> p[i].Null? {
      if i >= |historical| {
        assert p[|historical| + (i - |historical|)] == Value(predictions[i - |historical|].price);
      }
    }
  }

  lemma {:induction false} PlottedAppend(a: seq<Point>, b: seq<Point>)
    ensures Plotted(a + b) == Plotted(a) + Plotted(b)
  {
    if |b| == 0 {
      assert a + b == a;
    } else {
      PlottedAppend(a, b[..|b| - 1]);
      assert (a + b)[..|a + b| - 1] == a + b[..|b| - 1];
    }
  }

  lemma {:induction false} PlottedNulls(n: nat)
    ensures Plotted(Nulls(n)) == []
  {
    if n > 0 {
      PlottedNulls(n - 1);
      assert Nulls(n)[..n - 1] == Nulls(n - 1);
    }
  }

  lemma {:induction false} PlottedValues(ps: seq<PriceData>)
    ensures Plotted(Values(ps)) == Prices(ps)
  {
    if |ps| > 0 {
      var front := ps[..|ps| - 1];
      PlottedValues(front);
      assert Values(ps)[..|ps| - 1] == Values(front);
      assert Prices(ps) == Prices(front) + [ps[|ps| - 1].price];
    }
  }

  /** The historical dataset plots exactly the historical prices, in order. */
  lemma {:induction false} HistoricalPlotsHistory(historical: seq<PriceData>, predictions: seq<PriceData>)
    ensures Plotted(HistoricalSeries(historical, predictions)) == Prices(historical)
  {
    PlottedAppend(Values(historical), Nulls(|predictions|));
    PlottedValues(historical);
    PlottedNulls(|predictions|);
    assert Prices(historical) + [] == Prices(historical);
  }

  /** The prediction dataset plots exactly the predicted prices, in order. */
  lemma {:induction false} PredictionPlotsPredictions(historical: seq<PriceData>, predictions: seq<PriceData>)
    ensures Plotted(PredictionSeries(historical, predictions)) == Prices(predictions)
  {
    PlottedAppend(Nulls(|historical|), Values(predictions));
    PlottedValues(predictions);
    PlottedNulls(|historical|);
    assert [] + Prices(predictions) == Prices(predictions);
  }
}

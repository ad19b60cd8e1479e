/**
 * The coffee dashboard of the chain UI: the chart built from the two API
 * replies, and the guards of the button that registers the latest price as
 * an on-chain remark.
 */
module Dashboard {
  import opened Common
  import opened JsText
  import opened CoffeeRecord
  import opened Server

  /** One point of the chart: an x-axis label and `parseFloat` of the price text (`None` is NaN). */
  datatype ChartPoint = ChartPoint(block: string, price: Option<real>)

  /**
   * The label of the k-th prediction (k from 0): `+1`, `+2`, ..., the
   * decimal text of k + 1 without leading zeros.
   */
  function PredictionLabel(k: nat): (name: string)
    ensures |name| >= 2 && name[0] == '+'
    ensures AllDigits(name[1..]) && DigitsValue(name[1..]) == k + 1
    ensures name[1] != '0'
  {
    NatTextValue(k + 1);
    var name := "+" + NatText(k + 1);
    assert name[1..] == NatText(k + 1);
    name
  }

  /**
   * `chartData`: the price records under their block labels, then the
   * predictions under the labels `+1` to `+k`.
   */
  function ChartData(prices: seq<PriceItem>, predictions: seq<string>): (data: seq<ChartPoint>)
    ensures |data| == |prices| + |predictions|
    ensures forall i :: 0 <= i < |prices| ==>
      data[i] == ChartPoint(prices[i].block, ParseFloat(prices[i].price))
    ensures forall k :: 0 <= k < |predictions| ==>
      data[|prices| + k] == ChartPoint(PredictionLabel(k), ParseFloat(predictions[k]))
  {
    seq(|prices|, i requires 0 <= i < |prices| => ChartPoint(prices[i].block, ParseFloat(prices[i].price)))
    + seq(|predictions|, k requires 0 <= k < |predictions| => ChartPoint(PredictionLabel(k), ParseFloat(predictions[k])))
  }

  /** The prediction labels are all different, so no two forecast points share an x position. */
  lemma {:induction false} PredictionLabelsDistinct(j: nat, k: nat)
    requires j != k
    ensures PredictionLabel(j) != PredictionLabel(k)
  {
    assert DigitsValue(PredictionLabel(j)[1..]) != DigitsValue(PredictionLabel(k)[1..]);
  }

  /** A record the server printed with `toFixed(2)` is plotted at its price rounded to the cent. */
  lemma {:induction false} ChartOfServerItem(item: PriceItem, r: Record)
    requires item == PriceItem(r.block, ToFixed2(r.price))
    ensures ChartPoint(item.block, ParseFloat(item.price)) == ChartPoint(r.block, Some(RoundedToCents(r.price)))
  {
    ParseToFixed2(r.price);
  }

  /** Charting the `/api/prices` reply plots each record's price rounded to the cent. */
  lemma {:induction false} ChartOfLatestPrices(rs: seq<Record>, predictions: seq<string>)
    ensures var items := LatestPrices(rs);
      forall i :: 0 <= i < |items| ==>
        ChartData(items, predictions)[i]
        == ChartPoint(rs[|rs| - |items| + i].block, Some(RoundedToCents(rs[|rs| - |items| + i].price)))
  {
    var items := LatestPrices(rs);
    forall i | 0 <= i < |items|
      ensures ChartData(items, predictions)[i]
        == ChartPoint(rs[|rs| - |items| + i].block, Some(RoundedToCents(rs[|rs| - |items| + i].price)))
    {
      ChartOfServerItem(items[i], rs[|rs| - |items| + i]);
    }
  }

  // ---------------------------------------------------------------------
  // registerPrice and the register button
  // ---------------------------------------------------------------------

  /** JavaScript truthiness of an optional string: present and not empty. */
  predicate Truthy(s: Option<string>) {
    s.Some? && s.value != ""
  }

  /** `prices[prices.length - 1]?.price`: `None` for an empty list. */
  function LatestPrice(prices: seq<PriceItem>): (latest: Option<string>)
    ensures latest.Some? <==> |prices| > 0
    ensures latest.Some? ==> latest.value == prices[|prices| - 1].price
  {
    if |prices| == 0 then None else Some(prices[|prices| - 1].price)
  }

  /**
   * The remark `registerPrice` signs and sends, or `None` when it returns
   * early: no API, no account, or no (or an empty) latest price.
   */
  function RegisterRemark(hasApi: bool, hasAccount: bool, prices: seq<PriceItem>): (remark: Option<string>)
    ensures remark.Some? <==> hasApi && hasAccount && Truthy(LatestPrice(prices))
    ensures remark.Some? ==> remark.value == "Price:" + prices[|prices| - 1].price
  {
    if !hasApi || !hasAccount then None
    else
      var latest := LatestPrice(prices);
      if !Truthy(latest) then None else Some("Price:" + latest.value)
  }

  /** The register button is rendered only with no error and both the API and an account ready. */
  predicate ShowsRegisterButton(error: Option<string>, hasApi: bool, hasAccount: bool) {
    !Truthy(error) && hasApi && hasAccount
  }

  /**
   * The button's guard and `registerPrice`'s early return agree: a shown
   * button sends a remark exactly when the latest price is non-empty, and
   * with no error a hidden button is one whose click would send nothing.
   * An error hides the button even when the API and an account are ready.
   */
  lemma {:induction false} RegisterButtonGuard(error: Option<string>, hasApi: bool, hasAccount: bool,
                                               prices: seq<PriceItem>)
    ensures ShowsRegisterButton(error, hasApi, hasAccount) ==>
      (RegisterRemark(hasApi, hasAccount, prices).Some? <==> Truthy(LatestPrice(prices)))
    ensures !Truthy(error) && !ShowsRegisterButton(error, hasApi, hasAccount) ==>
      RegisterRemark(hasApi, hasAccount, prices).None?
    ensures Truthy(error) ==> !ShowsRegisterButton(error, hasApi, hasAccount)
  {
  }

  /** The remark carries the latest price, which can be read back from it. */
  lemma {:induction false} RemarkCarriesLatest(prices: seq<PriceItem>)
    requires RegisterRemark(true, true, prices).Some?
    ensures var remark := RegisterRemark(true, true, prices).value;
      |remark| > 6 && remark[6..] == prices[|prices| - 1].price
  {
    var remark := RegisterRemark(true, true, prices).value;
    assert remark == "Price:" + prices[|prices| - 1].price;
  }

  /**
   * Over the listener's log, with API and account ready, the dashboard
   * registers the most recently logged price, written to the cent.
   */
  lemma {:induction false} RegistersLatestLogged(rs: seq<Record>)
    requires forall i :: 0 <= i < |rs| ==> Storable(rs[i])
    requires |rs| >= 1
    ensures var last := rs[|rs| - 1];
      WholeCents(last.price)
      && RegisterRemark(true, true, LatestPrices(rs)) == Some("Price:" + CentsText(Cents(last.price)))
  {
    var items := LatestPrices(rs);
    var last := rs[|rs| - 1];
    assert Storable(last);
    assert items[|items| - 1] == PriceItem(last.block, ToFixed2(last.price));
    RemarkOfStored(items, last);
  }

  /** When the last item is a stored record printed by `toFixed(2)`, the remark carries its cents. */
  lemma {:induction false} RemarkOfStored(items: seq<PriceItem>, r: Record)
    requires Storable(r) && |items| > 0 && items[|items| - 1] == PriceItem(r.block, ToFixed2(r.price))
    ensures WholeCents(r.price)
      && RegisterRemark(true, true, items) == Some("Price:" + CentsText(Cents(r.price)))
  {
    StoredPriceText(items[|items| - 1], r);
  }
}

/**
 * The two read-only HTTP handlers of the price API. Each reads the whole
 * observation log, trims it, splits it into lines and parses every line;
 * the handlers are functions of the log text, so calling one never changes
 * what the next call sees.
 */
module Server {
  import opened Common
  import opened JsText
  import opened CoffeeRecord
  import opened Predict
  import opened Ingest

  /** Size of the window `/api/prices` returns. */
  const PricesWindow: nat := 10
  /** Size of the window `/api/predict` fits its line to. */
  const PredictWindow: nat := 30
  /** Number of prices `/api/predict` forecasts. */
  const Horizon: nat := 3

  /** An HTTP reply: a JSON body with status 200, or status 500 with `{error}`. */
  datatype Reply<T> = Json(body: T) | ServerError

  /** One element of the `/api/prices` body. */
  datatype PriceItem = PriceItem(block: string, price: string)

  /** The text `JSON.stringify` gives a NaN prediction once `toFixed` has written it. */
  const NaNText: string := "NaN"

  /** `lines.map(l => JSON.parse(l))`: every line parsed, in order, or the first failure. */
  function ParseAll(lines: seq<string>): (r: Option<seq<Record>>)
    ensures r.Some? <==> forall i :: 0 <= i < |lines| ==> Parse(lines[i]).Some?
    ensures r.Some? ==> |r.value| == |lines|
    ensures r.Some? ==> forall i :: 0 <= i < |lines| ==> Some(r.value[i]) == Parse(lines[i])
  {
    MapAll(Parse, lines)
  }

  /** `readFileSync(...).trim().split('\n').map(JSON.parse)`. */
  function ReadRecords(text: string): (r: Option<seq<Record>>)
    ensures r.Some? ==> |r.value| >= 1
  {
    ParseAll(Split(Trim(text), '\n'))
  }

  /** `r => ({block: r.block, price: r.price.toFixed(2)})` over a sequence of records. */
  function Project(rs: seq<Record>): (items: seq<PriceItem>)
    ensures |items| == |rs|
    ensures forall i :: 0 <= i < |rs| ==> items[i] == PriceItem(rs[i].block, ToFixed2(rs[i].price))
  {
    seq(|rs|, i requires 0 <= i < |rs| => PriceItem(rs[i].block, ToFixed2(rs[i].price)))
  }

  function Prices(rs: seq<Record>): (ps: seq<real>)
    ensures |ps| == |rs|
    ensures forall i :: 0 <= i < |rs| ==> ps[i] == rs[i].price
  {
    seq(|rs|, i requires 0 <= i < |rs| => rs[i].price)
  }

  /** The `/api/prices` body for the parsed log `rs`: the last ten records, oldest first. */
  function LatestPrices(rs: seq<Record>): (items: seq<PriceItem>)
    ensures |items| == Min(PricesWindow, |rs|)
    ensures forall i :: 0 <= i < |items| ==>
      items[i] == PriceItem(rs[|rs| - |items| + i].block, ToFixed2(rs[|rs| - |items| + i].price))
  {
    Project(Tail(rs, PricesWindow))
  }

  /** The prices `/api/predict` fits its line to: those of the last thirty records, oldest first. */
  function PredictInput(rs: seq<Record>): (ps: seq<real>)
    ensures |ps| == Min(PredictWindow, |rs|)
    ensures forall i :: 0 <= i < |ps| ==> ps[i] == rs[|rs| - |ps| + i].price
  {
    Prices(Tail(rs, PredictWindow))
  }

  /** `.map(p => p.toFixed(2))` over the forecast; a NaN forecast is printed as `NaN`. */
  function FormatForecast(f: Option<seq<real>>): (texts: seq<string>)
    requires f.Some? ==> |f.value| == Horizon
    ensures |texts| == Horizon
  {
    match f
    case None => [NaNText, NaNText, NaNText]
    case Some(ps) => seq(Horizon, k requires 0 <= k < Horizon => ToFixed2(ps[k]))
  }

  /** The `/api/predict` body for the parsed log `rs`: `predictNext(prices, 3).map(p => p.toFixed(2))`. */
  function Predictions(rs: seq<Record>): (texts: seq<string>)
    ensures |texts| == Horizon
  {
    FormatForecast(Forecast(PredictInput(rs), Horizon))
  }

  /** `GET /api/prices`: a 500 when some line does not parse, else the latest prices. */
  function GetPrices(text: string): (r: Reply<seq<PriceItem>>)
    ensures r.ServerError? <==> ReadRecords(text).None?
    ensures r.Json? ==> r.body == LatestPrices(ReadRecords(text).value)
  {
    match ReadRecords(text)
    case None => ServerError
    case Some(rs) => Json(LatestPrices(rs))
  }

  /** `GET /api/predict`: a 500 when some line does not parse, else three forecast prices. */
  function GetPredict(text: string): (r: Reply<seq<string>>)
    ensures r.ServerError? <==> ReadRecords(text).None?
    ensures r.Json? ==> r.body == Predictions(ReadRecords(text).value)
  {
    match ReadRecords(text)
    case None => ServerError
    case Some(rs) => Json(Predictions(rs))
  }

  // ---------------------------------------------------------------------
  // What the replies contain
  // ---------------------------------------------------------------------

  /** Every price `/api/prices` returns is written with exactly two decimals. */
  lemma {:induction false} LatestPricesTwoDecimals(rs: seq<Record>)
    ensures forall i :: 0 <= i < |LatestPrices(rs)| ==> TwoDecimals(LatestPrices(rs)[i].price)
  {
    var items := LatestPrices(rs);
    forall i | 0 <= i < |items| ensures TwoDecimals(items[i].price) {
      ToFixed2Shape(rs[|rs| - |items| + i].price);
    }
  }

  lemma {:induction false} ToFixed2NotNaN(x: real)
    ensures ToFixed2(x) != NaNText
  {
    ToFixed2Shape(x);
    assert NaNText[0] == 'N';
  }

  /** The forecast is NaN exactly when the log holds a single record. */
  lemma {:induction false} PredictionsNaN(rs: seq<Record>)
    requires |rs| >= 1
    ensures Predictions(rs) == [NaNText, NaNText, NaNText] <==> |rs| == 1
  {
    var window := PredictInput(rs);
    if |rs| >= 2 {
      var x := Forecast(window, Horizon).value[0];
      ToFixed2NotNaN(x);
      assert Predictions(rs)[0] == ToFixed2(x);
    }
  }

  /**
   * With at least two records, the k-th forecast text is the line fitted
   * over x = 0..n-1 to the n = min(30, N) latest prices, evaluated at x = n - 1 + k.
   */
  lemma {:induction false} PredictionsOnFittedLine(rs: seq<Record>, k: nat)
    requires |rs| >= 2 && 1 <= k <= Horizon
    ensures var window := PredictInput(rs);
      LinearRegression(Indices(|window|), window).Some?
      && Predictions(rs)[k - 1]
         == ToFixed2(LinearRegression(Indices(|window|), window).value.At((|window| - 1 + k) as real))
  {
    var window := PredictInput(rs);
    ForecastOnFittedLine(window, Horizon, k);
    FormattedAt(Forecast(window, Horizon), k - 1);
  }

  lemma {:induction false} FormattedAt(f: Option<seq<real>>, j: nat)
    requires f.Some? && |f.value| == Horizon && j < Horizon
    ensures FormatForecast(f)[j] == ToFixed2(f.value[j])
  {
  }

  /** When the latest prices lie on a line, `/api/predict` continues that line. */
  lemma {:induction false} PredictionsOfLinearPrices(rs: seq<Record>, l: Line)
    requires |rs| >= 2
    requires forall i :: 0 <= i < |PredictInput(rs)| ==> PredictInput(rs)[i] == l.At(i as real)
    ensures Predictions(rs) == FormatForecast(Some(Extend(l, |PredictInput(rs)|, Horizon)))
  {
    ForecastExtendsLine(PredictInput(rs), Horizon, l);
  }

  // ---------------------------------------------------------------------
  // Reading back what the listener wrote
  // ---------------------------------------------------------------------

  /** An empty log cannot be read: `''.split('\n')` is `['']`, and `JSON.parse('')` throws. */
  lemma {:induction false} EmptyLogFails(text: string)
    requires Trim(text) == ""
    ensures ReadRecords(text).None?
    ensures GetPrices(text).ServerError? && GetPredict(text).ServerError?
  {
    assert Split("", '\n') == [""];
    assert Parse("").None?;
  }

  lemma {:induction false} JoinEdges(parts: seq<string>, sep: char)
    requires |parts| >= 1
    requires forall i :: 0 <= i < |parts| ==> |parts[i]| > 0
    ensures var t := Join(parts, sep);
      |t| > 0 && t[0] == parts[0][0] && t[|t| - 1] == parts[|parts| - 1][|parts[|parts| - 1]| - 1]
  {
    if |parts| > 1 {
      JoinEdges(parts[1..], sep);
    }
  }

  lemma {:induction false} ParseAllSerialized(rs: seq<Record>)
    requires forall i :: 0 <= i < |rs| ==> Storable(rs[i])
    ensures ParseAll(Serialized(rs)) == Some(rs)
  {
    var lines := Serialized(rs);
    forall i | 0 <= i < |rs| ensures Parse(lines[i]) == Some(rs[i]) {
      ParseSerialize(rs[i]);
    }
    ParseAllOf(lines, rs);
  }

  lemma {:induction false} ParseAllOf(lines: seq<string>, rs: seq<Record>)
    requires |lines| == |rs|
    requires forall i :: 0 <= i < |lines| ==> Parse(lines[i]) == Some(rs[i])
    ensures ParseAll(lines) == Some(rs)
  {
    var r := ParseAll(lines);
    assert r.Some?;
    assert r.value == rs;
  }

  /**
   * Trimming and splitting a log of newline-terminated lines gives the lines
   * back, when none is empty or holds a newline and the text does not start
   * or end in white space.
   */
  lemma {:induction false} SplitLogText(lines: seq<string>)
    requires |lines| >= 1
    requires forall i :: 0 <= i < |lines| ==> |lines[i]| > 0 && '\n' !in lines[i]
    requires !IsJsSpace(lines[0][0])
    requires var last := lines[|lines| - 1]; !IsJsSpace(last[|last| - 1])
    ensures Split(Trim(LogText(lines)), '\n') == lines
  {
    LogTextJoined(lines);
    var body := Join(lines, '\n');
    JoinEdges(lines, '\n');
    TrimLine(body);
    SplitJoin(lines, '\n');
  }

  /**
   * What the listener appended is what the handlers read: after records
   * r1..rk have been logged, the log parses back to exactly r1..rk, in order.
   */
  lemma {:induction false} ReadAfterWrite(rs: seq<Record>)
    requires forall i :: 0 <= i < |rs| ==> Storable(rs[i])
    ensures ReadRecords(LogText(Serialized(rs))) == if |rs| == 0 then None else Some(rs)
  {
    var lines := Serialized(rs);
    if |rs| == 0 {
      EmptyLogFails(LogText(lines));
    } else {
      SerializedLines(rs);
      SplitLogText(lines);
      ParseAllSerialized(rs);
    }
  }

  /** Serialised records are non-empty lines that begin with `{` and end with `}`. */
  lemma {:induction false} SerializedLines(rs: seq<Record>)
    requires |rs| >= 1
    requires forall i :: 0 <= i < |rs| ==> Storable(rs[i])
    ensures var lines := Serialized(rs);
      (forall i :: 0 <= i < |lines| ==> |lines[i]| > 0 && '\n' !in lines[i])
      && !IsJsSpace(lines[0][0])
      && var last := lines[|lines| - 1]; !IsJsSpace(last[|last| - 1])
  {
    var lines := Serialized(rs);
    forall i | 0 <= i < |lines| ensures |lines[i]| >= 2 && lines[i][0] == '{' && lines[i][|lines[i]| - 1] == '}' && '\n' !in lines[i] {
      assert lines[i] == Serialize(rs[i]);
    }
  }

  /** `/api/prices` over the listener's log answers with its latest records. */
  lemma {:induction false} PricesOfLog(rs: seq<Record>)
    requires forall i :: 0 <= i < |rs| ==> Storable(rs[i])
    requires |rs| >= 1
    ensures GetPrices(LogText(Serialized(rs))) == Json(LatestPrices(rs))
  {
    ReadAfterWrite(rs);
  }

  /** The item reports the record's price as exactly its cents. */
  predicate ReportsCents(item: PriceItem, r: Record) {
    WholeCents(r.price) && item.price == CentsText(Cents(r.price))
  }

  /** A whole-cent price is printed by `toFixed(2)` as exactly its cents. */
  lemma {:induction false} StoredPriceText(item: PriceItem, r: Record)
    requires Storable(r) && item == PriceItem(r.block, ToFixed2(r.price))
    ensures ReportsCents(item, r)
  {
    CentsToFixed2(Cents(r.price));
  }

  /** Over stored records, `/api/prices` reports each price to the cent, as it was logged. */
  lemma {:induction false} LatestStoredPrices(rs: seq<Record>)
    requires forall i :: 0 <= i < |rs| ==> Storable(rs[i])
    ensures forall i :: 0 <= i < |LatestPrices(rs)| ==>
      ReportsCents(LatestPrices(rs)[i], rs[|rs| - |LatestPrices(rs)| + i])
  {
    forall i | 0 <= i < |LatestPrices(rs)|
      ensures ReportsCents(LatestPrices(rs)[i], rs[|rs| - |LatestPrices(rs)| + i])
    {
      LatestStoredPrice(rs, i);
    }
  }

  lemma {:induction false} LatestStoredPrice(rs: seq<Record>, i: nat)
    requires forall i :: 0 <= i < |rs| ==> Storable(rs[i])
    requires i < |LatestPrices(rs)|
    ensures ReportsCents(LatestPrices(rs)[i], rs[|rs| - |LatestPrices(rs)| + i])
  {
    var items := LatestPrices(rs);
    var r := rs[|rs| - |items| + i];
    assert Storable(r);
    StoredPriceText(items[i], r);
  }
}

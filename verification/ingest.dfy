/**
 * The block listener: on every new block header it simulates a coffee price,
 * builds a record and appends it, as one JSON line, to the observation log.
 */
module Ingest {
  import opened Common
  import opened JsText
  import opened CoffeeRecord

  /** The price range of the simulation, in dollars. */
  const MinPrice: real := 3.0
  const MaxPrice: real := 5.0

  /** `Math.random() * (5 - 3) + 3`: the draw `u` in [0, 1) scaled to the price range. */
  function Drawn(u: real): real {
    u * (MaxPrice - MinPrice) + MinPrice
  }

  /**
   * The drawn price rounded by `toFixed(2)`, counted in cents,
   * for the random draw `u` in [0, 1).
   */
  function SampleCents(u: real): (c: nat)
    requires 0.0 <= u < 1.0
    ensures 300 <= c <= 500
  {
    Hundredths(Drawn(u))
  }

  /**
   * The rounded sample is a whole number of cents within the simulated range,
   * and `Number(x.toFixed(2))` reads it back.
   */
  lemma {:induction false} SamplePrice(u: real)
    requires 0.0 <= u < 1.0
    ensures RoundedToCents(Drawn(u)) == SampleCents(u) as real / 100.0
    ensures MinPrice <= RoundedToCents(Drawn(u)) <= MaxPrice
    ensures WholeCents(RoundedToCents(Drawn(u)))
    ensures ParseFloat(ToFixed2(Drawn(u))) == Some(RoundedToCents(Drawn(u)))
  {
    var x := Drawn(u);
    var c, p := SampleCents(u), RoundedToCents(x);
    assert x >= 0.0 && c == Hundredths(x);
    RoundedCents(x, c, p);
    assert 300.0 <= c as real <= 500.0;
  }

  /** Rounding a non-negative `x` to `c` cents gives `c / 100`, which `Number(x.toFixed(2))` reads back. */
  lemma {:induction false} RoundedCents(x: real, c: nat, p: real)
    requires x >= 0.0 && c == Hundredths(x) && p == RoundedToCents(x)
    ensures p == c as real / 100.0 && WholeCents(p) && ParseFloat(ToFixed2(x)) == Some(p)
  {
    ToFixed2NonNegative(x);
    ParseToFixed2(x);
    WholeCentsOf(c, p);
  }

  lemma {:induction false} WholeCentsOf(c: nat, p: real)
    requires p == c as real / 100.0
    ensures WholeCents(p)
  {
    assert p * 100.0 == c as real;
    assert (p * 100.0).Floor == c;
  }

  /** Block numbers are written as decimal digits, which need no escaping. */
  lemma {:induction false} BlockTextPlain(number: nat)
    ensures Plain(NatText(number))
  {
    var t := NatText(number);
    forall k | 0 <= k < |t| ensures PlainChar(t[k]) {
      assert IsDigit(t[k]);
    }
  }

  /** The simulated price: `Number(price.toFixed(2))` for the random draw `u`. */
  function SampledPrice(u: real): (p: real)
    requires 0.0 <= u < 1.0
    ensures p == SampleCents(u) as real / 100.0
    ensures MinPrice <= p <= MaxPrice && WholeCents(p)
    ensures ParseFloat(ToFixed2(Drawn(u))) == Some(p)
  {
    SamplePrice(u);
    RoundedToCents(Drawn(u))
  }

  /**
   * The record logged for block `number` at time `timestamp` with random draw
   * `u`: the block number as decimal text and the simulated price.
   */
  function MakeRecord(timestamp: string, number: nat, u: real): (r: Record)
    requires 0.0 <= u < 1.0
    ensures r.timestamp == timestamp && r.block == NatText(number)
    ensures DigitsValue(r.block) == number && AllDigits(r.block)
    ensures MinPrice <= r.price <= MaxPrice
    ensures r.price == SampleCents(u) as real / 100.0
    ensures ParseFloat(ToFixed2(Drawn(u))) == Some(r.price)
    ensures Plain(timestamp) ==> Storable(r)
  {
    NatTextValue(number);
    BlockTextPlain(number);
    Record(timestamp, NatText(number), SampledPrice(u))
  }

  /** The text of a file holding `lines`, each followed by a newline. */
  function LogText(lines: seq<string>): (t: string)
    ensures |lines| > 0 ==> |t| > 0 && t[|t| - 1] == '\n'
  {
    if |lines| == 0 then ""
    else LogText(lines[..|lines| - 1]) + lines[|lines| - 1] + "\n"
  }

  /** The serialised records, one per line. */
  function Serialized(rs: seq<Record>): (lines: seq<string>)
    requires forall i :: 0 <= i < |rs| ==> Storable(rs[i])
    ensures |lines| == |rs|
    ensures forall i :: 0 <= i < |rs| ==> lines[i] == Serialize(rs[i])
  {
    seq(|rs|, i requires 0 <= i < |rs| => Serialize(rs[i]))
  }

  /** Appending one line to the log adds that line and its newline at the end. */
  lemma {:induction false} LogTextSnoc(ls: seq<string>, m: string)
    ensures LogText(ls + [m]) == LogText(ls) + m + "\n"
  {
    assert (ls + [m])[..|ls|] == ls;
  }

  /** The log is append-only: writing two batches of lines gives their texts one after the other. */
  lemma {:induction false} LogTextAppend(ls: seq<string>, ms: seq<string>)
    ensures LogText(ls + ms) == LogText(ls) + LogText(ms)
  {
    if |ms| == 0 {
      assert ls + ms == ls;
    } else {
      var ms', m := ms[..|ms| - 1], ms[|ms| - 1];
      assert ms == ms' + [m];
      assert ls + ms == (ls + ms') + [m];
      LogTextAppend(ls, ms');
      LogTextSnoc(ls + ms', m);
      LogTextSnoc(ms', m);
      var a, b := LogText(ls), LogText(ms');
      assert LogText(ls + ms) == a + b + m + "\n";
      assert LogText(ms) == b + m + "\n";
      ConcatRegroup(a, b, m, "\n");
    }
  }

  lemma {:induction false} ConcatRegroup(a: string, b: string, c: string, d: string)
    ensures a + b + c + d == a + (b + c + d)
  {
  }

  lemma {:induction false} JoinSnoc(parts: seq<string>, p: string, sep: char)
    requires |parts| >= 1
    ensures Join(parts + [p], sep) == Join(parts, sep) + [sep] + p
  {
    if |parts| == 1 {
      assert (parts + [p])[1..] == [p];
    } else {
      JoinSnoc(parts[1..], p, sep);
      assert (parts + [p])[1..] == parts[1..] + [p];
    }
  }

  /** A non-empty log is its lines joined by newlines, with a final newline. */
  lemma {:induction false} LogTextJoined(lines: seq<string>)
    requires |lines| >= 1
    ensures LogText(lines) == Join(lines, '\n') + "\n"
  {
    var front := lines[..|lines| - 1];
    var last := lines[|lines| - 1];
    if |lines| == 1 {
      assert LogText(front) == "";
    } else {
      LogTextJoined(front);
      assert lines == front + [last];
      JoinSnoc(front, last, '\n');
    }
  }

  /** `text` is the log of `records`, all of them storable. */
  ghost predicate LogOf(text: string, records: seq<Record>) {
    (forall i :: 0 <= i < |records| ==> Storable(records[i])) && text == LogText(Serialized(records))
  }

  /** Appending a record to the log adds its line at the end. */
  lemma {:induction false} LogOfSnoc(text: string, rs: seq<Record>, r: Record)
    requires LogOf(text, rs) && Storable(r)
    ensures LogOf(text + Serialize(r) + "\n", rs + [r])
  {
    var rs' := rs + [r];
    forall i | 0 <= i < |rs'| ensures Storable(rs'[i]) {
      if i < |rs| {
        assert rs'[i] == rs[i];
      }
    }
    SerializedSnoc(rs, r);
    LogTextSnoc(Serialized(rs), Serialize(r));
  }

  lemma {:induction false} SerializedSnoc(rs: seq<Record>, r: Record)
    requires forall i :: 0 <= i < |rs + [r]| ==> Storable((rs + [r])[i])
    ensures forall i :: 0 <= i < |rs| ==> Storable(rs[i])
    ensures Storable(r)
    ensures Serialized(rs + [r]) == Serialized(rs) + [Serialize(r)]
  {
    assert forall i :: 0 <= i < |rs| ==> rs[i] == (rs + [r])[i];
    assert r == (rs + [r])[|rs|];
    var ls, ms := Serialized(rs + [r]), Serialized(rs) + [Serialize(r)];
    assert |ls| == |ms|;
    forall i | 0 <= i < |ls| ensures ls[i] == ms[i] {
      if i < |rs| {
        assert ls[i] == Serialize(rs[i]);
      }
    }
  }

  /** The observation log file `coffee-data.json`, as its text. */
  class CoffeeLog {
    var text: string
    ghost var records: seq<Record>

    /** The text is exactly the appended records, one JSON line each. */
    ghost predicate Valid()
      reads this
    {
      LogOf(text, records)
    }

    constructor ()
      ensures Valid() && records == [] && text == ""
    {
      text := "";
      records := [];
    }

    /** `fs.appendFileSync(file, JSON.stringify(r) + '\n')`. */
    method Append(r: Record)
      requires Valid() && Storable(r)
      modifies this
      ensures Valid()
      ensures records == old(records) + [r]
      ensures text == old(text) + Serialize(r) + "\n"
    {
      LogOfSnoc(text, records, r);
      text := text + Serialize(r) + "\n";
      records := records + [r];
    }

    /**
     * The header callback: block `number` arrives at time `timestamp`, with
     * `u` the value `Math.random()` returns; one record becomes the new last line.
     */
    method OnHeader(number: nat, timestamp: string, u: real)
      requires Valid() && Plain(timestamp) && 0.0 <= u < 1.0
      modifies this
      ensures Valid()
      ensures records == old(records) + [MakeRecord(timestamp, number, u)]
      ensures text == old(text) + Serialize(MakeRecord(timestamp, number, u)) + "\n"
    {
      var record := MakeRecord(timestamp, number, u);
      Append(record);
    }
  }
}

/**
 * The observation record the block listener logs, and the JSON text it is
 * stored as: `JSON.stringify` of `{timestamp, block, price}` on the writing
 * side and `JSON.parse` of one such line on the reading side.
 */
module CoffeeRecord {
  import opened Common
  import opened JsText

  /** One logged observation: ISO timestamp, block number as text, price in dollars. */
  datatype Record = Record(timestamp: string, block: string, price: real)

  // ---------------------------------------------------------------------
  // What the writer produces
  // ---------------------------------------------------------------------

  /** A character `JSON.stringify` copies into a string literal without escaping. */
  predicate PlainChar(c: char) {
    c != '"' && c != '\\' && c >= ' '
  }

  predicate Plain(s: string) {
    forall k :: 0 <= k < |s| ==> PlainChar(s[k])
  }

  /** A non-negative amount that is a whole number of cents, as `Number(x.toFixed(2))` gives for x >= 0. */
  predicate WholeCents(x: real) {
    x >= 0.0 && (x * 100.0).Floor as real == x * 100.0
  }

  /** The records the writer can produce: text fields needing no escapes, a whole-cent price. */
  predicate Storable(r: Record) {
    Plain(r.timestamp) && Plain(r.block) && WholeCents(r.price)
  }

  function Cents(x: real): (c: nat)
    requires WholeCents(x)
    ensures c as real / 100.0 == x
  {
    (x * 100.0).Floor
  }

  // ---------------------------------------------------------------------
  // JSON.stringify
  // ---------------------------------------------------------------------

  /**
   * The JSON number text of `c / 100`: the integer part, then the fraction
   * with its trailing zeros dropped (no fraction at all for a whole amount).
   */
  function NumberText(c: nat): (r: string)
    ensures |r| >= 1 && IsDigit(r[0])
    ensures forall k :: 0 <= k < |r| ==> IsDigit(r[k]) || r[k] == '.'
  {
    var q, m := c / 100, c % 100;
    if m == 0 then NatText(q)
    else if m % 10 == 0 then NatText(q) + "." + [Digit(m / 10)]
    else NatText(q) + "." + [Digit(m / 10), Digit(m % 10)]
  }

  /** A JSON string literal of plain text. */
  function Quote(s: string): string {
    "\"" + s + "\""
  }

  /** The object text with the given field texts, as `JSON.stringify` lays it out. */
  function ObjectText(ts: string, b: string, n: string): string {
    "{\"timestamp\":" + (Quote(ts) + (",\"block\":" + (Quote(b) + (",\"price\":" + (n + "}")))))
  }

  /** `JSON.stringify(record)`: keys in insertion order, no white space. */
  function Serialize(r: Record): (t: string)
    requires Storable(r)
    ensures |t| >= 2 && t[0] == '{' && t[|t| - 1] == '}'
    ensures '\n' !in t
  {
    var n := NumberText(Cents(r.price));
    ObjectTextShape(r.timestamp, r.block, n);
    ObjectText(r.timestamp, r.block, n)
  }

  lemma {:induction false} NoNewline(s: string)
    requires Plain(s) || forall k :: 0 <= k < |s| ==> IsDigit(s[k]) || s[k] == '.'
    ensures '\n' !in s
  {
    forall k | 0 <= k < |s|
      ensures s[k] != '\n'
    {
    }
  }

  /** An object line is braced and, with plain strings and a number, fits on one line. */
  lemma {:induction false} ObjectTextShape(ts: string, b: string, n: string)
    requires Plain(ts) && Plain(b)
    requires forall k :: 0 <= k < |n| ==> IsDigit(n[k]) || n[k] == '.'
    ensures var t := ObjectText(ts, b, n); |t| >= 2 && t[0] == '{' && t[|t| - 1] == '}' && '\n' !in t
  {
    NoNewline(ts);
    NoNewline(b);
    NoNewline(n);
    var t := ObjectText(ts, b, n);
    var tail := ",\"price\":" + (n + "}");
    assert t == "{\"timestamp\":" + (Quote(ts) + (",\"block\":" + (Quote(b) + tail)));
    assert t[|t| - 1] == tail[|tail| - 1] == '}';
  }

  // ---------------------------------------------------------------------
  // JSON.parse
  // ---------------------------------------------------------------------

  /** The text after the literal `lit`, when `s` starts with it. */
  function Expect(s: string, lit: string): (r: Option<string>)
    ensures r.Some? <==> |lit| <= |s| && s[..|lit|] == lit
    ensures r.Some? ==> s == lit + r.value
  {
    if |lit| <= |s| && s[..|lit|] == lit then
      assert s == lit + s[|lit|..];
      Some(s[|lit|..])
    else None
  }

  /** The length of the longest prefix of `s` made of plain characters. */
  function PlainCount(s: string): (n: nat)
    ensures n <= |s| && Plain(s[..n])
    ensures n < |s| ==> !PlainChar(s[n])
  {
    if |s| > 0 && PlainChar(s[0]) then
      var n := 1 + PlainCount(s[1..]);
      assert s[..n] == [s[0]] + s[1..][..n - 1];
      n
    else 0
  }

  /**
   * A string literal at the front of `s`: its contents and the text after
   * the closing quote. Literals with escape sequences are not read.
   */
  function ReadString(s: string): (r: Option<(string, string)>)
    ensures r.Some? ==> Plain(r.value.0) && s == Quote(r.value.0) + r.value.1
  {
    if |s| > 0 && s[0] == '"' then
      var body := s[1..];
      var n := PlainCount(body);
      if n < |body| && body[n] == '"' then
        assert s == Quote(body[..n]) + body[n + 1..];
        Some((body[..n], body[n + 1..]))
      else None
    else None
  }

  /**
   * An unsigned JSON number with no exponent, occupying all of `u`: digits
   * without a leading zero, then optionally `.` and at least one digit.
   */
  function ReadUnsignedNumber(u: string): (r: Option<real>)
    ensures r.Some? ==> r.value >= 0.0
  {
    var ip := u[..DigitCount(u)];
    var rest := u[|ip|..];
    if |ip| == 0 || (|ip| > 1 && ip[0] == '0') then None
    else if |rest| == 0 then Some(DigitsValue(ip) as real)
    else if |rest| >= 2 && rest[0] == '.' && DigitCount(rest[1..]) == |rest| - 1 then
      Some(DecimalValue(ip, rest[1..]))
    else None
  }

  /** A JSON number (without exponent) occupying all of `t`. */
  function ReadNumber(t: string): Option<real> {
    if |t| > 0 && t[0] == '-' then
      match ReadUnsignedNumber(t[1..])
      case None => None
      case Some(v) => Some(-v)
    else ReadUnsignedNumber(t)
  }

  /** The closing `}` and the price number before it. */
  function ParsePrice(s: string): Option<real> {
    if |s| > 0 && s[|s| - 1] == '}' then ReadNumber(s[..|s| - 1]) else None
  }

  /** The fields after the block string: `,"price":` and the price. */
  function ParseAfterBlock(ts: string, b: string, s: string): Option<Record> {
    match Expect(s, ",\"price\":")
    case None => None
    case Some(s') =>
      match ParsePrice(s')
      case None => None
      case Some(p) => Some(Record(ts, b, p))
  }

  /** The fields after the timestamp string: `,"block":`, the block string and the rest. */
  function ParseAfterTimestamp(ts: string, s: string): Option<Record> {
    match Expect(s, ",\"block\":")
    case None => None
    case Some(s') =>
      match ReadString(s')
      case None => None
      case Some((b, rest)) => ParseAfterBlock(ts, b, rest)
  }

  /**
   * `JSON.parse(line)` for a line holding an object with the keys
   * `timestamp`, `block` (strings) and `price` (a number), in that order and
   * without white space; `None` stands for the exception `JSON.parse` throws.
   */
  function Parse(line: string): Option<Record> {
    match Expect(line, "{\"timestamp\":")
    case None => None
    case Some(s) =>
      match ReadString(s)
      case None => None
      case Some((ts, rest)) => ParseAfterTimestamp(ts, rest)
  }

  // ---------------------------------------------------------------------
  // The round trip
  // ---------------------------------------------------------------------

  lemma {:induction false} ExpectLiteral(lit: string, rest: string)
    ensures Expect(lit + rest, lit) == Some(rest)
  {
    assert (lit + rest)[..|lit|] == lit;
  }

  lemma {:induction false} ReadQuoted(s: string, rest: string)
    requires Plain(s)
    ensures ReadString(Quote(s) + rest) == Some((s, rest))
  {
    var t := Quote(s) + rest;
    var body := t[1..];
    assert body == s + ("\"" + rest);
    PlainCountOf(s, "\"" + rest);
    assert body[..|s|] == s;
    assert body[|s| + 1..] == rest;
  }

  lemma {:induction false} PlainCountOf(s: string, rest: string)
    requires Plain(s)
    requires rest == [] || !PlainChar(rest[0])
    ensures PlainCount(s + rest) == |s|
  {
    if |s| > 0 {
      PlainCountOf(s[1..], rest);
      assert (s + rest)[1..] == s[1..] + rest;
    }
  }

  /** A numeral `ip.fd` is read in full. */
  lemma {:induction false} ReadPointedNumber(ip: string, fd: string)
    requires |ip| > 0 && AllDigits(ip) && !(|ip| > 1 && ip[0] == '0')
    requires |fd| > 0 && AllDigits(fd)
    ensures ReadUnsignedNumber(ip + "." + fd) == Some(DecimalValue(ip, fd))
  {
    var tail := "." + fd;
    var u := ip + tail;
    assert u == ip + "." + fd;
    DigitCountOf(ip, tail);
    assert u[..|ip|] == ip;
    assert u[|ip|..] == tail;
    DigitCountOf(fd, "");
    assert fd + "" == fd;
    assert tail[1..] == fd;
  }

  lemma {:induction false} ReadWholeNumber(q: nat)
    ensures ReadUnsignedNumber(NatText(q)) == Some(q as real)
  {
    var ip := NatText(q);
    DigitCountOf(ip, "");
    assert ip + "" == ip;
    assert ip[..|ip|] == ip;
    NatTextValue(q);
  }

  lemma {:induction false} DigitsValueOne(a: nat)
    requires a < 10
    ensures DigitsValue([Digit(a)]) == a
  {
    assert [Digit(a)][..0] == [];
  }

  lemma {:induction false} ReadNumberTextWhole(c: nat)
    requires c % 100 == 0
    ensures ReadNumber(NumberText(c)) == Some(c as real / 100.0)
  {
    CentsSplit(c);
    ReadWholeNumber(c / 100);
  }

  lemma {:induction false} ReadNumberTextTenths(c: nat)
    requires c % 100 != 0 && c % 100 % 10 == 0
    ensures ReadNumber(NumberText(c)) == Some(c as real / 100.0)
  {
    var q, m := c / 100, c % 100;
    var ip, fd := NatText(q), [Digit(m / 10)];
    assert NumberText(c) == ip + "." + fd;
    ReadPointedNumber(ip, fd);
    NatTextValue(q);
    DigitsValueOne(m / 10);
    assert Pow10(1) == 10;
    assert DecimalValue(ip, fd) == q as real + (m / 10) as real / 10.0;
    assert (m / 10) as real / 10.0 == m as real / 100.0;
    CentsSplit(c);
  }

  lemma {:induction false} ReadNumberTextHundredths(c: nat)
    requires c % 100 % 10 != 0
    ensures ReadNumber(NumberText(c)) == Some(c as real / 100.0)
  {
    var q, m := c / 100, c % 100;
    var ip, fd := NatText(q), [Digit(m / 10), Digit(m % 10)];
    assert NumberText(c) == ip + "." + fd;
    ReadPointedNumber(ip, fd);
    DecimalCents(q, m / 10, m % 10);
    assert 10 * (m / 10) + m % 10 == m;
    CentsSplit(c);
  }

  /** Reading back the number text of `c / 100` gives `c / 100`. */
  lemma {:induction false} ReadNumberText(c: nat)
    ensures ReadNumber(NumberText(c)) == Some(c as real / 100.0)
  {
    if c % 100 == 0 {
      ReadNumberTextWhole(c);
    } else if c % 100 % 10 == 0 {
      ReadNumberTextTenths(c);
    } else {
      ReadNumberTextHundredths(c);
    }
  }

  lemma {:induction false} ParsePriceText(n: string, p: real)
    requires ReadNumber(n) == Some(p)
    ensures ParsePrice(n + "}") == Some(p)
  {
    assert (n + "}")[..|n|] == n;
  }

  lemma {:induction false} ParseAfterBlockText(ts: string, b: string, n: string, p: real)
    requires ReadNumber(n) == Some(p)
    ensures ParseAfterBlock(ts, b, ",\"price\":" + (n + "}")) == Some(Record(ts, b, p))
  {
    ExpectLiteral(",\"price\":", n + "}");
    ParsePriceText(n, p);
  }

  lemma {:induction false} ParseAfterTimestampText(ts: string, b: string, n: string, p: real)
    requires Plain(b) && ReadNumber(n) == Some(p)
    ensures ParseAfterTimestamp(ts, ",\"block\":" + (Quote(b) + (",\"price\":" + (n + "}"))))
      == Some(Record(ts, b, p))
  {
    var s4 := ",\"price\":" + (n + "}");
    ExpectLiteral(",\"block\":", Quote(b) + s4);
    ReadQuoted(b, s4);
    ParseAfterBlockText(ts, b, n, p);
  }

  /** An object line with plain strings and a readable number parses to its fields. */
  lemma {:induction false} ParseObjectText(ts: string, b: string, n: string, p: real)
    requires Plain(ts) && Plain(b) && ReadNumber(n) == Some(p)
    ensures Parse(ObjectText(ts, b, n)) == Some(Record(ts, b, p))
  {
    var s2 := ",\"block\":" + (Quote(b) + (",\"price\":" + (n + "}")));
    var s1 := Quote(ts) + s2;
    ExpectLiteral("{\"timestamp\":", s1);
    ReadQuoted(ts, s2);
    ParseAfterTimestampText(ts, b, n, p);
  }

  /** `JSON.parse(JSON.stringify(r))` gives back `r`. */
  lemma {:induction false} ParseSerialize(r: Record)
    requires Storable(r)
    ensures Parse(Serialize(r)) == Some(r)
  {
    var c := Cents(r.price);
    var n := NumberText(c);
    assert Serialize(r) == ObjectText(r.timestamp, r.block, n);
    ReadNumberText(c);
    ParseObjectText(r.timestamp, r.block, n, c as real / 100.0);
    assert Record(r.timestamp, r.block, c as real / 100.0) == r;
  }
}

/**
 * The JavaScript string and number built-ins the price API relies on, stated
 * over `string` (= seq<char>) and exact `real` numbers:
 * `String.prototype.trim`, `String.prototype.split` on one character,
 * `Number.prototype.toString` for non-negative integers,
 * `Number.prototype.toFixed(2)` and `parseFloat` restricted to plain
 * decimal prefixes (no exponent part, no `Infinity`).
 */
module JsText {
  import opened Common

  // ---------------------------------------------------------------------
  // trim()
  // ---------------------------------------------------------------------

  /** ECMAScript WhiteSpace and LineTerminator code points: what `trim` strips. */
  predicate IsJsSpace(c: char) {
    c == '\t' || c == '\n' || c == '\U{000B}' || c == '\U{000C}' || c == '\r' || c == ' ' ||
    c == '\U{00A0}' || c == '\U{1680}' || ('\U{2000}' <= c <= '\U{200A}') ||
    c == '\U{2028}' || c == '\U{2029}' || c == '\U{202F}' || c == '\U{205F}' ||
    c == '\U{3000}' || c == '\U{FEFF}'
  }

  /** Removes leading white space: the result is the longest suffix that does not start with a space. */
  function TrimStart(s: string): (r: string)
    ensures |r| <= |s| && r == s[|s| - |r|..]
    ensures forall k :: 0 <= k < |s| - |r| ==> IsJsSpace(s[k])
    ensures r == [] || !IsJsSpace(r[0])
  {
    if |s| > 0 && IsJsSpace(s[0]) then TrimStart(s[1..]) else s
  }

  /** Removes trailing white space: the result is the longest prefix that does not end with a space. */
  function TrimEnd(s: string): (r: string)
    ensures |r| <= |s| && r == s[..|r|]
    ensures forall k :: |r| <= k < |s| ==> IsJsSpace(s[k])
    ensures r == [] || !IsJsSpace(r[|r| - 1])
  {
    if |s| > 0 && IsJsSpace(s[|s| - 1]) then TrimEnd(s[..|s| - 1]) else s
  }

  /** `r` is `s` with the white space before index `i` and after `r` removed. */
  predicate TrimmedAt(s: string, r: string, i: nat) {
    i + |r| <= |s| && r == s[i..i + |r|]
    && (forall k :: 0 <= k < i ==> IsJsSpace(s[k]))
    && (forall k :: i + |r| <= k < |s| ==> IsJsSpace(s[k]))
  }

  /** `s.trim()`: white space removed at both ends, nothing removed inside. */
  function Trim(s: string): (r: string)
    ensures exists i: nat :: TrimmedAt(s, r, i)
    ensures r == [] || (!IsJsSpace(r[0]) && !IsJsSpace(r[|r| - 1]))
  {
    var t := TrimStart(s);
    var r := TrimEnd(t);
    var i := |s| - |t|;
    assert TrimmedAt(s, r, i);
    r
  }

  /** Trimming a line of text followed by its newline leaves just the line. */
  lemma {:induction false} TrimLine(b: string)
    requires |b| > 0 && !IsJsSpace(b[0]) && !IsJsSpace(b[|b| - 1])
    ensures Trim(b + "\n") == b
  {
    var s := b + "\n";
    assert TrimStart(s) == s;
    assert s[..|s| - 1] == b;
    assert TrimEnd(s) == TrimEnd(b);
  }

  // ---------------------------------------------------------------------
  // split(sep) and its inverse join(sep)
  // ---------------------------------------------------------------------

  /** `parts.join(sep)`. */
  function Join(parts: seq<string>, sep: char): string {
    if |parts| == 0 then ""
    else if |parts| == 1 then parts[0]
    else parts[0] + [sep] + Join(parts[1..], sep)
  }

  /**
   * `s.split(sep)` for a one-character separator: the pieces between
   * separators, in order; an empty string gives one empty piece.
   */
  function Split(s: string, sep: char): (r: seq<string>)
    ensures |r| >= 1
    ensures forall k :: 0 <= k < |r| ==> sep !in r[k]
    ensures Join(r, sep) == s
  {
    if |s| == 0 then [""]
    else
      var rest := Split(s[1..], sep);
      if s[0] == sep then
        [""] + rest
      else
        assert Join([[s[0]] + rest[0]] + rest[1..], sep) == [s[0]] + Join(rest, sep) by {
          if |rest| > 1 {
            assert ([[s[0]] + rest[0]] + rest[1..])[1..] == rest[1..];
          }
        }
        [[s[0]] + rest[0]] + rest[1..]
  }

  lemma {:induction false} SplitNoSep(x: string, sep: char)
    requires sep !in x
    ensures Split(x, sep) == [x]
  {
    if |x| > 0 {
      SplitNoSep(x[1..], sep);
      assert [x[0]] + x[1..] == x;
    }
  }

  lemma {:induction false} SplitAtSep(x: string, y: string, sep: char)
    requires sep !in x
    ensures Split(x + [sep] + y, sep) == [x] + Split(y, sep)
  {
    if |x| == 0 {
      assert x + [sep] + y == [sep] + y;
      assert ([sep] + y)[1..] == y;
    } else {
      SplitAtSep(x[1..], y, sep);
      assert (x + [sep] + y)[1..] == x[1..] + [sep] + y;
      assert [x[0]] + x[1..] == x;
    }
  }

  /** Splitting undoes joining when no piece contains the separator. */
  lemma {:induction false} SplitJoin(parts: seq<string>, sep: char)
    requires |parts| >= 1
    requires forall k :: 0 <= k < |parts| ==> sep !in parts[k]
    ensures Split(Join(parts, sep), sep) == parts
  {
    if |parts| == 1 {
      SplitNoSep(parts[0], sep);
    } else {
      SplitJoin(parts[1..], sep);
      SplitAtSep(parts[0], Join(parts[1..], sep), sep);
      assert [parts[0]] + parts[1..] == parts;
    }
  }

  // ---------------------------------------------------------------------
  // Decimal digits and Number.prototype.toString for integers
  // ---------------------------------------------------------------------

  predicate IsDigit(c: char) { '0' <= c <= '9' }

  predicate AllDigits(s: string) { forall k :: 0 <= k < |s| ==> IsDigit(s[k]) }

  function Digit(d: nat): (c: char)
    requires d < 10
    ensures IsDigit(c)
  {
    ('0' as int + d) as char
  }

  /** The value of a digit character (0 for any other character). */
  function DigitValue(c: char): (d: nat)
    ensures d < 10
    ensures IsDigit(c) ==> Digit(d) == c
  {
    if IsDigit(c) then (c as int - '0' as int) as nat else 0
  }

  /** The number a string of decimal digits denotes. */
  function DigitsValue(s: string): nat {
    if |s| == 0 then 0 else 10 * DigitsValue(s[..|s| - 1]) + DigitValue(s[|s| - 1])
  }

  function Pow10(k: nat): (p: nat)
    ensures p >= 1
  {
    if k == 0 then 1 else 10 * Pow10(k - 1)
  }

  /** `n.toString()` for a non-negative integer: decimal digits without leading zeros. */
  function NatText(n: nat): (r: string)
    ensures |r| >= 1 && AllDigits(r)
    ensures r[0] == '0' ==> n == 0 && |r| == 1
  {
    if n < 10 then [Digit(n)] else NatText(n / 10) + [Digit(n % 10)]
  }

  /** Reading the digits back gives the number again. */
  lemma {:induction false} NatTextValue(n: nat)
    ensures DigitsValue(NatText(n)) == n
  {
    if n >= 10 {
      NatTextValue(n / 10);
      var r := NatText(n);
      assert r[..|r| - 1] == NatText(n / 10);
    }
  }

  /** The length of the longest prefix of `s` made of digits. */
  function DigitCount(s: string): (n: nat)
    ensures n <= |s|
  {
    if |s| > 0 && IsDigit(s[0]) then 1 + DigitCount(s[1..]) else 0
  }

  lemma {:induction false} DigitCountOf(d: string, s: string)
    requires AllDigits(d)
    requires s == [] || !IsDigit(s[0])
    ensures DigitCount(d + s) == |d|
  {
    if |d| > 0 {
      DigitCountOf(d[1..], s);
      assert (d + s)[1..] == d[1..] + s;
    }
  }

  // ---------------------------------------------------------------------
  // Number.prototype.toFixed(2)
  // ---------------------------------------------------------------------

  /**
   * The integer number of hundredths `toFixed(2)` picks for a non-negative
   * value: the one nearest to `100 * x`, the larger one on a tie.
   */
  function Hundredths(x: real): (n: nat)
    requires x >= 0.0
    ensures x * 100.0 - 0.5 < n as real <= x * 100.0 + 0.5
  {
    (x * 100.0 + 0.5).Floor
  }

  /** A count of hundredths written as `<integer part>.<two digits>`. */
  function CentsText(c: nat): (r: string)
    ensures |r| >= 4 && r[|r| - 3] == '.'
    ensures AllDigits(r[..|r| - 3]) && IsDigit(r[|r| - 2]) && IsDigit(r[|r| - 1])
  {
    var m := c % 100;
    NatText(c / 100) + "." + [Digit(m / 10), Digit(m % 10)]
  }

  /** The value `toFixed(2)` rounds `x` to, as an exact number. */
  function RoundedToCents(x: real): real {
    if x < 0.0 then -(Hundredths(-x) as real / 100.0) else Hundredths(x) as real / 100.0
  }

  /**
   * `x.toFixed(2)` for a finite `x` below 1e21 in magnitude: a minus sign for a
   * negative value, then the rounded magnitude with exactly two decimals.
   */
  function ToFixed2(x: real): string {
    if x < 0.0 then "-" + CentsText(Hundredths(-x)) else CentsText(Hundredths(x))
  }

  /** Text of the shape `[-]digits.dd`. */
  predicate TwoDecimals(s: string) {
    var body := if |s| > 0 && s[0] == '-' then s[1..] else s;
    |body| >= 4 && body[|body| - 3] == '.' && AllDigits(body[..|body| - 3])
    && IsDigit(body[|body| - 2]) && IsDigit(body[|body| - 1])
  }

  /** A value that is already a whole number of cents is printed exactly. */
  lemma {:induction false} CentsToFixed2(c: nat)
    ensures ToFixed2(c as real / 100.0) == CentsText(c)
  {
    var x := c as real / 100.0;
    assert x * 100.0 == c as real;
    assert Hundredths(x) == c;
  }

  // ---------------------------------------------------------------------
  // parseFloat
  // ---------------------------------------------------------------------

  /**
   * The unsigned decimal numerals parseFloat reads: the longest prefix of the
   * form `digits[.digits]` with at least one digit; `None` when there is none.
   * Exponent parts and `Infinity`, which parseFloat also accepts, are not read.
   */
  function ReadUnsigned(body: string): Option<real> {
    var ip := body[..DigitCount(body)];
    var rest := body[|ip|..];
    var fp := if |rest| > 0 && rest[0] == '.' then rest[1..][..DigitCount(rest[1..])] else "";
    if |ip| + |fp| == 0 then None else Some(DecimalValue(ip, fp))
  }

  /** The value of the decimal numeral `ip.fp`. */
  function DecimalValue(ip: string, fp: string): (v: real)
    ensures v >= 0.0
  {
    DigitsValue(ip) as real + DigitsValue(fp) as real / Pow10(|fp|) as real
  }

  /** An optional sign followed by the unsigned part; `None` stands for NaN. */
  function ReadSigned(t: string): Option<real> {
    if |t| > 0 && t[0] == '-' then
      match ReadUnsigned(t[1..])
      case None => None
      case Some(v) => Some(-v)
    else if |t| > 0 && t[0] == '+' then ReadUnsigned(t[1..])
    else ReadUnsigned(t)
  }

  /**
   * `parseFloat(s)` for texts without exponent or `Infinity`: leading white
   * space is skipped, then a signed decimal prefix is read.
   */
  function ParseFloat(s: string): Option<real> {
    ReadSigned(TrimStart(s))
  }

  lemma {:induction false} DigitsValueTwo(a: nat, b: nat)
    requires a < 10 && b < 10
    ensures DigitsValue([Digit(a), Digit(b)]) == 10 * a + b
  {
    var fd := [Digit(a), Digit(b)];
    assert DigitValue(Digit(a)) == a && DigitValue(Digit(b)) == b;
    assert fd[..1] == [Digit(a)];
    assert [Digit(a)][..0] == [];
    assert DigitsValue([Digit(a)]) == a;
    assert DigitsValue(fd) == 10 * DigitsValue(fd[..1]) + DigitValue(fd[1]);
  }

  /** A numeral `ip.fd` is read in full. */
  lemma {:induction false} ReadPointed(ip: string, fd: string)
    requires |ip| > 0 && AllDigits(ip) && AllDigits(fd)
    ensures ReadUnsigned(ip + "." + fd) == Some(DecimalValue(ip, fd))
  {
    var tail := "." + fd;
    var body := ip + tail;
    assert body == ip + "." + fd;
    DigitCountOf(ip, tail);
    assert body[..|ip|] == ip;
    assert body[|ip|..] == tail;
    DigitCountOf(fd, "");
    assert fd + "" == fd;
    assert tail[1..] == fd;
    assert fd[..|fd|] == fd;
  }

  lemma {:induction false} CentsSplit(c: nat)
    ensures (c / 100) as real + (c % 100) as real / 100.0 == c as real / 100.0
  {
    var q, m := c / 100, c % 100;
    assert c == q * 100 + m;
    assert c as real == q as real * 100.0 + m as real;
  }

  lemma {:induction false} DecimalCents(q: nat, a: nat, b: nat)
    requires a < 10 && b < 10
    ensures DecimalValue(NatText(q), [Digit(a), Digit(b)]) == q as real + (10 * a + b) as real / 100.0
  {
    NatTextValue(q);
    DigitsValueTwo(a, b);
    assert Pow10(2) == 100 by {
      assert Pow10(1) == 10;
    }
  }

  /** parseFloat reads back exactly the value a two-decimal text was written for. */
  lemma {:induction false} ReadCentsText(c: nat)
    ensures ReadUnsigned(CentsText(c)) == Some(c as real / 100.0)
  {
    var q, m := c / 100, c % 100;
    var ip, fd := NatText(q), [Digit(m / 10), Digit(m % 10)];
    assert CentsText(c) == ip + "." + fd;
    ReadPointed(ip, fd);
    DecimalCents(q, m / 10, m % 10);
    assert 10 * (m / 10) + m % 10 == m;
    CentsSplit(c);
  }

  lemma {:induction false} CentsTextLeadingDigit(c: nat)
    ensures IsDigit(CentsText(c)[0])
  {
    var u := CentsText(c);
    assert u[..|u| - 3][0] == u[0];
  }

  lemma {:induction false} ToFixed2Negative(x: real)
    requires x < 0.0
    ensures ToFixed2(x) == "-" + CentsText(Hundredths(-x))
    ensures RoundedToCents(x) == -(Hundredths(-x) as real / 100.0)
  {
  }

  lemma {:induction false} ToFixed2NonNegative(x: real)
    requires x >= 0.0
    ensures ToFixed2(x) == CentsText(Hundredths(x))
    ensures RoundedToCents(x) == Hundredths(x) as real / 100.0
  {
  }

  /** `toFixed(2)` always writes exactly two decimals, signed as `x` is. */
  lemma {:induction false} ToFixed2Shape(x: real)
    ensures TwoDecimals(ToFixed2(x))
    ensures ToFixed2(x)[0] == '-' <==> x < 0.0
  {
    if x < 0.0 {
      ToFixed2Negative(x);
      var s := ToFixed2(x);
      assert s[1..] == CentsText(Hundredths(-x));
    } else {
      ToFixed2NonNegative(x);
      CentsTextLeadingDigit(Hundredths(x));
    }
  }

  /** The text `toFixed(2)` writes has no white space in front to skip. */
  lemma {:induction false} TrimStartToFixed2(x: real)
    ensures TrimStart(ToFixed2(x)) == ToFixed2(x)
  {
    var s := ToFixed2(x);
    if x < 0.0 {
      ToFixed2Negative(x);
      assert s[0] == '-';
    } else {
      ToFixed2NonNegative(x);
      CentsTextLeadingDigit(Hundredths(x));
      assert IsDigit(s[0]);
    }
    assert !IsJsSpace(s[0]);
  }

  lemma {:induction false} ReadSignedNegative(x: real)
    requires x < 0.0
    ensures ReadSigned(ToFixed2(x)) == Some(RoundedToCents(x))
  {
    ToFixed2Negative(x);
    var s := ToFixed2(x);
    ReadCentsText(Hundredths(-x));
    assert s[1..] == CentsText(Hundredths(-x));
  }

  lemma {:induction false} ReadSignedNonNegative(x: real)
    requires x >= 0.0
    ensures ReadSigned(ToFixed2(x)) == Some(RoundedToCents(x))
  {
    ToFixed2NonNegative(x);
    CentsTextLeadingDigit(Hundredths(x));
    ReadCentsText(Hundredths(x));
  }

  /** The round trip `parseFloat(x.toFixed(2))` yields the rounded value of `x`. */
  lemma {:induction false} ParseToFixed2(x: real)
    ensures ParseFloat(ToFixed2(x)) == Some(RoundedToCents(x))
  {
    TrimStartToFixed2(x);
    if x < 0.0 {
      ReadSignedNegative(x);
    } else {
      ReadSignedNonNegative(x);
    }
  }
}

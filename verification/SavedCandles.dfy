/** The saved-candle text format: candlePeriodResFile prints it, retrieveJsonFromStorage reads it back. */
module SavedCandles {
  import opened Records

  /** The fields of a candle that the text format keeps. */
  datatype SavedCandle = SavedCandle(periodStart: string, periodEnd: string, timeOpen: string, timeClose: string,
                                     open: real, high: real, low: real, close: real, volume: real)

  // ---------- splitting and joining ----------

  ghost predicate Free(s: string, sep: char) {
    forall i :: 0 <= i < |s| ==> s[i] != sep
  }

  ghost predicate AllFree(parts: seq<string>, sep: char) {
    forall i :: 0 <= i < |parts| ==> Free(parts[i], sep)
  }

  /** strings.Split with a one-character separator. */
  function Split(s: string, sep: char): (parts: seq<string>)
    ensures |parts| > 0 && AllFree(parts, sep)
  {
    if |s| == 0 then [""] else
    var front, c := Split(s[..|s| - 1], sep), s[|s| - 1];
    if c == sep then front + [""] else front[|front| - 1 := front[|front| - 1] + [c]]
  }

  function Join(parts: seq<string>, sep: char): string
    requires |parts| > 0
  {
    if |parts| == 1 then parts[0] else Join(parts[..|parts| - 1], sep) + [sep] + parts[|parts| - 1]
  }

  lemma {:induction false} SplitFree(s: string, sep: char)
    requires Free(s, sep)
    ensures Split(s, sep) == [s]
  {
    if |s| == 0 {
    } else {
      SplitFree(s[..|s| - 1], sep);
      assert s == s[..|s| - 1] + [s[|s| - 1]];
    }
  }

  lemma {:induction false} SplitAppend(a: string, b: string, sep: char)
    requires Free(b, sep)
    ensures Split(a + [sep] + b, sep) == Split(a, sep) + [b]
  {
    var s := a + [sep] + b;
    if |b| == 0 {
      assert s[..|s| - 1] == a;
    } else {
      var front, c := b[..|b| - 1], b[|b| - 1];
      assert s[..|s| - 1] == a + [sep] + front && b == front + [c];
      SplitAppend(a, front, sep);
    }
  }

  /** Splitting undoes joining when no part holds the separator. */
  lemma {:induction false} SplitUndoesJoin(parts: seq<string>, sep: char)
    requires |parts| > 0 && AllFree(parts, sep)
    ensures Split(Join(parts, sep), sep) == parts
  {
    var front, last := parts[..|parts| - 1], parts[|parts| - 1];
    assert Free(last, sep) && parts == front + [last];
    if |parts| == 1 {
      SplitFree(last, sep);
    } else {
      SplitUndoesJoin(front, sep);
      SplitAppend(Join(front, sep), last, sep);
    }
  }

  /** Parts keep every character class the text was free of. */
  lemma {:induction false} SplitKeepsFree(s: string, sep: char, other: char)
    requires Free(s, other)
    ensures AllFree(Split(s, sep), other)
  {
    if |s| == 0 {
    } else {
      SplitKeepsFree(s[..|s| - 1], sep, other);
    }
  }

  lemma {:induction false} JoinKeepsFree(parts: seq<string>, sep: char, other: char)
    requires |parts| > 0 && AllFree(parts, other) && sep != other
    ensures Free(Join(parts, sep), other)
  {
    if |parts| <= 1 {
    } else {
      JoinKeepsFree(parts[..|parts| - 1], sep, other);
    }
    assert Free(parts[|parts| - 1], other);
  }

  // ---------- numbers ----------

  function Pow10(k: nat): (p: nat)
    ensures p > 0
  {
    if k == 0 then 1 else 10 * Pow10(k - 1)
  }

  function DigitChar(d: nat): char
    requires d < 10
  {
    '0' + d as char
  }

  predicate IsDigit(c: char) {
    '0' <= c <= '9'
  }

  predicate AllDigits(s: string) {
    forall i :: 0 <= i < |s| ==> IsDigit(s[i])
  }

  function Value(s: string): nat
    requires AllDigits(s)
  {
    if |s| == 0 then 0 else Value(s[..|s| - 1]) * 10 + (s[|s| - 1] - '0') as nat
  }

  function Digits(n: nat): string {
    if n < 10 then [DigitChar(n)] else Digits(n / 10) + [DigitChar(n % 10)]
  }

  /** The last k digits of n, zeros in front. */
  function Fixed(n: nat, k: nat): string {
    if k == 0 then "" else Fixed(n / 10, k - 1) + [DigitChar(n % 10)]
  }

  lemma {:induction false} ValueAppend(s: string, d: nat)
    requires AllDigits(s) && d < 10
    ensures AllDigits(s + [DigitChar(d)]) && Value(s + [DigitChar(d)]) == Value(s) * 10 + d
  {
    assert (s + [DigitChar(d)])[..|s|] == s;
  }

  lemma {:induction false} DigitsValue(n: nat)
    ensures AllDigits(Digits(n)) && |Digits(n)| > 0 && Value(Digits(n)) == n
  {
    if n < 10 {
      ValueAppend("", n);
      assert "" + [DigitChar(n)] == [DigitChar(n)];
    } else {
      DigitsValue(n / 10);
      ValueAppend(Digits(n / 10), n % 10);
    }
  }

  lemma {:induction false} FixedValue(n: nat, k: nat)
    requires n < Pow10(k)
    ensures AllDigits(Fixed(n, k)) && |Fixed(n, k)| == k && Value(Fixed(n, k)) == n
  {
    if k == 0 {
    } else {
      FixedValue(n / 10, k - 1);
      ValueAppend(Fixed(n / 10, k - 1), n % 10);
    }
  }

  lemma {:induction false} DigitsFree(s: string, sep: char)
    requires AllDigits(s) && !IsDigit(sep)
    ensures Free(s, sep)
  {
    forall i | 0 <= i < |s| ensures s[i] != sep {
      assert IsDigit(s[i]);
    }
  }

  const MILLION := 1000000

  /** The nearest integer, halves to the even one. */
  function Nearest(x: real): (n: nat)
    requires x >= 0.0
  {
    var f := x.Floor;
    var d := x - f as real;
    if d < 0.5 || (d == 0.5 && f % 2 == 0) then f else f + 1
  }

  /** fmt.Sprintf("%f", x): six decimals. */
  function PrintFloat(x: real): string {
    if x < 0.0 then "-" + PrintMillionths(Nearest(-x * MILLION as real))
    else PrintMillionths(Nearest(x * MILLION as real))
  }

  function PrintMillionths(m: nat): string {
    Digits(m / MILLION) + "." + Fixed(m % MILLION, 6)
  }

  /** strconv.ParseFloat on plain decimal notation; anything else reads as zero. */
  function ParseFloat(s: string): real {
    if |s| > 0 && s[0] == '-' then -ParseDecimal(s[1..]) else ParseDecimal(s)
  }

  function ParseDecimal(s: string): real {
    var parts := Split(s, '.');
    if |parts| > 2 || !AllDigits(parts[0]) then 0.0
    else if |parts| == 1 then Value(parts[0]) as real
    else if !AllDigits(parts[1]) then 0.0
    else Value(parts[0]) as real + Value(parts[1]) as real / Pow10(|parts[1]|) as real
  }

  /** The value nearest to x with six decimals. */
  function Rounded(x: real): real {
    if x < 0.0 then -(Nearest(-x * MILLION as real) as real / MILLION as real)
    else Nearest(x * MILLION as real) as real / MILLION as real
  }

  /** x has at most six decimals. */
  ghost predicate SixDecimals(x: real) {
    (x * MILLION as real).Floor as real == x * MILLION as real
  }

  /** Nearest is within a half, and of two as near the even one. */
  lemma {:induction false} NearestIs(x: real)
    requires x >= 0.0
    ensures x - 0.5 <= Nearest(x) as real <= x + 0.5
    ensures Nearest(x) as real == x - 0.5 || Nearest(x) as real == x + 0.5 ==> Nearest(x) % 2 == 0
  {
    var f := x.Floor;
    assert f as real <= x < f as real + 1.0;
  }

  /** What is read back lies within half a millionth of what was printed. */
  lemma {:induction false} RoundedIsClose(x: real)
    ensures x - 0.0000005 <= Rounded(x) <= x + 0.0000005
  {
    if x < 0.0 {
      NearestIs(-x * MILLION as real);
    } else {
      NearestIs(x * MILLION as real);
    }
  }

  lemma {:induction false} SixDecimalsPower()
    ensures Pow10(6) == MILLION
  {
    assert Pow10(1) == 10 && Pow10(2) == 100 && Pow10(3) == 1000;
    assert Pow10(4) == 10000 && Pow10(5) == 100000;
  }

  lemma {:induction false} SplitAtPoint(whole: string, fraction: string)
    requires AllDigits(whole) && AllDigits(fraction)
    ensures Split(whole + "." + fraction, '.') == [whole, fraction]
  {
    DigitsFree(whole, '.');
    DigitsFree(fraction, '.');
    SplitFree(whole, '.');
    assert "." == ['.'];
    SplitAppend(whole, fraction, '.');
  }

  lemma {:induction false} WholeAndFraction(m: nat, q: nat, r: nat)
    requires m == q * MILLION + r
    ensures q as real + r as real / MILLION as real == m as real / MILLION as real
  {
  }

  lemma {:induction false} MillionthsRead(m: nat)
    ensures ParseDecimal(PrintMillionths(m)) == m as real / MILLION as real
  {
    var q, r := m / MILLION, m % MILLION;
    SixDecimalsPower();
    DigitsValue(q);
    FixedValue(r, 6);
    SplitAtPoint(Digits(q), Fixed(r, 6));
    WholeAndFraction(m, q, r);
  }

  lemma {:induction false} MillionthsFree(m: nat, sep: char)
    requires !IsDigit(sep) && sep != '.'
    ensures Free(PrintMillionths(m), sep) && PrintMillionths(m) != "" && IsDigit(PrintMillionths(m)[0])
  {
    SixDecimalsPower();
    DigitsValue(m / MILLION);
    FixedValue(m % MILLION, 6);
    DigitsFree(Digits(m / MILLION), sep);
    DigitsFree(Fixed(m % MILLION, 6), sep);
  }

  /** What is printed reads back as the value rounded to six decimals, for every number. */
  lemma {:induction false} PrintedFloatReads(x: real)
    ensures ParseFloat(PrintFloat(x)) == Rounded(x)
  {
    var m := if x < 0.0 then Nearest(-x * MILLION as real) else Nearest(x * MILLION as real);
    MillionthsRead(m);
    MillionthsFree(m, '-');
    if x < 0.0 {
      assert PrintFloat(x)[1..] == PrintMillionths(m);
    }
  }

  lemma {:induction false} SplitAllDigits(s: string, i: nat)
    requires i < |s| && !IsDigit(s[i]) && s[i] != '.'
    ensures exists k :: 0 <= k < |Split(s, '.')| && !AllDigits(Split(s, '.')[k])
  {
    var front, c := s[..|s| - 1], s[|s| - 1];
    var parts, last := Split(front, '.'), |Split(front, '.')| - 1;
    if i < |s| - 1 {
      SplitAllDigits(front, i);
      var k :| 0 <= k <= last && !AllDigits(parts[k]);
      if c != '.' && k == last {
        var j :| 0 <= j < |parts[last]| && !IsDigit(parts[last][j]);
        assert !IsDigit((parts[last] + [c])[j]);
      }
      assert !AllDigits(Split(s, '.')[k]);
    } else {
      assert !IsDigit((parts[last] + [c])[|parts[last]|]);
      assert !AllDigits(Split(s, '.')[last]);
    }
  }

  lemma {:induction false} SplitParts(a: string, b: string, sep: char)
    ensures |Split(a + [sep] + b, sep)| == |Split(a, sep)| + |Split(b, sep)|
  {
    var s := a + [sep] + b;
    if |b| == 0 {
      assert s[..|s| - 1] == a;
    } else {
      assert s[..|s| - 1] == a + [sep] + b[..|b| - 1];
      SplitParts(a, b[..|b| - 1], sep);
    }
  }

  /** A text with two points reads as zero. */
  lemma {:induction false} TwoPointsReadZero(a: string, b: string, c: string)
    requires |a| > 0 && a[0] != '-'
    ensures ParseFloat(a + "." + b + "." + c) == 0.0
  {
    assert "." == ['.'];
    SplitParts(a, b, '.');
    SplitParts(a + "." + b, c, '.');
  }

  /** A text with anything but digits, one point and a leading minus reads as zero. */
  lemma {:induction false} JunkReadsZero(s: string, i: nat)
    requires i < |s| && !IsDigit(s[i]) && s[i] != '.' && (s[0] == '-' ==> i > 0)
    ensures ParseFloat(s) == 0.0
  {
    if s[0] == '-' {
      assert s[1..][i - 1] == s[i];
      SplitAllDigits(s[1..], i - 1);
    } else {
      SplitAllDigits(s, i);
    }
  }

  lemma {:induction false} PrintedFloatFree(x: real, sep: char)
    requires sep == '/' || sep == '>'
    ensures Free(PrintFloat(x), sep)
  {
    var m := if x < 0.0 then Nearest(-x * MILLION as real) else Nearest(x * MILLION as real);
    MillionthsFree(m, sep);
  }

  /** Rounding changes a number exactly when it has more than six decimals. */
  lemma {:induction false} RoundedIffSixDecimals(x: real)
    ensures Rounded(x) == x <==> SixDecimals(x)
  {
    var y := x * MILLION as real;
    if x < 0.0 {
      assert -x * MILLION as real == -y;
      WholeIffNearest(-y);
      assert Rounded(x) == x <==> Nearest(-y) as real == -y;
      assert (-y).Floor as real == -y ==> y.Floor as real == y by { WholeNegates(-y); }
      assert y.Floor as real == y ==> (-y).Floor as real == -y by { WholeNegates(y); }
    } else {
      WholeIffNearest(y);
    }
  }

  lemma {:induction false} WholeFloor(n: int, y: real)
    requires n as real == y
    ensures y.Floor == n
  {
  }

  lemma {:induction false} WholeNegates(y: real)
    ensures y.Floor as real == y ==> (-y).Floor as real == -y
  {
    var n := y.Floor;
    if n as real == y {
      WholeFloor(-n, -y);
    }
  }

  lemma {:induction false} WholeIffNearest(y: real)
    requires y >= 0.0
    ensures Nearest(y) as real == y <==> y.Floor as real == y
  {
  }

  // ---------- the text of a candle ----------

  function Fields(c: SavedCandle): seq<string> {
    [c.periodStart, c.periodEnd, c.timeOpen, c.timeClose,
     PrintFloat(c.open), PrintFloat(c.high), PrintFloat(c.low), PrintFloat(c.close), PrintFloat(c.volume)]
  }

  /** The time strings hold neither separator. */
  ghost predicate Clean(c: SavedCandle) {
    && Free(c.periodStart, '/') && Free(c.periodEnd, '/') && Free(c.timeOpen, '/') && Free(c.timeClose, '/')
    && Free(c.periodStart, '>') && Free(c.periodEnd, '>') && Free(c.timeOpen, '>') && Free(c.timeClose, '>')
  }

  function RoundedCandle(c: SavedCandle): SavedCandle {
    c.(open := Rounded(c.open), high := Rounded(c.high), low := Rounded(c.low), close := Rounded(c.close),
        volume := Rounded(c.volume))
  }

  ghost predicate Exact(c: SavedCandle) {
    SixDecimals(c.open) && SixDecimals(c.high) && SixDecimals(c.low) && SixDecimals(c.close) && SixDecimals(c.volume)
  }

  /** Reading one candle; None where the original indexes past the fields it split off. */
  function ReadCandle(cand: string): Option<SavedCandle> {
    var f := Split(cand, '/');
    if |f| < 9 then None
    else Some(SavedCandle(f[0], f[1], f[2], f[3], ParseFloat(f[4]), ParseFloat(f[5]), ParseFloat(f[6]),
        ParseFloat(f[7]), ParseFloat(f[8])))
  }

  function ReadAll(cands: seq<string>): Option<seq<SavedCandle>> {
    if |cands| == 0 then Some([]) else
    match (ReadAll(cands[..|cands| - 1]), ReadCandle(cands[|cands| - 1]))
    case (Some(cs), Some(c)) => Some(cs + [c])
    case _ => None
  }

  function Read(text: string): Option<seq<SavedCandle>> {
    ReadAll(Split(text, '>'))
  }

  function Line(c: SavedCandle): string {
    Join(Fields(c), '/')
  }

  function Lines(cs: seq<SavedCandle>): seq<string> {
    seq(|cs|, i requires 0 <= i < |cs| => Line(cs[i]))
  }

  function Text(cs: seq<SavedCandle>): string {
    if |cs| == 0 then "" else Join(Lines(cs), '>')
  }

  lemma {:induction false} FieldsFree(c: SavedCandle, sep: char)
    requires Clean(c) && (sep == '/' || sep == '>')
    ensures AllFree(Fields(c), sep)
  {
    var numbers := [c.open, c.high, c.low, c.close, c.volume];
    forall i | 0 <= i < 9 ensures Free(Fields(c)[i], sep) {
      if i >= 4 {
        PrintedFloatFree(numbers[i - 4], sep);
      }
    }
  }

  lemma {:induction false} CandleReads(c: SavedCandle)
    requires Clean(c)
    ensures ReadCandle(Line(c)) == Some(RoundedCandle(c))
  {
    FieldsFree(c, '/');
    SplitUndoesJoin(Fields(c), '/');
    PrintedFloatReads(c.open);
    PrintedFloatReads(c.high);
    PrintedFloatReads(c.low);
    PrintedFloatReads(c.close);
    PrintedFloatReads(c.volume);
  }

  function RoundedAll(cs: seq<SavedCandle>): seq<SavedCandle> {
    seq(|cs|, i requires 0 <= i < |cs| => RoundedCandle(cs[i]))
  }

  lemma {:induction false} LinesRead(cs: seq<SavedCandle>)
    requires forall i :: 0 <= i < |cs| ==> Clean(cs[i])
    ensures ReadAll(Lines(cs)) == Some(RoundedAll(cs))
  {
    hide Line, ReadCandle, RoundedCandle, Clean;
    if |cs| == 0 {
    } else {
      var front, c := cs[..|cs| - 1], cs[|cs| - 1];
      LinesRead(front);
      CandleReads(c);
      assert Lines(cs)[..|cs| - 1] == Lines(front) && Lines(cs)[|cs| - 1] == Line(c);
      assert RoundedAll(cs) == RoundedAll(front) + [RoundedCandle(c)];
    }
  }

  /** A saved non-empty list reads back as the same candles, each number rounded to six decimals. */
  lemma {:induction false} TextReads(cs: seq<SavedCandle>)
    requires |cs| > 0 && forall i :: 0 <= i < |cs| ==> Clean(cs[i])
    ensures Read(Text(cs)) == Some(RoundedAll(cs))
  {
    var lines := Lines(cs);
    forall i | 0 <= i < |cs| ensures Free(lines[i], '>') {
      FieldsFree(cs[i], '>');
      JoinKeepsFree(Fields(cs[i]), '/', '>');
    }
    SplitUndoesJoin(lines, '>');
    LinesRead(cs);
  }

  /** The empty list is saved as the empty text, on which the reader fails. */
  lemma {:induction false} EmptyListFails()
    ensures Read(Text([])) == None
  {
    assert Split("", '>') == [""] && Split("", '/') == [""];
    assert ReadCandle("") == None;
    assert ReadAll([""]) == None;
  }

  lemma {:induction false} SixDigits(n: nat)
    ensures Fixed(n, 6) == [DigitChar(n / 100000 % 10), DigitChar(n / 10000 % 10), DigitChar(n / 1000 % 10),
                            DigitChar(n / 100 % 10), DigitChar(n / 10 % 10), DigitChar(n % 10)]
  {
    assert n / 10 / 10 == n / 100 && n / 100 / 10 == n / 1000 && n / 1000 / 10 == n / 10000;
    assert n / 10000 / 10 == n / 100000;
    assert Fixed(n / 1000000, 0) == "";
    assert Fixed(n / 100000, 1) == [DigitChar(n / 100000 % 10)];
    assert Fixed(n / 10000, 2) == Fixed(n / 100000, 1) + [DigitChar(n / 10000 % 10)];
    assert Fixed(n / 1000, 3) == Fixed(n / 10000, 2) + [DigitChar(n / 1000 % 10)];
    assert Fixed(n / 100, 4) == Fixed(n / 1000, 3) + [DigitChar(n / 100 % 10)];
    assert Fixed(n / 10, 5) == Fixed(n / 100, 4) + [DigitChar(n / 10 % 10)];
  }

  /** A number of one whole digit as it is printed. */
  lemma {:induction false} SmallPrinted(d: nat, r: nat)
    requires d < 10 && r < 1000000
    ensures PrintMillionths(1000000 * d + r)
         == [DigitChar(d), '.', DigitChar(r / 100000 % 10), DigitChar(r / 10000 % 10), DigitChar(r / 1000 % 10),
             DigitChar(r / 100 % 10), DigitChar(r / 10 % 10), DigitChar(r % 10)]
  {
    hide Fixed;
    SixDigits(r);
    assert Digits(d) == [DigitChar(d)];
  }

  /** What %f makes of some numbers. */
  lemma {:induction false} PrintedExamples()
    ensures PrintFloat(0.0) == "0.000000" && PrintFloat(1.5) == "1.500000" && PrintFloat(-9.123456) == "-9.123456"
  {
    hide PrintMillionths;
    WholeFloor(1500000, 1.5 * MILLION as real);
    WholeFloor(9123456, 9.123456 * MILLION as real);
    SmallPrinted(0, 0);
    SmallPrinted(1, 500000);
    SmallPrinted(9, 123456);
  }

  /** And of some with more decimals, two of them halfway. */
  lemma {:induction false} RoundedExamples()
    ensures PrintFloat(0.0000074) == "0.000007" && PrintFloat(0.0000075) == "0.000008"
    ensures PrintFloat(0.0000065) == "0.000006"
  {
    hide PrintMillionths, Nearest;
    assert Nearest(7.4) == 7 && Nearest(7.5) == 8 && Nearest(6.5) == 6 by { NearestExamples(); }
    SmallPrinted(0, 6);
    SmallPrinted(0, 7);
    SmallPrinted(0, 8);
  }

  lemma {:induction false} NearestExamples()
    ensures Nearest(7.4) == 7 && Nearest(7.5) == 8 && Nearest(6.5) == 6
  {
  }

  /** A candle is saved as nine fields separated by strokes, the times first. */
  lemma {:induction false} LineIs(c: SavedCandle)
    ensures Line(c) == c.periodStart + "/" + c.periodEnd + "/" + c.timeOpen + "/" + c.timeClose + "/"
                       + PrintFloat(c.open) + "/" + PrintFloat(c.high) + "/" + PrintFloat(c.low) + "/"
                       + PrintFloat(c.close) + "/" + PrintFloat(c.volume)
  {
    hide PrintFloat;
    var f := Fields(c);
    var f4 := f[0] + "/" + f[1] + "/" + f[2] + "/" + f[3];
    assert Join(f[..1], '/') == f[0];
    JoinNext(f, 2, '/');
    JoinNext(f, 3, '/');
    JoinNext(f, 4, '/');
    assert Join(f[..4], '/') == f4;
    JoinNext(f, 5, '/');
    JoinNext(f, 6, '/');
    JoinNext(f, 7, '/');
    JoinNext(f, 8, '/');
    JoinNext(f, 9, '/');
    assert f[..9] == f;
  }

  lemma {:induction false} JoinNext(parts: seq<string>, n: nat, sep: char)
    requires 1 < n <= |parts|
    ensures Join(parts[..n], sep) == Join(parts[..n - 1], sep) + [sep] + parts[n - 1]
  {
    assert parts[..n][..n - 1] == parts[..n - 1];
  }

  /** Candles are separated by angle brackets. */
  lemma {:induction false} TextGrows(cs: seq<SavedCandle>, c: SavedCandle)
    ensures Text(cs + [c]) == if |cs| == 0 then Line(c) else Text(cs) + ">" + Line(c)
  {
    hide Line;
    var lines := Lines(cs + [c]);
    assert lines == Lines(cs) + [Line(c)];
    assert lines[..|cs|] == Lines(cs);
  }

  lemma {:induction false} ReadCandleClean(cand: string)
    requires Free(cand, '>') && ReadCandle(cand).Some?
    ensures Clean(ReadCandle(cand).value)
  {
    var f := Split(cand, '/');
    SplitKeepsFree(cand, '/', '>');
    assert forall i :: 0 <= i < 4 ==> Free(f[i], '/') && Free(f[i], '>');
  }

  /** Whatever the text, the candles read from it hold no separator. */
  lemma {:induction false} ReadAllClean(cands: seq<string>)
    requires AllFree(cands, '>') && ReadAll(cands).Some?
    ensures forall i :: 0 <= i < |ReadAll(cands).value| ==> Clean(ReadAll(cands).value[i])
  {
    if |cands| == 0 {
    } else {
      var front, last := cands[..|cands| - 1], cands[|cands| - 1];
      assert Free(last, '>');
      ReadAllClean(front);
      ReadCandleClean(last);
    }
  }

  /** The round trip is exact if and only if there is a candle, no time string holds a separator and
      no number has more than six decimals. */
  lemma {:induction false} RoundTripIff(cs: seq<SavedCandle>)
    ensures Read(Text(cs)) == Some(cs) <==> |cs| > 0 && forall i :: 0 <= i < |cs| ==> Clean(cs[i]) && Exact(cs[i])
  {
    hide Read, Text, Clean, Exact, RoundedCandle;
    if |cs| == 0 {
      EmptyListFails();
    } else if forall i :: 0 <= i < |cs| ==> Clean(cs[i]) {
      TextReads(cs);
      forall i | 0 <= i < |cs| ensures RoundedAll(cs)[i] == cs[i] <==> Exact(cs[i]) {
        ExactIffRounded(cs[i]);
      }
      assert RoundedAll(cs) == cs <==> forall i :: 0 <= i < |cs| ==> RoundedAll(cs)[i] == cs[i];
    } else if Read(Text(cs)).Some? {
      ReadIsClean(Text(cs));
    }
  }

  lemma {:induction false} ReadIsClean(text: string)
    requires Read(text).Some?
    ensures forall i :: 0 <= i < |Read(text).value| ==> Clean(Read(text).value[i])
  {
    hide Clean;
    ReadAllClean(Split(text, '>'));
  }

  lemma {:induction false} ExactIffRounded(c: SavedCandle)
    ensures RoundedCandle(c) == c <==> Exact(c)
  {
    RoundedIffSixDecimals(c.open);
    RoundedIffSixDecimals(c.high);
    RoundedIffSixDecimals(c.low);
    RoundedIffSixDecimals(c.close);
    RoundedIffSixDecimals(c.volume);
  }

  // ---------- the loops ----------

  lemma {:induction false} JoinOne(fields: seq<string>, k: nat)
    requires 0 < k < |fields|
    ensures Join(fields[..k + 1], '/') == Join(fields[..k], '/') + "/" + fields[k]
  {
    assert fields[..k + 1][..k] == fields[..k];
  }

  method CandleLine(cand: SavedCandle) returns (line: string)
    ensures line == Line(cand)
  {
    line := cand.periodStart + "/" + cand.periodEnd + "/" + cand.timeOpen + "/" + cand.timeClose + "/"
          + PrintFloat(cand.open) + "/" + PrintFloat(cand.high) + "/" + PrintFloat(cand.low) + "/"
          + PrintFloat(cand.close) + "/" + PrintFloat(cand.volume);
    ghost var fields := Fields(cand);
    assert Join(fields[..1], '/') == cand.periodStart;
    JoinOne(fields, 1);
    JoinOne(fields, 2);
    JoinOne(fields, 3);
    JoinOne(fields, 4);
    JoinOne(fields, 5);
    JoinOne(fields, 6);
    JoinOne(fields, 7);
    JoinOne(fields, 8);
    assert fields[..9] == fields;
  }

  method CandlePeriodResFile(c: seq<SavedCandle>) returns (fileString: string)
    ensures fileString == Text(c)
  {
    hide Line;
    fileString := "";
    for i := 0 to |c|
      invariant fileString == Text(c[..i])
    {
      var line := CandleLine(c[i]);
      assert Lines(c[..i + 1])[..i] == Lines(c[..i]) by { assert c[..i + 1][..i] == c[..i]; }
      if i == 0 {
        fileString := line;
      } else {
        fileString := fileString + ">" + line;
      }
    }
    assert c[..|c|] == c;
  }

  method RetrieveCandles(rawString: string) returns (rawRes: Option<seq<SavedCandle>>)
    ensures rawRes == Read(rawString)
  {
    var cands := Split(rawString, '>');
    var res: seq<SavedCandle> := [];
    for i := 0 to |cands|
      invariant ReadAll(cands[..i]) == Some(res)
    {
      assert cands[..i + 1][..i] == cands[..i];
      var tempCandle := ReadCandle(cands[i]);
      if tempCandle.None? {
        FailedPrefix(cands, i + 1);
        return None;
      }
      res := res + [tempCandle.value];
    }
    assert cands[..|cands|] == cands;
    rawRes := Some(res);
  }

  lemma {:induction false} FailedPrefix(cands: seq<string>, n: nat)
    requires n <= |cands| && ReadAll(cands[..n]) == None
    ensures ReadAll(cands) == None
  {
    if n == |cands| {
      assert cands[..n] == cands;
    } else {
      assert cands[..|cands| - 1][..n] == cands[..n];
      FailedPrefix(cands[..|cands| - 1], n);
    }
  }
}

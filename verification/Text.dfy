/** Plain text: printed numbers, space-separated tokens and newline-terminated lines, and the facts that make
    printing reversible. */
module Text {
  import opened Basics
  import opened Products

  // ----- decimal numbers -----

  predicate IsDigit(c: char) {
    '0' <= c <= '9'
  }

  function Digit(d: nat): (c: char)
    requires d < 10
    ensures IsDigit(c) && c as int - '0' as int == d
  {
    ('0' as int + d) as char
  }

  function Decimal(n: nat): string {
    if n < 10 then [Digit(n)] else Decimal(n / 10) + [Digit(n % 10)]
  }

  /** The last `width` decimal digits of n. */
  function Padded(n: nat, width: nat): string {
    if width == 0 then "" else Padded(n / 10, width - 1) + [Digit(n % 10)]
  }

  predicate AllDigits(s: string) {
    forall i :: 0 <= i < |s| ==> IsDigit(s[i])
  }

  function Value(s: string): nat
    requires AllDigits(s)
  {
    if s == "" then 0 else 10 * Value(s[..|s| - 1]) + (s[|s| - 1] as int - '0' as int)
  }

  function ParseNat(s: string): Option<nat> {
    if s != "" && AllDigits(s) then Some(Value(s)) else None
  }

  lemma ValueOfSnoc(s: string, d: nat)
    requires AllDigits(s) && d < 10
    ensures AllDigits(s + [Digit(d)]) && Value(s + [Digit(d)]) == 10 * Value(s) + d
  {
    assert (s + [Digit(d)])[..|s|] == s;
  }

  lemma {:induction false} DecimalRoundTrip(n: nat)
    ensures Decimal(n) != "" && AllDigits(Decimal(n)) && Value(Decimal(n)) == n
  {
    if n < 10 {
      ValueOfSnoc("", n);
      assert "" + [Digit(n)] == Decimal(n);
    } else {
      DecimalRoundTrip(n / 10);
      ValueOfSnoc(Decimal(n / 10), n % 10);
    }
  }

  function Pow10(k: nat): nat {
    if k == 0 then 1 else 10 * Pow10(k - 1)
  }

  lemma {:induction false} PaddedRoundTrip(n: nat, width: nat)
    requires n < Pow10(width)
    ensures |Padded(n, width)| == width && AllDigits(Padded(n, width)) && Value(Padded(n, width)) == n
  {
    if width > 0 {
      PaddedRoundTrip(n / 10, width - 1);
      ValueOfSnoc(Padded(n / 10, width - 1), n % 10);
    }
  }

  /** The format %d. */
  function PrintInt(i: int): string {
    if i < 0 then "-" + Decimal(-i) else Decimal(i)
  }

  function Signed(negative: bool, r: Option<int>): Option<int> {
    if r.Some? && negative then Some(-r.value) else r
  }

  function ParseInt(s: string): Option<int> {
    if s != "" && s[0] == '-' then
      Signed(true, ParseNat(s[1..]))
    else
      Signed(false, ParseNat(s))
  }

  lemma IntRoundTrip(i: int)
    ensures ParseInt(PrintInt(i)) == Some(i)
  {
    DecimalRoundTrip(if i < 0 then -i else i);
  }

  /** The format %f of a number of millionths. */
  function PrintRate(u: int): string {
    if u < 0 then "-" + Fixed(-u) else Fixed(u)
  }

  function Fixed(u: nat): string {
    Decimal(u / 1_000_000) + "." + Padded(u % 1_000_000, 6)
  }

  /** Reads digits, then optionally a point and at most six digits, as millionths. */
  function ParseFixed(s: string): Option<nat> {
    var parts := Split(s, '.');
    if |parts| > 2 then None
    else
      var whole, fraction := ParseNat(parts[0]), if |parts| == 2 then parts[1] else "0";
      if whole.None? || |fraction| > 6 || ParseNat(fraction).None? then None
      else Some(Millionths(whole.value, ParseNat(fraction).value, |fraction|))
  }

  function Millionths(whole: nat, fraction: nat, decimals: nat): nat
    requires decimals <= 6
  {
    1_000_000 * whole + fraction * Pow10(6 - decimals)
  }

  function ParseRate(s: string): Option<int> {
    if s != "" && s[0] == '-' then
      Signed(true, ParseFixed(s[1..]))
    else
      Signed(false, ParseFixed(s))
  }

  lemma FixedRoundTrip(u: nat)
    ensures ParseFixed(Fixed(u)) == Some(u)
    ensures IsDigit(Fixed(u)[0])
  {
    var whole, fraction := Decimal(u / 1_000_000), Padded(u % 1_000_000, 6);
    DecimalRoundTrip(u / 1_000_000);
    assert Pow10(6) == 1_000_000;
    PaddedRoundTrip(u % 1_000_000, 6);
    SplitAtFirst(whole, '.', fraction);
    SplitPlain(fraction, '.');
    assert Fixed(u) == whole + ['.'] + fraction;
    assert Pow10(0) == 1;
  }

  lemma RateRoundTrip(u: int)
    ensures ParseRate(PrintRate(u)) == Some(u)
  {
    FixedRoundTrip(if u < 0 then -u else u);
  }

  /** Neither a separator nor a line break. */
  predicate Plain(s: string) {
    ' ' !in s && '\n' !in s
  }

  lemma NumbersArePlain(i: int)
    ensures Plain(PrintInt(i)) && Plain(PrintRate(i)) && PrintInt(i) != "" && PrintRate(i) != ""
  {
    var n := if i < 0 then -i else i;
    DecimalRoundTrip(n);
    DecimalRoundTrip(n / 1_000_000);
    assert Pow10(6) == 1_000_000;
    PaddedRoundTrip(n % 1_000_000, 6);
  }

  // ----- splitting -----

  function FirstOf(s: string, c: char): (i: nat)
    ensures i <= |s| && c !in s[..i] && (i < |s| ==> s[i] == c)
  {
    if s == "" || s[0] == c then 0
    else
      var i := 1 + FirstOf(s[1..], c);
      assert s[..i] == [s[0]] + s[1..][..i - 1];
      i
  }

  /** s.split(c) for a one-character separator. */
  function Split(s: string, c: char): (parts: seq<string>)
    ensures |parts| >= 1
    decreases |s|
  {
    var i := FirstOf(s, c);
    if i == |s| then [s] else [s[..i]] + Split(s[i + 1..], c)
  }

  lemma FirstOfUnique(s: string, c: char, i: nat)
    requires i < |s| && s[i] == c && c !in s[..i]
    ensures FirstOf(s, c) == i
  {
    var j := FirstOf(s, c);
    assert forall z :: 0 <= z < i ==> s[z] == s[..i][z] && s[z] != c;
    assert forall z :: 0 <= z < j ==> s[z] == s[..j][z] && s[z] != c;
  }

  lemma SplitAtFirst(a: string, c: char, rest: string)
    requires c !in a
    ensures Split(a + [c] + rest, c) == [a] + Split(rest, c)
  {
    var s := a + [c] + rest;
    assert s[..|a|] == a && s[|a| + 1..] == rest;
    FirstOfUnique(s, c, |a|);
  }

  lemma SplitPlain(a: string, c: char)
    requires c !in a
    ensures Split(a, c) == [a]
  {
  }

  /** Tokens with the separator between them. */
  function Join(tokens: seq<string>): string {
    if tokens == [] then ""
    else if |tokens| == 1 then tokens[0]
    else tokens[0] + " " + Join(tokens[1..])
  }

  lemma {:induction false} SplitJoin(tokens: seq<string>)
    requires tokens != [] && forall i :: 0 <= i < |tokens| ==> Plain(tokens[i])
    ensures Split(Join(tokens), ' ') == tokens && '\n' !in Join(tokens)
  {
    hide Split;
    if |tokens| == 1 {
      SplitPlain(tokens[0], ' ');
    } else {
      SplitJoin(tokens[1..]);
      SplitAtFirst(tokens[0], ' ', Join(tokens[1..]));
    }
  }

  lemma {:induction false} JoinSnoc(tokens: seq<string>, t: string)
    requires tokens != []
    ensures Join(tokens + [t]) == Join(tokens) + " " + t
  {
    if |tokens| > 1 {
      JoinSnoc(tokens[1..], t);
      assert (tokens + [t])[1..] == tokens[1..] + [t];
    } else {
      assert (tokens + [t])[1..] == [t];
    }
  }

  // ----- what numbers are read and written -----

  lemma {:induction false} ValueOfConcat(a: string, b: string)
    requires AllDigits(a) && AllDigits(b)
    ensures AllDigits(a + b) && Value(a + b) == Value(a) * Pow10(|b|) + Value(b)
  {
    if b == "" {
      assert a + b == a;
    } else {
      var n := |b| - 1;
      ValueOfConcat(a, b[..n]);
      assert (a + b)[..|a| + n] == a + b[..n];
      TenTimes(Value(a), Pow10(n), Pow10(|b|));
    }
  }

  lemma TenTimes(v: nat, p: nat, q: nat)
    requires q == 10 * p
    ensures v * q == 10 * (v * p)
  {
  }

  /** A number without a point. */
  lemma ReadsWhole(whole: string)
    requires whole != "" && AllDigits(whole)
    ensures var v: int := Value(whole);
            && ParseInt(whole) == Some(v) && ParseInt("-" + whole) == Some(-v)
            && ParseRate(whole) == Some(1_000_000 * v) && ParseRate("-" + whole) == Some(-1_000_000 * v)
  {
    hide Value;
    hide Millionths;
    SplitPlain(whole, '.');
    assert IsDigit(whole[0]) && ("-" + whole)[1..] == whole;
    ZeroFraction();
    NoFraction(Value(whole));
  }

  lemma NoFraction(w: nat)
    ensures Millionths(w, 0, 1) == 1_000_000 * w
  {
    hide Pow10;
  }

  lemma ZeroFraction()
    ensures ParseNat("0") == Some(0)
  {
    assert "0"[..0] == "";
  }

  /** A number with up to six digits after the point: the digits' value is ten to the number of digits after the
      point times the rate. */
  lemma ReadsFraction(whole: string, fraction: string)
    requires whole != "" && AllDigits(whole) && AllDigits(fraction) && 1 <= |fraction| <= 6
    ensures ParseRate(whole + "." + fraction).Some? && AllDigits(whole + fraction)
    ensures ParseRate(whole + "." + fraction).value * Pow10(|fraction|) == 1_000_000 * Value(whole + fraction)
    ensures ParseRate("-" + (whole + "." + fraction)) == Some(-ParseRate(whole + "." + fraction).value)
  {
    hide Value;
    hide Pow10;
    hide ParseFixed;
    hide Millionths;
    var s := whole + "." + fraction;
    FixedParts(whole, fraction);
    assert IsDigit(s[0]) && ("-" + s)[1..] == s;
    ScaledValue(whole, fraction);
  }

  lemma ScaledValue(whole: string, fraction: string)
    requires AllDigits(whole) && AllDigits(fraction) && |fraction| <= 6
    ensures AllDigits(whole + fraction)
    ensures Millionths(Value(whole), Value(fraction), |fraction|) * Pow10(|fraction|)
            == 1_000_000 * Value(whole + fraction)
  {
    hide Value;
    hide Pow10;
    hide Millionths;
    ValueOfConcat(whole, fraction);
    Scaled(Value(whole), Value(fraction), |fraction|);
  }

  lemma FixedParts(whole: string, fraction: string)
    requires whole != "" && AllDigits(whole) && AllDigits(fraction) && 1 <= |fraction| <= 6
    ensures ParseFixed(whole + "." + fraction) ==
            Some(Millionths(Value(whole), Value(fraction), |fraction|))
  {
    hide Value;
    hide Millionths;
    SplitAtFirst(whole, '.', fraction);
    SplitPlain(fraction, '.');
  }

  lemma Scaled(w: nat, f: nat, n: nat)
    requires n <= 6
    ensures Millionths(w, f, n) * Pow10(n) == 1_000_000 * (w * Pow10(n) + f)
  {
    assert Pow10(0) == 1 && Pow10(1) == 10 && Pow10(2) == 100 && Pow10(3) == 1_000;
    assert Pow10(4) == 10_000 && Pow10(5) == 100_000 && Pow10(6) == 1_000_000;
    if n == 0 {
    } else if n == 1 {
    } else if n == 2 {
    } else if n == 3 {
    } else if n == 4 {
    } else if n == 5 {
    }
  }

  /** Digits that stand for a natural number, with a sign in front for a negative one. */
  ghost predicate DenotesNat(s: string, n: nat) {
    s != "" && AllDigits(s) && Value(s) == n
  }

  ghost predicate DenotesInt(s: string, i: int) {
    || (i >= 0 && DenotesNat(s, i))
    || (i <= 0 && s != "" && s[0] == '-' && DenotesNat(s[1..], -i))
  }

  /** Digits that stand for u millionths: the whole part, or the whole part, a point and up to six digits. */
  ghost predicate DenotesFixed(s: string, u: nat) {
    || (s != "" && AllDigits(s) && u == 1_000_000 * Value(s))
    || exists whole, fraction :: WithPoint(s, whole, fraction, u)
  }

  ghost predicate WithPoint(s: string, whole: string, fraction: string, u: nat) {
    && s == whole + "." + fraction && whole != "" && 1 <= |fraction| <= 6
    && AllDigits(whole) && AllDigits(fraction) && AllDigits(whole + fraction)
    && u * Pow10(|fraction|) == 1_000_000 * Value(whole + fraction)
  }

  ghost predicate DenotesRate(s: string, u: int) {
    || (u >= 0 && DenotesFixed(s, u))
    || (u <= 0 && s != "" && s[0] == '-' && DenotesFixed(s[1..], -u))
  }

  /** A text is read as an integer exactly when it denotes it. */
  lemma IntReads(s: string, i: int)
    ensures ParseInt(s) == Some(i) <==> DenotesInt(s, i)
  {
    hide Value;
    if s != "" && s[0] == '-' {
      assert !AllDigits(s);
    }
  }

  /** A text is read as a rate exactly when it denotes it. */
  lemma RateReads(s: string, u: int)
    ensures ParseRate(s) == Some(u) <==> DenotesRate(s, u)
  {
    hide ParseFixed;
    hide DenotesFixed;
    var n := if u < 0 then -u else u;
    FixedReads(s, n);
    if s != "" && s[0] == '-' {
      FixedReads(s[1..], n);
      NotFixed(s);
    }
  }

  lemma NotFixed(s: string)
    requires s != "" && s[0] == '-'
    ensures ParseFixed(s).None? && forall u: nat :: !DenotesFixed(s, u)
  {
    hide Value;
    hide Pow10;
    forall u: nat ensures !DenotesFixed(s, u) {
      if whole, fraction :| WithPoint(s, whole, fraction, u) {
        assert false;
      }
    }
    if ParseFixed(s).Some? {
      FixedDenotes(s);
      assert false;
    }
  }

  lemma FixedReads(s: string, u: nat)
    ensures ParseFixed(s) == Some(u) <==> DenotesFixed(s, u)
  {
    hide Value;
    hide ParseFixed;
    if ParseFixed(s).Some? {
      FixedDenotes(s);
    }
    if DenotesFixed(s, u) {
      DenotedIsRead(s, u);
    }
  }

  lemma DenotedIsRead(s: string, u: nat)
    requires DenotesFixed(s, u)
    ensures ParseFixed(s) == Some(u)
  {
    hide Value;
    hide ParseFixed;
    if s != "" && AllDigits(s) && u == 1_000_000 * Value(s) {
      ReadsWhole(s);
      assert IsDigit(s[0]);
    } else {
      var whole, fraction :| WithPoint(s, whole, fraction, u);
      ReadsFraction(whole, fraction);
      assert IsDigit(s[0]);
      Cancel(u, ParseFixed(s).value, |fraction|);
    }
  }

  lemma Cancel(a: nat, b: nat, n: nat)
    requires a * Pow10(n) == b * Pow10(n)
    ensures a == b
  {
    Pow10Positive(n);
    CancelFactor(a, b, Pow10(n));
  }

  lemma CancelFactor(a: nat, b: nat, p: nat)
    requires p > 0 && a * p == b * p
    ensures a == b
  {
    DivUnique(a * p, p, a, 0);
    DivUnique(b * p, p, b, 0);
  }

  lemma {:induction false} Pow10Positive(n: nat)
    ensures Pow10(n) > 0
  {
    if n > 0 {
      Pow10Positive(n - 1);
    }
  }

  lemma FixedDenotes(s: string)
    requires ParseFixed(s).Some?
    ensures DenotesFixed(s, ParseFixed(s).value)
  {
    hide Value;
    hide Millionths;
    var i := FirstOf(s, '.');
    if i == |s| {
      ZeroFraction();
      NoFraction(Value(s));
    } else {
      var whole, fraction := s[..i], s[i + 1..];
      assert Split(s, '.') == [whole] + Split(fraction, '.');
      assert |Split(fraction, '.')| == 1;
      assert s == whole + "." + fraction;
      ReadsFraction(whole, fraction);
      assert WithPoint(s, whole, fraction, ParseFixed(s).value);
    }
  }

  /** Digits without a superfluous zero in front. */
  predicate Canonical(s: string) {
    s != "" && AllDigits(s) && (s[0] == '0' ==> |s| == 1)
  }

  lemma {:induction false} DecimalIsCanonical(n: nat)
    ensures Canonical(Decimal(n)) && (Decimal(n)[0] == '0' <==> n == 0)
  {
    if n >= 10 {
      DecimalIsCanonical(n / 10);
    }
  }

  lemma {:induction false} CanonicalIsDecimal(s: string)
    requires Canonical(s)
    ensures Decimal(Value(s)) == s && (s == "0" <==> Value(s) == 0)
  {
    var n := |s| - 1;
    if n > 0 {
      CanonicalIsDecimal(s[..n]);
      assert s == s[..n] + [s[n]];
    }
  }

  lemma {:induction false} DigitsArePadded(s: string)
    requires AllDigits(s)
    ensures Padded(Value(s), |s|) == s && Value(s) < Pow10(|s|)
  {
    if s != "" {
      DigitsArePadded(s[..|s| - 1]);
    }
  }

  /** The text of an integer is the one without superfluous zeros or signs that is read as it. */
  lemma IntText(i: int, s: string)
    ensures s == PrintInt(i) <==>
            && ParseInt(s) == Some(i)
            && (Canonical(s) || (s != "" && s[0] == '-' && Canonical(s[1..]) && i != 0))
  {
    hide Decimal;
    hide Value;
    IntRoundTrip(i);
    DecimalIsCanonical(if i < 0 then -i else i);
    if Canonical(s) {
      CanonicalIsDecimal(s);
    } else if s != "" && Canonical(s[1..]) {
      CanonicalIsDecimal(s[1..]);
    }
  }

  /** Such digits, a point and six digits. */
  ghost predicate SixDecimals(s: string) {
    exists whole, fraction :: s == whole + "." + fraction && Canonical(whole) && AllDigits(fraction) && |fraction| == 6
  }

  lemma FixedText(u: nat, s: string)
    ensures s == Fixed(u) <==> ParseFixed(s) == Some(u) && SixDecimals(s)
  {
    hide ParseFixed;
    hide Fixed;
    FixedRoundTrip(u);
    FixedHasSixDecimals(u);
    if whole, fraction :| s == whole + "." + fraction && Canonical(whole) && AllDigits(fraction) && |fraction| == 6 {
      SixDecimalsAreFixed(whole, fraction);
    }
  }

  lemma FixedHasSixDecimals(u: nat)
    ensures SixDecimals(Fixed(u))
  {
    hide Decimal;
    hide Padded;
    DecimalIsCanonical(u / 1_000_000);
    assert Pow10(6) == 1_000_000;
    PaddedRoundTrip(u % 1_000_000, 6);
  }

  lemma SixDecimalsAreFixed(whole: string, fraction: string)
    requires Canonical(whole) && AllDigits(fraction) && |fraction| == 6
    ensures ParseFixed(whole + "." + fraction).Some?
    ensures Fixed(ParseFixed(whole + "." + fraction).value) == whole + "." + fraction
  {
    hide Decimal;
    hide Padded;
    hide Value;
    SplitAtFirst(whole, '.', fraction);
    SplitPlain(fraction, '.');
    CanonicalIsDecimal(whole);
    DigitsArePadded(fraction);
    assert Pow10(0) == 1 && Pow10(6) == 1_000_000;
  }

  /** The text of a rate is the one with six decimals that is read as it. */
  lemma RateText(u: int, s: string)
    ensures s == PrintRate(u) <==>
            && ParseRate(s) == Some(u)
            && (SixDecimals(s) || (s != "" && s[0] == '-' && SixDecimals(s[1..]) && u != 0))
  {
    hide Fixed;
    hide ParseFixed;
    hide SixDecimals;
    var n := if u < 0 then -u else u;
    FixedRoundTrip(n);
    if s != "" && s[0] == '-' {
      NoSign(s);
      FixedText(n, s[1..]);
      assert s == "-" + s[1..] && ("-" + Fixed(n))[1..] == Fixed(n);
    } else {
      FixedText(n, s);
    }
  }

  lemma NoSign(s: string)
    requires s != "" && s[0] == '-'
    ensures !SixDecimals(s)
  {
  }

  // ----- lines -----

  /** Every line with its line break. */
  function Unlines(lines: seq<string>): string {
    if lines == [] then "" else Unlines(lines[..|lines| - 1]) + lines[|lines| - 1] + "\n"
  }

  /** text.splitlines() of a text whose only line break is \n. */
  function Lines(text: string): seq<string> {
    var parts := Split(text, '\n');
    if parts[|parts| - 1] == "" then parts[..|parts| - 1] else parts
  }

  lemma {:induction false} SplitUnlines(lines: seq<string>, rest: string)
    requires forall i :: 0 <= i < |lines| ==> '\n' !in lines[i]
    ensures Split(Unlines(lines) + rest, '\n') == lines + Split(rest, '\n')
  {
    hide Split;
    if lines == [] {
      assert Unlines(lines) + rest == rest;
    } else {
      var n := |lines| - 1;
      var init, last := lines[..n], lines[n];
      SplitUnlines(init, last + ['\n'] + rest);
      SplitAtFirst(last, '\n', rest);
      MoveBreak(Unlines(init), last, rest);
      AppendLast(init, last, Split(rest, '\n'));
      assert init + [last] == lines;
    }
  }

  lemma MoveBreak(a: string, b: string, rest: string)
    ensures (a + b + "\n") + rest == a + (b + ['\n'] + rest)
  {
  }

  lemma AppendLast(init: seq<string>, last: string, rest: seq<string>)
    ensures init + ([last] + rest) == (init + [last]) + rest
  {
  }

  lemma LinesRoundTrip(lines: seq<string>)
    requires forall i :: 0 <= i < |lines| ==> '\n' !in lines[i]
    ensures Lines(Unlines(lines)) == lines
  {
    SplitUnlines(lines, "");
    SplitPlain("", '\n');
    assert Unlines(lines) + "" == Unlines(lines);
    assert (lines + [""])[..|lines|] == lines;
  }

  /** The last line may lack its line break. */
  lemma LinesWithTail(lines: seq<string>, tail: string)
    requires (forall i :: 0 <= i < |lines| ==> '\n' !in lines[i]) && '\n' !in tail && tail != ""
    ensures Lines(Unlines(lines) + tail) == lines + [tail]
  {
    SplitUnlines(lines, tail);
    SplitPlain(tail, '\n');
  }
}

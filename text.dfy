/**
 * The few Python string built-ins the core relies on: `str.split()` with no
 * argument, `float(...)` and `int(...)` on a token, `s.split('_')[-1]` and the
 * substring test `t in s`.
 */
module Text {
  import opened Wrappers

  /** The characters `str.isspace()` accepts, which `str.split()` treats as separators. */
  predicate IsSpace(c: char) {
    c == ' ' || ('\t' <= c <= '\r') || ('\U{1c}' <= c <= '\U{1f}')
    || c == '\U{85}' || c == '\U{a0}' || c == '\U{1680}'
    || ('\U{2000}' <= c <= '\U{200a}') || c == '\U{2028}' || c == '\U{2029}'
    || c == '\U{202f}' || c == '\U{205f}' || c == '\U{3000}'
  }

  predicate IsDigit(c: char) {
    '0' <= c <= '9'
  }

  /** A token as `str.split()` produces it: not empty and free of separators. */
  predicate IsWord(w: string) {
    w != [] && forall i :: 0 <= i < |w| ==> !IsSpace(w[i])
  }

  predicate AllDigits(d: string) {
    forall i :: 0 <= i < |d| ==> IsDigit(d[i])
  }

  // ---------------------------------------------------------------------------
  // str.split()

  /** Length of the longest prefix of `s` without a separator. */
  function WordSpan(s: string): (n: nat)
    ensures n <= |s|
    ensures s != [] && !IsSpace(s[0]) ==> n > 0
    ensures forall i :: 0 <= i < n ==> !IsSpace(s[i])
    ensures n < |s| ==> IsSpace(s[n])
  {
    if s == [] || IsSpace(s[0]) then 0 else 1 + WordSpan(s[1..])
  }

  /** `s` without its leading separators. */
  function SkipSpaces(s: string): (t: string)
    ensures |t| <= |s|
    ensures t != [] ==> !IsSpace(t[0])
  {
    if s != [] && IsSpace(s[0]) then SkipSpaces(s[1..]) else s
  }

  /** Python's `s.split()`: the maximal runs of non-separator characters, in order. */
  function Split(s: string): (ws: seq<string>)
    ensures forall k :: 0 <= k < |ws| ==> IsWord(ws[k])
    decreases |s|
  {
    var t := SkipSpaces(s);
    if t == [] then []
    else
      var n := WordSpan(t);
      [t[..n]] + Split(t[n..])
  }

  /** Python's `" ".join(ws)`. */
  function Join(ws: seq<string>): string {
    if ws == [] then ""
    else if |ws| == 1 then ws[0]
    else ws[0] + " " + Join(ws[1..])
  }

  lemma {:induction false} WordSpanOfWord(w: string, rest: string)
    requires forall i :: 0 <= i < |w| ==> !IsSpace(w[i])
    requires rest == [] || IsSpace(rest[0])
    ensures WordSpan(w + rest) == |w|
  {
    if w != [] {
      assert (w + rest)[1..] == w[1..] + rest;
      WordSpanOfWord(w[1..], rest);
    }
  }

  /** A leading separator does not change the words. */
  lemma SplitLeadingSpace(c: char, s: string)
    requires IsSpace(c)
    ensures Split([c] + s) == Split(s)
  {
    assert ([c] + s)[1..] == s;
    assert SkipSpaces([c] + s) == SkipSpaces(s);
  }

  /** Past a word that stops before the end, more text does not lengthen it. */
  lemma {:induction false} WordSpanAppend(a: string, x: string)
    requires WordSpan(a) < |a|
    ensures WordSpan(a + x) == WordSpan(a)
  {
    if !IsSpace(a[0]) {
      assert (a + x)[1..] == a[1..] + x;
      WordSpanAppend(a[1..], x);
    }
  }

  /** A word on its own splits into itself. */
  lemma SplitWord(w: string)
    requires IsWord(w)
    ensures Split(w) == [w]
  {
    assert SkipSpaces(w) == w;
    WordSpanOfWord(w, []);
    assert w + [] == w;
    assert w[..|w|] == w && w[|w|..] == [];
  }

  /** A word followed by a separator contributes itself and nothing else. */
  lemma SplitAfterWord(a: string, c: char, b: string)
    requires IsWord(a) && IsSpace(c)
    ensures Split(a + [c] + b) == [a] + Split(b)
  {
    var s := a + ([c] + b);
    assert a + [c] + b == s;
    assert SkipSpaces(s) == s;
    WordSpanOfWord(a, [c] + b);
    assert s[..|a|] == a && s[|a|..] == [c] + b;
    SplitLeadingSpace(c, b);
  }

  /** Text starting with a word that stops before its end: the word, then the rest. */
  lemma SplitCutWord(a: string, x: string)
    requires a != [] && !IsSpace(a[0]) && WordSpan(a) < |a|
    ensures Split(a + x) == [a[..WordSpan(a)]] + Split(a[WordSpan(a)..] + x)
  {
    var n := WordSpan(a);
    var s := a + x;
    assert SkipSpaces(s) == s;
    WordSpanAppend(a, x);
    assert s[..n] == a[..n];
    assert s[n..] == a[n..] + x;
  }

  /**
   * Any separator character cuts the text in two: the words are those of the
   * left part followed by those of the right part. With SplitWord this fixes
   * Split on every text.
   */
  lemma {:induction false} SplitAtSpace(a: string, c: char, b: string)
    requires IsSpace(c)
    ensures Split(a + [c] + b) == Split(a) + Split(b)
    decreases |a|, 1
  {
    if a == [] {
      assert a + [c] + b == [c] + b;
      SplitLeadingSpace(c, b);
    } else if IsSpace(a[0]) {
      SplitAtSpaceAfterSpace(a, c, b);
    } else if WordSpan(a) < |a| {
      SplitAtSpaceAfterWord(a, c, b);
    } else {
      SplitAfterWord(a, c, b);
      SplitWord(a);
    }
  }

  /** SplitAtSpace when the left part starts with a separator. */
  lemma {:induction false} SplitAtSpaceAfterSpace(a: string, c: char, b: string)
    requires IsSpace(c) && a != [] && IsSpace(a[0])
    ensures Split(a + [c] + b) == Split(a) + Split(b)
    decreases |a|, 0
  {
    assert a + [c] + b == [a[0]] + (a[1..] + [c] + b);
    SplitLeadingSpace(a[0], a[1..] + [c] + b);
    assert a == [a[0]] + a[1..];
    SplitLeadingSpace(a[0], a[1..]);
    SplitAtSpace(a[1..], c, b);
  }

  /** SplitAtSpace when the left part starts with a word that ends inside it. */
  lemma {:induction false} SplitAtSpaceAfterWord(a: string, c: char, b: string)
    requires IsSpace(c) && a != [] && !IsSpace(a[0]) && WordSpan(a) < |a|
    ensures Split(a + [c] + b) == Split(a) + Split(b)
    decreases |a|, 0
  {
    var n := WordSpan(a);
    var w, r := a[..n], a[n..];
    SplitCutWordBefore(a, c, b);
    SplitCutWordAlone(a);
    SplitAtSpace(r, c, b);
    SameHead(Split(a + [c] + b), Split(r + [c] + b), Split(a), Split(r), Split(b), w);
  }

  lemma SameHead<T>(x: seq<T>, y: seq<T>, z: seq<T>, l: seq<T>, tail: seq<T>, w: T)
    requires x == [w] + y && z == [w] + l && y == l + tail
    ensures x == z + tail
  {
    assert [w] + (l + tail) == [w] + l + tail;
  }

  lemma SplitCutWordBefore(a: string, c: char, b: string)
    requires a != [] && !IsSpace(a[0]) && WordSpan(a) < |a|
    ensures Split(a + [c] + b) == [a[..WordSpan(a)]] + Split(a[WordSpan(a)..] + [c] + b)
  {
    SplitCutWord(a, [c] + b);
    assert a + [c] + b == a + ([c] + b);
    assert a[WordSpan(a)..] + ([c] + b) == a[WordSpan(a)..] + [c] + b;
  }

  lemma SplitCutWordAlone(a: string)
    requires a != [] && !IsSpace(a[0]) && WordSpan(a) < |a|
    ensures Split(a) == [a[..WordSpan(a)]] + Split(a[WordSpan(a)..])
  {
    SplitCutWord(a, []);
    assert a + [] == a && a[WordSpan(a)..] + [] == a[WordSpan(a)..];
  }

  lemma {:induction false} SplitJoin(ws: seq<string>)
    requires forall k :: 0 <= k < |ws| ==> IsWord(ws[k])
    ensures Split(Join(ws)) == ws
  {
    if ws != [] {
      var w := ws[0];
      var rest := if |ws| == 1 then "" else " " + Join(ws[1..]);
      var s := w + rest;
      assert Join(ws) == s;
      assert SkipSpaces(s) == s;
      WordSpanOfWord(w, rest);
      assert s[..|w|] == w;
      assert s[|w|..] == rest;
      assert Split(s) == [w] + Split(rest);
      if |ws| > 1 {
        assert forall k :: 0 <= k < |ws[1..]| ==> IsWord(ws[1..][k]);
        SplitJoin(ws[1..]);
        SplitLeadingSpace(' ', Join(ws[1..]));
        assert Split(rest) == ws[1..];
      }
      assert ws == [w] + ws[1..];
    }
  }

  /** `s` without its trailing separators. */
  function TrimEnd(s: string): (t: string)
    ensures |t| <= |s| && t == s[..|t|]
    ensures t != [] ==> !IsSpace(t[|t| - 1])
  {
    if s != [] && IsSpace(s[|s| - 1]) then TrimEnd(s[..|s| - 1]) else s
  }

  lemma {:induction false} SkipSpacesDrops(s: string)
    ensures SkipSpaces(s) == s[|s| - |SkipSpaces(s)|..]
    ensures forall k :: 0 <= k < |s| - |SkipSpaces(s)| ==> IsSpace(s[k])
  {
    if s != [] && IsSpace(s[0]) {
      SkipSpacesDrops(s[1..]);
    }
  }

  lemma {:induction false} TrimEndDrops(s: string)
    ensures forall k :: |TrimEnd(s)| <= k < |s| ==> IsSpace(s[k])
  {
    if s != [] && IsSpace(s[|s| - 1]) {
      TrimEndDrops(s[..|s| - 1]);
    }
  }

  /**
   * Python's `s.strip()`: a slice of `s` with only separators outside it,
   * which neither starts nor ends with a separator.
   */
  function Strip(s: string): (t: string)
    ensures |t| <= |s|
    ensures t != [] ==> !IsSpace(t[0]) && !IsSpace(t[|t| - 1])
    ensures exists i :: SliceAmidSpaces(s, t, i)
  {
    var u := SkipSpaces(s);
    var t := TrimEnd(u);
    SkipSpacesDrops(s);
    TrimEndDrops(u);
    StripSlice(s, u, t);
    t
  }

  /** A slice `t` of a suffix `u` of `s`, each with only separators cut off, lies amid separators in `s`. */
  lemma StripSlice(s: string, u: string, t: string)
    requires |u| <= |s| && u == s[|s| - |u|..]
    requires forall k :: 0 <= k < |s| - |u| ==> IsSpace(s[k])
    requires |t| <= |u| && t == u[..|t|]
    requires forall k :: |t| <= k < |u| ==> IsSpace(u[k])
    ensures SliceAmidSpaces(s, t, |s| - |u|)
  {
    var i := |s| - |u|;
    assert t == s[i..i + |t|];
    forall k | i + |t| <= k < |s|
      ensures IsSpace(s[k])
    {
      assert s[k] == u[k - i];
    }
    assert SliceAmidSpaces(s, t, i);
  }

  /** `t` is the slice of `s` at `i`, with only separators before and after it. */
  ghost predicate SliceAmidSpaces(s: string, t: string, i: int) {
    && 0 <= i <= |s| - |t| && t == s[i..i + |t|]
    && (forall k :: 0 <= k < i ==> IsSpace(s[k]))
    && (forall k :: i + |t| <= k < |s| ==> IsSpace(s[k]))
  }

  /** Words joined by spaces neither start nor end with a separator. */
  lemma {:induction false} JoinEnds(ws: seq<string>)
    requires ws != []
    requires forall k :: 0 <= k < |ws| ==> IsWord(ws[k])
    ensures var s := Join(ws); s != [] && !IsSpace(s[0]) && !IsSpace(s[|s| - 1])
  {
    if |ws| > 1 {
      JoinEnds(ws[1..]);
      var s := Join(ws);
      assert s == ws[0] + " " + Join(ws[1..]);
      assert s[|s| - 1] == Join(ws[1..])[|Join(ws[1..])| - 1];
    }
  }

  /** Stripping text made of words joined by spaces changes nothing. */
  lemma StripJoin(ws: seq<string>)
    requires forall k :: 0 <= k < |ws| ==> IsWord(ws[k])
    ensures Strip(Join(ws)) == Join(ws)
  {
    var s := Join(ws);
    if ws != [] {
      JoinEnds(ws);
      assert SkipSpaces(s) == s;
      assert TrimEnd(s) == s;
    } else {
      assert s == [];
    }
  }

  // ---------------------------------------------------------------------------
  // Decimal digits

  function DigitValue(c: char): nat
    requires IsDigit(c)
  {
    c as int - '0' as int
  }

  function DigitChar(k: nat): (c: char)
    requires k < 10
    ensures IsDigit(c) && DigitValue(c) == k
  {
    ('0' as int + k) as char
  }

  /** Length of the longest prefix of `s` made of decimal digits. */
  function DigitSpan(s: string): (n: nat)
    ensures n <= |s| && AllDigits(s[..n])
    ensures n < |s| ==> !IsDigit(s[n])
  {
    if s == [] || !IsDigit(s[0]) then 0 else 1 + DigitSpan(s[1..])
  }

  /** The number a string of decimal digits denotes (most significant first). */
  function DigitsValue(d: string): nat
    requires AllDigits(d)
  {
    if d == [] then 0 else 10 * DigitsValue(d[..|d| - 1]) + DigitValue(d[|d| - 1])
  }

  /** The shortest decimal numeral of `n`. */
  function NatToText(n: nat): (d: string)
    ensures d != [] && AllDigits(d)
  {
    if n < 10 then [DigitChar(n)] else NatToText(n / 10) + [DigitChar(n % 10)]
  }

  lemma {:induction false} NatToTextRoundTrip(n: nat)
    ensures DigitsValue(NatToText(n)) == n
  {
    var d := NatToText(n);
    if n >= 10 {
      NatToTextRoundTrip(n / 10);
      assert d[..|d| - 1] == NatToText(n / 10);
    }
  }

  function IntToText(n: int): (s: string) {
    if n < 0 then "-" + NatToText(-n) else NatToText(n)
  }

  /** 1 when `s` starts with a sign, 0 otherwise. */
  function SignSpan(s: string): (k: nat)
    ensures k <= |s|
  {
    if s != [] && (s[0] == '+' || s[0] == '-') then 1 else 0
  }

  /** Python's `int(s)` on an optional sign followed by decimal digits; None where `int` raises. */
  function ParseInt(s: string): (r: Option<int>)
    ensures r.Some? ==> SignSpan(s) < |s| && AllDigits(s[SignSpan(s)..])
    ensures r.Some? && s[0] != '-' ==> r.value >= 0
  {
    var k := SignSpan(s);
    var d := s[k..];
    if d != [] && DigitSpan(d) == |d| then
      var v: int := if k == 1 && s[0] == '-' then 0 - DigitsValue(d) as int else DigitsValue(d);
      Some(v)
    else None
  }

  /**
   * `int()` reads any optional sign followed by digits, leading zeros
   * included ("+5", "05", "-0"): the digits' value, negated after a minus sign.
   */
  lemma ParseIntOfDigits(sign: string, d: string)
    requires sign == "" || sign == "+" || sign == "-"
    requires AllDigits(d) && d != []
    ensures ParseInt(sign + d) == Some(if sign == "-" then -(DigitsValue(d) as int) else DigitsValue(d) as int)
  {
    SignThenDigits(sign + d, sign, d);
    DigitSpanAll(d);
  }

  /** The sign `int()` and `float()` skip in front of digits is exactly `sign`. */
  lemma SignThenDigits(s: string, sign: string, d: string)
    requires sign == "" || sign == "+" || sign == "-"
    requires AllDigits(d) && d != [] && s == sign + d
    ensures SignSpan(s) == |sign| && s[SignSpan(s)..] == d
    ensures (SignSpan(s) == 1 && s[0] == '-') == (sign == "-")
  {
    assert s[|sign|..] == d;
  }

  lemma ParseIntRoundTrip(n: int)
    ensures ParseInt(IntToText(n)) == Some(n)
  {
    var s := IntToText(n);
    var m := if n < 0 then -n else n;
    var d := NatToText(m);
    NatToTextRoundTrip(m);
    assert SignSpan(s) == (if n < 0 then 1 else 0);
    assert s[SignSpan(s)..] == d;
    DigitSpanAll(d);
  }

  lemma {:induction false} DigitSpanAll(d: string)
    requires AllDigits(d)
    ensures DigitSpan(d) == |d|
  {
    if d != [] {
      DigitSpanAll(d[1..]);
    }
  }

  // ---------------------------------------------------------------------------
  // float()

  /** `v` with its decimal point moved `e` places to the right (to the left when e < 0): v * 10^e. */
  function Shift(v: real, e: int): real
    decreases if e >= 0 then e else -e
  {
    if e == 0 then v
    else if e > 0 then 10.0 * Shift(v, e - 1)
    else Shift(v, e + 1) / 10.0
  }

  /** The number a run of decimal digits denotes, computed over the reals. */
  function DigitsReal(d: string): real
    requires AllDigits(d)
  {
    if d == [] then 0.0 else 10.0 * DigitsReal(d[..|d| - 1]) + DigitValue(d[|d| - 1]) as real
  }

  /** The fraction `0.f` written by the digits `f` after a decimal point. */
  function FractionValue(f: string): real
    requires AllDigits(f)
  {
    Shift(DigitsReal(f), -|f|)
  }

  /** The optional exponent part of a float literal: empty, or `e`/`E` then an integer. */
  function ParseExponent(t: string): Option<int> {
    if t == [] then Some(0)
    else if t[0] == 'e' || t[0] == 'E' then ParseInt(t[1..])
    else None
  }

  /**
   * The unsigned part of a decimal literal: digits with an optional decimal
   * point (at least one digit overall), then an optional exponent. None where
   * `float` raises.
   */
  function ParseMagnitude(body: string): (r: Option<real>)
    ensures r.Some? ==> exists i :: 0 <= i < |body| && IsDigit(body[i])
  {
    var i := DigitSpan(body);
    var whole := body[..i];
    var afterWhole := body[i..];
    var hasPoint := afterWhole != [] && afterWhole[0] == '.';
    var fracText := if hasPoint then afterWhole[1..] else afterWhole;
    var f := if hasPoint then DigitSpan(fracText) else 0;
    var frac := fracText[..f];
    var tail := fracText[f..];
    if |whole| + |frac| == 0 then None
    else match ParseExponent(tail)
      case None => None
      case Some(e) =>
        assert AllDigits(whole + frac);
        assert i > 0 ==> IsDigit(body[0]);
        assert i == 0 ==> body[1] == fracText[0] && IsDigit(fracText[0]);
        Some(Magnitude(whole + frac, |frac|, e))
  }

  /**
   * The number denoted by `digits` with the last `fracLen` of them after the
   * point, times 10^e.
   */
  function Magnitude(digits: string, fracLen: nat, e: int): real
    requires AllDigits(digits)
  {
    Shift(DigitsReal(digits), e - fracLen)
  }

  /** Python's `float(s)` on a decimal literal: an optional sign, then the magnitude. */
  function ParseFloat(s: string): (r: Option<real>)
    ensures r.Some? ==> exists i :: 0 <= i < |s| && IsDigit(s[i])
  {
    var k := SignSpan(s);
    match ParseMagnitude(s[k..])
    case None => None
    case Some(m) =>
      assert exists i :: 0 <= i < |s| && IsDigit(s[i]) by {
        var j :| 0 <= j < |s[k..]| && IsDigit(s[k..][j]);
        assert s[k + j] == s[k..][j];
      }
      Some(if k == 1 && s[0] == '-' then -m else m)
  }

  /**
   * Every decimal literal reads as the number it denotes: an optional sign,
   * whole digits `w`, an optional point with fraction digits `f` (at least one
   * digit in all) and an exponent text `x` that is empty or `e`/`E` followed by
   * an integer with optional sign and leading zeros: the whole number `w` plus
   * the fraction `0.f`, times ten to the exponent, negated after a minus sign.
   */
  lemma ParseFloatLiteral(sign: string, w: string, point: bool, f: string, x: string)
    requires sign == "" || sign == "+" || sign == "-"
    requires AllDigits(w) && AllDigits(f) && |w| + |f| > 0
    requires !point ==> f == []
    requires ParseExponent(x).Some?
    ensures ParseFloat(sign + w + (if point then "." + f else "") + x) ==
      Reading(sign == "-", Shift(DigitsReal(w) + FractionValue(f), ParseExponent(x).value))
  {
    var lit := sign + w + (if point then "." + f else "") + x;
    SignedLiteral(sign, w, point, f, x);
    SignedParts(ParseFloat(lit), w, f, ParseExponent(x).value, sign == "-");
  }

  /**
   * `s` spelled as a decimal literal: a sign, whole digits `w`, a point with
   * fraction digits `f` when `point` holds (at least one digit in all), and an
   * exponent text `x` that ParseExponent reads.
   */
  predicate LiteralOf(s: string, sign: string, w: string, point: bool, f: string, x: string) {
    && (sign == "" || sign == "+" || sign == "-")
    && AllDigits(w) && AllDigits(f) && |w| + |f| > 0
    && (!point ==> f == [])
    && ParseExponent(x).Some?
    && s == sign + w + (if point then "." + f else "") + x
  }

  /**
   * float() reads exactly the decimal literals: every literal is read, and a
   * text that is read is a literal, whose value ParseFloatLiteral gives. So
   * "12abc", "1.2.3", "." or "e5" are refused.
   */
  lemma ParseFloatExactlyLiterals(s: string)
    ensures (exists sign, w, point, f, x :: LiteralOf(s, sign, w, point, f, x)) ==> ParseFloat(s).Some?
    ensures ParseFloat(s).Some? ==>
      exists sign, w, point, f, x ::
        && LiteralOf(s, sign, w, point, f, x)
        && ParseFloat(s) == Reading(sign == "-", Shift(DigitsReal(w) + FractionValue(f), ParseExponent(x).value))
  {
    LiteralsAreRead(s);
    ReadIsLiteral(s);
  }

  /** Every literal is read. */
  lemma LiteralsAreRead(s: string)
    ensures (exists sign, w, point, f, x :: LiteralOf(s, sign, w, point, f, x)) ==> ParseFloat(s).Some?
  {
    forall sign, w, point, f, x | LiteralOf(s, sign, w, point, f, x)
      ensures ParseFloat(s).Some?
    {
      AcceptsLiteral(s, sign, w, point, f, x);
    }
  }

  lemma AcceptsLiteral(s: string, sign: string, w: string, point: bool, f: string, x: string)
    requires LiteralOf(s, sign, w, point, f, x)
    ensures ParseFloat(s).Some?
  {
    ReadsLiteral(s, sign, w, point, f, x);
  }

  /** A text that is read is a literal, with the value ParseFloatLiteral gives. */
  lemma ReadIsLiteral(s: string)
    ensures ParseFloat(s).Some? ==>
      exists sign, w, point, f, x ::
        && LiteralOf(s, sign, w, point, f, x)
        && ParseFloat(s) == Reading(sign == "-", Shift(DigitsReal(w) + FractionValue(f), ParseExponent(x).value))
  {
    if ParseFloat(s).Some? {
      var sign, w, point, f, x := LiteralParts(s);
      ReadsLiteral(s, sign, w, point, f, x);
    }
  }

  /** ParseFloatLiteral, for a text already known to be the literal. */
  lemma ReadsLiteral(s: string, sign: string, w: string, point: bool, f: string, x: string)
    requires LiteralOf(s, sign, w, point, f, x)
    ensures ParseFloat(s) == Reading(sign == "-", Shift(DigitsReal(w) + FractionValue(f), ParseExponent(x).value))
  {
    ParseFloatLiteral(sign, w, point, f, x);
  }

  /** A text float() reads, cut into its sign and the parts of its magnitude. */
  lemma LiteralParts(s: string) returns (sign: string, w: string, point: bool, f: string, x: string)
    requires ParseFloat(s).Some?
    ensures LiteralOf(s, sign, w, point, f, x)
  {
    var body;
    sign, body := SignCut(s);
    w, point, f, x := MagnitudeParts(body);
    SignedLiteralOf(s, sign, body, w, point, f, x);
  }

  /** A sign in front of an unsigned literal makes a literal. */
  lemma SignedLiteralOf(s: string, sign: string, body: string, w: string, point: bool, f: string, x: string)
    requires sign == "" || sign == "+" || sign == "-"
    requires s == sign + body
    requires AllDigits(w) && AllDigits(f) && |w| + |f| > 0 && (!point ==> f == [])
    requires ParseExponent(x).Some?
    requires body == w + (if point then "." + f else "") + x
    ensures LiteralOf(s, sign, w, point, f, x)
  {
    var p := if point then "." + f else "";
    assert sign + w + p + x == sign + (w + p + x);
  }

  /** The sign float() skips, and the unsigned part it reads after it. */
  lemma SignCut(s: string) returns (sign: string, body: string)
    requires ParseFloat(s).Some?
    ensures sign == "" || sign == "+" || sign == "-"
    ensures s == sign + body && ParseMagnitude(body).Some?
  {
    var k := SignSpan(s);
    sign, body := s[..k], s[k..];
    assert s == sign + body;
  }

  /** An unsigned part ParseMagnitude reads, cut into whole digits, fraction digits and exponent text. */
  lemma MagnitudeParts(body: string) returns (w: string, point: bool, f: string, x: string)
    requires ParseMagnitude(body).Some?
    ensures AllDigits(w) && AllDigits(f) && |w| + |f| > 0
    ensures !point ==> f == []
    ensures ParseExponent(x).Some?
    ensures body == w + (if point then "." + f else "") + x
  {
    w, point, f, x := CutMagnitude(body);
  }

  /**
   * The pieces ParseMagnitude cuts `body` into: the leading digits, whether a
   * point follows, the digits after it and the rest.
   */
  lemma CutMagnitude(body: string) returns (w: string, point: bool, f: string, x: string)
    ensures var i := DigitSpan(body);
      var a := body[i..];
      var hasPoint := a != [] && a[0] == '.';
      var fracText := if hasPoint then a[1..] else a;
      var n := if hasPoint then DigitSpan(fracText) else 0;
      w == body[..i] && point == hasPoint && f == fracText[..n] && x == fracText[n..]
    ensures AllDigits(w) && AllDigits(f) && (!point ==> f == [])
    ensures body == w + (if point then "." + f else "") + x
  {
    var i := DigitSpan(body);
    w := body[..i];
    var a := body[i..];
    point := a != [] && a[0] == '.';
    var fracText := if point then a[1..] else a;
    var n := if point then DigitSpan(fracText) else 0;
    f := fracText[..n];
    x := fracText[n..];
    PointCut(a, point, fracText, f, x);
    assert body == body[..i] + body[i..];
    Rejoin(body, w, a, if point then "." + f else "", x);
  }

  lemma Rejoin(body: string, w: string, a: string, p: string, x: string)
    requires body == w + a && a == p + x
    ensures body == w + p + x
  {
  }

  /** After the whole digits: the point, if any, then the fraction digits and the rest. */
  lemma PointCut(a: string, point: bool, fracText: string, f: string, x: string)
    requires point == (a != [] && a[0] == '.')
    requires fracText == (if point then a[1..] else a)
    requires 0 <= |f| <= |fracText| && f == fracText[..|f|] && x == fracText[|f|..]
    requires !point ==> f == []
    ensures a == (if point then "." + f else "") + x
  {
    assert fracText == f + x;
    if point {
      assert a == [a[0]] + a[1..] == "." + (f + x) == ("." + f) + x;
    }
  }

  /** What a literal of magnitude `m` reads as: `m`, negated after a minus sign. */
  function Reading(negative: bool, m: real): Option<real> {
    Some(if negative then -m else m)
  }

  /** A signed magnitude, restated by whole digits and fraction. */
  lemma SignedParts(r: Option<real>, w: string, f: string, k: int, negative: bool)
    requires AllDigits(w) && AllDigits(f) && AllDigits(w + f)
    requires r == Reading(negative, Magnitude(w + f, |f|, k))
    ensures r == Reading(negative, Shift(DigitsReal(w) + FractionValue(f), k))
  {
    MagnitudeOfParts(w, f, k);
  }

  /** ParseFloat of a literal: its sign applied to the magnitude of the rest. */
  lemma SignedLiteral(sign: string, w: string, point: bool, f: string, x: string)
    requires sign == "" || sign == "+" || sign == "-"
    requires AllDigits(w) && AllDigits(f) && |w| + |f| > 0
    requires !point ==> f == []
    requires ParseExponent(x).Some?
    ensures AllDigits(w + f)
    ensures ParseFloat(sign + w + (if point then "." + f else "") + x) ==
      Reading(sign == "-", Magnitude(w + f, |f|, ParseExponent(x).value))
  {
    var body := w + ((if point then "." + f else "") + x);
    LiteralShape(sign, w, point, f, x);
    MagnitudeLiteral(w, point, f, x);
    SignedMagnitude(sign + w + (if point then "." + f else "") + x, sign, body,
                    Magnitude(w + f, |f|, ParseExponent(x).value));
  }

  /** A literal is its sign followed by an unsigned part that starts with a digit or the point. */
  lemma LiteralShape(sign: string, w: string, point: bool, f: string, x: string)
    requires AllDigits(w) && |w| + |f| > 0
    requires !point ==> f == []
    ensures var body := w + ((if point then "." + f else "") + x);
      && sign + w + (if point then "." + f else "") + x == sign + body
      && body != [] && body[0] != '+' && body[0] != '-'
  {
    var p := if point then "." + f else "";
    var body := w + (p + x);
    assert sign + w + p + x == sign + body;
    assert body[0] == (if w != [] then w[0] else '.');
  }

  /** A sign in front of an unsigned literal: only "-" negates its magnitude. */
  lemma SignedMagnitude(s: string, sign: string, body: string, m: real)
    requires sign == "" || sign == "+" || sign == "-"
    requires s == sign + body && body != [] && body[0] != '+' && body[0] != '-'
    requires ParseMagnitude(body) == Some(m)
    ensures ParseFloat(s) == Reading(sign == "-", m)
  {
    assert SignSpan(s) == |sign| && s[|sign|..] == body;
    assert (SignSpan(s) == 1 && s[0] == '-') == (sign == "-");
    ParseFloatOfMagnitude(s, m);
  }

  /** ParseFloat applies the sign, if any, to the magnitude of the rest. */
  lemma ParseFloatOfMagnitude(s: string, m: real)
    requires ParseMagnitude(s[SignSpan(s)..]) == Some(m)
    ensures ParseFloat(s) == Reading(SignSpan(s) == 1 && s[0] == '-', m)
  {
  }

  /** The magnitude of an unsigned literal, by its whole digits, fraction digits and exponent. */
  lemma MagnitudeLiteral(w: string, point: bool, f: string, x: string)
    requires AllDigits(w) && AllDigits(f) && |w| + |f| > 0
    requires !point ==> f == []
    requires ParseExponent(x).Some?
    ensures AllDigits(w + f)
    ensures ParseMagnitude(w + ((if point then "." + f else "") + x))
         == Some(Magnitude(w + f, |f|, ParseExponent(x).value))
  {
    var p := if point then "." + f else "";
    var body := w + (p + x);
    assert x != [] ==> x[0] == 'e' || x[0] == 'E';
    assert p + x != [] ==> (p + x)[0] == (if point then '.' else x[0]);
    DigitSpanOfDigits(w, p + x);
    assert body[..|w|] == w && body[|w|..] == p + x;
    FractionTail(p, x, point, f);
    MagnitudeFromParts(body, w, f, x, ParseExponent(x).value);
  }

  /** ParseMagnitude, once the whole digits, fraction digits and exponent are known. */
  lemma MagnitudeFromParts(body: string, w: string, f: string, x: string, e: int)
    requires AllDigits(w) && AllDigits(f) && |w| + |f| > 0
    requires DigitSpan(body) == |w| && body[..|w|] == w
    requires var a := body[|w|..];
      var hasPoint := a != [] && a[0] == '.';
      var fracText := if hasPoint then a[1..] else a;
      var n := if hasPoint then DigitSpan(fracText) else 0;
      fracText[..n] == f && fracText[n..] == x
    requires ParseExponent(x) == Some(e)
    ensures AllDigits(w + f)
    ensures ParseMagnitude(body) == Some(Magnitude(w + f, |f|, e))
  {
  }

  /** After the whole digits: the fraction digits are `f` and the exponent text is `x`. */
  lemma FractionTail(p: string, x: string, point: bool, f: string)
    requires AllDigits(f) && (!point ==> f == [])
    requires p == (if point then "." + f else "")
    requires x == [] || x[0] == 'e' || x[0] == 'E'
    ensures var afterWhole := p + x;
      var hasPoint := afterWhole != [] && afterWhole[0] == '.';
      var fracText := if hasPoint then afterWhole[1..] else afterWhole;
      var n := if hasPoint then DigitSpan(fracText) else 0;
      hasPoint == point && n == |f| && fracText[..n] == f && fracText[n..] == x
  {
    if point {
      assert (p + x)[0] == '.' && (p + x)[1..] == f + x;
      DigitSpanOfDigits(f, x);
      assert (f + x)[..|f|] == f && (f + x)[|f|..] == x;
    } else {
      assert p + x == x;
    }
  }

  lemma {:induction false} DigitSpanOfDigits(d: string, rest: string)
    requires AllDigits(d)
    requires rest == [] || !IsDigit(rest[0])
    ensures DigitSpan(d + rest) == |d|
  {
    if d != [] {
      assert (d + rest)[1..] == d[1..] + rest;
      DigitSpanOfDigits(d[1..], rest);
    } else {
      assert d + rest == rest;
    }
  }

  /** The magnitude of digits `w + f` with |f| after the point: the whole number `w` plus `0.f`, scaled. */
  lemma MagnitudeOfParts(w: string, f: string, e: int)
    requires AllDigits(w) && AllDigits(f)
    ensures AllDigits(w + f)
    ensures Magnitude(w + f, |f|, e) == Shift(DigitsReal(w) + FractionValue(f), e)
  {
    FractionOfParts(w, f);
    ShiftCompose(DigitsReal(w + f), -|f|, e);
  }

  /** Digits `w + f` with |f| of them after the point: the whole number `w` plus the fraction `0.f`. */
  lemma FractionOfParts(w: string, f: string)
    requires AllDigits(w) && AllDigits(f)
    ensures AllDigits(w + f)
    ensures Shift(DigitsReal(w + f), -|f|) == DigitsReal(w) + FractionValue(f)
  {
    DigitsRealAppend(w, f);
    ShiftAdd(Shift(DigitsReal(w), |f|), DigitsReal(f), -|f|);
    ShiftCompose(DigitsReal(w), |f|, -|f|);
  }

  /** A fraction `0.f` lies in [0, 1). */
  lemma FractionBounds(f: string)
    requires AllDigits(f)
    ensures 0.0 <= FractionValue(f) < 1.0
  {
    DigitsRealBounds(f);
    ShiftMonotone(0.0, DigitsReal(f), -|f|);
    ShiftStrict(DigitsReal(f), Shift(1.0, |f|), -|f|);
    ShiftCompose(1.0, |f|, -|f|);
    ShiftOfZero(-|f|);
  }

  /** `n` digits denote at least 0 and less than 10^n. */
  lemma {:induction false} DigitsRealBounds(d: string)
    requires AllDigits(d)
    ensures 0.0 <= DigitsReal(d) && DigitsReal(d) + 1.0 <= Shift(1.0, |d|)
  {
    if d != [] {
      DigitsRealBounds(d[..|d| - 1]);
    }
  }

  /** The digits of `w` followed by those of `f` denote `w` shifted by |f| places plus `f`. */
  lemma {:induction false} DigitsRealAppend(w: string, f: string)
    requires AllDigits(w) && AllDigits(f)
    ensures AllDigits(w + f)
    ensures DigitsReal(w + f) == Shift(DigitsReal(w), |f|) + DigitsReal(f)
  {
    if f == [] {
      assert w + f == w;
    } else {
      var g := f[..|f| - 1];
      assert (w + f)[..|w + f| - 1] == w + g;
      assert (w + f)[|w + f| - 1] == f[|f| - 1];
      DigitsRealAppend(w, g);
    }
  }

  /** Over the reals, a run of digits denotes the same number as over the naturals. */
  lemma {:induction false} DigitsRealIsValue(d: string)
    requires AllDigits(d)
    ensures DigitsReal(d) == DigitsValue(d) as real
  {
    if d != [] {
      DigitsRealIsValue(d[..|d| - 1]);
    }
  }

  /** One more place to the right multiplies by ten, whatever the sign of `e`. */
  lemma ShiftUp(v: real, e: int)
    ensures Shift(v, e + 1) == 10.0 * Shift(v, e)
  {
  }

  /** Moving the point twice moves it by the sum. */
  lemma {:induction false} ShiftCompose(v: real, a: int, b: int)
    ensures Shift(Shift(v, a), b) == Shift(v, a + b)
    decreases if b >= 0 then b else -b
  {
    if b > 0 {
      ShiftCompose(v, a, b - 1);
      ShiftUp(v, a + b - 1);
    } else if b < 0 {
      ShiftCompose(v, a, b + 1);
      ShiftUp(v, a + b);
    }
  }

  /** Moving the point distributes over a sum. */
  lemma {:induction false} ShiftAdd(x: real, y: real, e: int)
    ensures Shift(x + y, e) == Shift(x, e) + Shift(y, e)
    decreases if e >= 0 then e else -e
  {
    if e > 0 {
      ShiftAdd(x, y, e - 1);
    } else if e < 0 {
      ShiftAdd(x, y, e + 1);
    }
  }

  lemma {:induction false} ShiftOfZero(e: int)
    ensures Shift(0.0, e) == 0.0
    decreases if e >= 0 then e else -e
  {
    if e > 0 {
      ShiftOfZero(e - 1);
    } else if e < 0 {
      ShiftOfZero(e + 1);
    }
  }

  /** Moving the point keeps the order of two numbers. */
  lemma {:induction false} ShiftMonotone(x: real, y: real, e: int)
    requires x <= y
    ensures Shift(x, e) <= Shift(y, e)
    decreases if e >= 0 then e else -e
  {
    if e > 0 {
      ShiftMonotone(x, y, e - 1);
    } else if e < 0 {
      ShiftMonotone(x, y, e + 1);
    }
  }

  lemma {:induction false} ShiftStrict(x: real, y: real, e: int)
    requires x < y
    ensures Shift(x, e) < Shift(y, e)
    decreases if e >= 0 then e else -e
  {
    if e > 0 {
      ShiftStrict(x, y, e - 1);
    } else if e < 0 {
      ShiftStrict(x, y, e + 1);
    }
  }

  /** An integer written in decimal reads back as the same number. */
  lemma ParseFloatOfInt(n: int)
    ensures ParseFloat(IntToText(n)) == Some(n as real)
  {
    if n < 0 {
      ParseFloatOfDigits("-", NatToText(-n));
      NatToTextRoundTrip(-n);
    } else {
      ParseFloatOfDigits("", NatToText(n));
      assert "" + NatToText(n) == NatToText(n);
      NatToTextRoundTrip(n);
    }
  }

  /** A run of digits after an optional sign reads as their value, signed. */
  lemma ParseFloatOfDigits(sign: string, d: string)
    requires sign == "" || sign == "-"
    requires AllDigits(d) && d != []
    ensures ParseFloat(sign + d) == Some(if sign == "-" then -(DigitsValue(d) as real) else DigitsValue(d) as real)
  {
    assert d + [] == d && d[..|d|] == d && d[|d|..] == [];
    DigitSpanOfDigits(d, []);
    MagnitudeFromParts(d, d, [], [], 0);
    SignedMagnitude(sign + d, sign, d, Magnitude(d, 0, 0));
    DigitsRealIsValue(d);
  }

  // ---------------------------------------------------------------------------
  // `t in s` and `s.split(c)[-1]`

  predicate IsPrefix(t: string, s: string) {
    |t| <= |s| && s[..|t|] == t
  }

  ghost predicate OccursAt(s: string, t: string, i: int) {
    0 <= i && i + |t| <= |s| && s[i..i + |t|] == t
  }

  /** Python's substring test `t in s`: `t` occurs in `s` at some position. */
  function Contains(s: string, t: string): (r: bool)
    ensures r <==> exists i :: OccursAt(s, t, i)
  {
    OccurrenceShift(s, t);
    IsPrefix(t, s) || (s != [] && Contains(s[1..], t))
  }

  /** An occurrence is at the front or is an occurrence in the tail, one place further on. */
  lemma OccurrenceShift(s: string, t: string)
    ensures (exists i :: OccursAt(s, t, i)) <==>
      IsPrefix(t, s) || (s != [] && exists i :: OccursAt(s[1..], t, i))
  {
    assert IsPrefix(t, s) <==> OccursAt(s, t, 0);
    if s != [] {
      forall i | OccursAt(s[1..], t, i)
        ensures OccursAt(s, t, i + 1)
      {
        assert s[1..][i..i + |t|] == s[i + 1..i + 1 + |t|];
      }
      forall i | 0 < i && OccursAt(s, t, i)
        ensures OccursAt(s[1..], t, i - 1)
      {
        assert s[1..][i - 1..i - 1 + |t|] == s[i..i + |t|];
      }
    } else {
      assert forall i :: OccursAt(s, t, i) ==> i == 0;
    }
  }

  /** Python's `s.split(c)[-1]`: the longest suffix of `s` that does not contain `c`. */
  function AfterLast(s: string, c: char): (r: string)
    ensures |r| <= |s| && r == s[|s| - |r|..]
    ensures c !in r
    ensures |r| < |s| ==> s[|s| - |r| - 1] == c
  {
    if s == [] then []
    else if s[|s| - 1] == c then []
    else AfterLast(s[..|s| - 1], c) + [s[|s| - 1]]
  }

  lemma {:induction false} AfterLastOfAppend(p: string, c: char, w: string)
    requires c !in w
    requires p != [] && p[|p| - 1] == c
    ensures AfterLast(p + w, c) == w
  {
    var s := p + w;
    if w != [] {
      assert s[|s| - 1] == w[|w| - 1];
      assert s[..|s| - 1] == p + w[..|w| - 1];
      AfterLastOfAppend(p, c, w[..|w| - 1]);
      assert w[..|w| - 1] + [w[|w| - 1]] == w;
    } else {
      assert s == p;
    }
  }
}

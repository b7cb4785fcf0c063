/** The parts of PHP's runtime semantics that the profile model relies on:
    dynamic values, `empty()`, `trim()`, numeric strings and the loose
    comparison `==` / `!=` between two strings (PHP 8 rules). */
module Php {

  /** A PHP value as it occurs in submitted form data, session state and
      plugin replies. Floats and general objects are not needed. */
  datatype Value = Null | Bool(b: bool) | Int(i: int) | Str(s: string) | Arr(entries: map<string, Value>)

  /** PHP's `empty()`: null, false, 0, "", "0" and the empty array. */
  predicate IsEmpty(v: Value) {
    match v
    case Null => true
    case Bool(b) => !b
    case Int(i) => i == 0
    case Str(s) => s == "" || s == "0"
    case Arr(m) => m == map[]
  }

  /** Every character of `s` lies in `cs`. */
  predicate AllIn(s: string, cs: set<char>) {
    forall i | 0 <= i < |s| :: s[i] in cs
  }

  /** Characters removed by `trim()` with its default list:
      space, tab, line feed, carriage return, NUL and vertical tab. */
  const TrimChars: set<char> := {' ', '\t', '\n', '\r', '\0', '\U{000B}'}

  /** Characters allowed around a numeric string: space, tab, line feed,
      carriage return, vertical tab and form feed. */
  const NumericWhitespace: set<char> := {' ', '\t', '\n', '\r', '\U{000B}', '\U{000C}'}

  /** Drops the leading characters that belong to `cs`. */
  function StripLeft(s: string, cs: set<char>): (r: string)
    ensures |r| <= |s|
    ensures r == [] || r[0] !in cs
  {
    if s != [] && s[0] in cs then StripLeft(s[1..], cs) else s
  }

  /** Drops the trailing characters that belong to `cs`. */
  function StripRight(s: string, cs: set<char>): (r: string)
    ensures |r| <= |s| && r == s[..|r|]
    ensures r == [] || r[|r| - 1] !in cs
  {
    if s != [] && s[|s| - 1] in cs then StripRight(s[..|s| - 1], cs) else s
  }

  /** Drops the characters of `cs` from both ends. */
  function StripBoth(s: string, cs: set<char>): (r: string)
    ensures r == [] || (r[0] !in cs && r[|r| - 1] !in cs)
  {
    var l := StripLeft(s, cs);
    assert StripRight(l, cs) != [] ==> StripRight(l, cs)[0] == l[0];
    StripRight(l, cs)
  }

  /** PHP's `trim($s)` with the default character list. */
  function Trim(s: string): string {
    StripBoth(s, TrimChars)
  }

  /** What `StripLeft` removes is a prefix made only of `cs`. */
  lemma {:induction false} LeftSplit(s: string, cs: set<char>) returns (pre: string)
    ensures s == pre + StripLeft(s, cs) && AllIn(pre, cs)
  {
    if s != [] && s[0] in cs {
      var rest := LeftSplit(s[1..], cs);
      pre := [s[0]] + rest;
      assert s == [s[0]] + s[1..];
    } else {
      pre := [];
    }
  }

  /** What `StripRight` removes is a suffix made only of `cs`. */
  lemma {:induction false} RightSplit(s: string, cs: set<char>) returns (post: string)
    ensures s == StripRight(s, cs) + post && AllIn(post, cs)
  {
    if s != [] && s[|s| - 1] in cs {
      var rest := RightSplit(s[..|s| - 1], cs);
      post := rest + [s[|s| - 1]];
      assert s == s[..|s| - 1] + [s[|s| - 1]];
    } else {
      post := [];
    }
  }

  /** What `StripBoth` removes is a prefix and a suffix made only of `cs`. */
  lemma StripBothSplit(s: string, cs: set<char>) returns (pre: string, post: string)
    ensures s == pre + StripBoth(s, cs) + post
    ensures AllIn(pre, cs) && AllIn(post, cs)
  {
    pre := LeftSplit(s, cs);
    post := RightSplit(StripLeft(s, cs), cs);
    assert pre + (StripBoth(s, cs) + post) == pre + StripBoth(s, cs) + post;
  }

  /** `trim` leaves a string alone exactly when it neither starts nor ends
      with one of the trimmed characters. */
  lemma TrimUnchangedIff(s: string)
    ensures Trim(s) == s <==> (s == [] || (s[0] !in TrimChars && s[|s| - 1] !in TrimChars))
  {
    var pre, post := StripBothSplit(s, TrimChars);
  }

  // ---------------------------------------------------------------------
  // Numeric strings

  predicate IsDigit(c: char) {
    '0' <= c <= '9'
  }

  predicate AllDigits(s: string) {
    forall i | 0 <= i < |s| :: IsDigit(s[i])
  }

  /** Index of the first character of `s` in `cs`, or `|s|` if there is none. */
  function Find(s: string, cs: set<char>): (r: nat)
    ensures r <= |s|
    ensures r < |s| ==> s[r] in cs
    ensures forall j | 0 <= j < r :: s[j] !in cs
  {
    if s == [] then 0
    else if s[0] in cs then 0
    else 1 + Find(s[1..], cs)
  }

  /** Digits with at most one decimal point and at least one digit:
      PHP's LNUM or DNUM. */
  predicate IsMantissa(s: string) {
    var i := Find(s, {'.'});
    if i == |s| then |s| >= 1 && AllDigits(s)
    else |s| >= 2 && AllDigits(s[..i]) && AllDigits(s[i + 1..])
  }

  /** The part after `e` or `E`: an optional sign and at least one digit. */
  predicate IsExponent(t: string) {
    if t != [] && t[0] in {'+', '-'} then |t| >= 2 && AllDigits(t[1..])
    else |t| >= 1 && AllDigits(t)
  }

  predicate IsUnsignedLiteral(s: string) {
    var i := Find(s, {'e', 'E'});
    if i == |s| then IsMantissa(s)
    else IsMantissa(s[..i]) && IsExponent(s[i + 1..])
  }

  /** A numeric literal in the sense of PHP's numeric strings, without the
      surrounding whitespace: [+-]? (LNUM | DNUM) ([eE][+-]? LNUM)?. */
  predicate IsNumericLiteral(s: string) {
    if s != [] && s[0] in {'+', '-'} then IsUnsignedLiteral(s[1..])
    else IsUnsignedLiteral(s)
  }

  /** The literal inside a candidate numeric string. */
  function NumericCore(s: string): string {
    StripBoth(s, NumericWhitespace)
  }

  /** A numeric string: whitespace, a numeric literal, whitespace. */
  predicate IsNumericString(s: string) {
    IsNumericLiteral(NumericCore(s))
  }

  function Pow10(n: nat): (r: nat)
    ensures r > 0
  {
    if n == 0 then 1 else 10 * Pow10(n - 1)
  }

  function DigitsValue(s: string): nat
    requires AllDigits(s)
  {
    if s == [] then 0 else DigitsValue(s[..|s| - 1]) * 10 + (s[|s| - 1] as int - '0' as int)
  }

  function MantissaValue(s: string): real
    requires IsMantissa(s)
  {
    var i := Find(s, {'.'});
    if i == |s| then DigitsValue(s) as real
    else DigitsValue(s[..i]) as real + DigitsValue(s[i + 1..]) as real / Pow10(|s| - i - 1) as real
  }

  function ExponentValue(t: string): int
    requires IsExponent(t)
  {
    if t[0] == '-' then -(DigitsValue(t[1..]) as int)
    else if t[0] == '+' then DigitsValue(t[1..])
    else DigitsValue(t)
  }

  function Scale(x: real, e: int): real {
    if e >= 0 then x * Pow10(e) as real else x / Pow10(-e) as real
  }

  function UnsignedValue(s: string): real
    requires IsUnsignedLiteral(s)
  {
    var i := Find(s, {'e', 'E'});
    if i == |s| then MantissaValue(s)
    else Scale(MantissaValue(s[..i]), ExponentValue(s[i + 1..]))
  }

  /** The exact value of a numeric string. */
  function NumericValue(s: string): real
    requires IsNumericString(s)
  {
    var c := NumericCore(s);
    if c[0] == '-' then -UnsignedValue(c[1..])
    else if c[0] == '+' then UnsignedValue(c[1..])
    else UnsignedValue(c)
  }

  /** The literal without its sign. */
  function Unsigned(c: string): string {
    if c != [] && c[0] in {'+', '-'} then c[1..] else c
  }

  /** 2^63, one past the largest 64-bit integer. */
  const LongLimit: nat := 9223372036854775808

  /** 2^1024 - 2^970: the least magnitude that a correctly rounded
      conversion to an IEEE 754 double turns into an infinity. */
  const DoubleOverflow: nat := 179769313486231580793728971405303415079934132710037826936173778980444968292764750946649017977587207096330286416692887910946555547851940402630657488671505820681908902000708383676273854845817711531764475730270069855571366959622842914819860834936475292719074168444365510704342711559699508093042880177904174497792

  /** The overflow flag of PHP's numeric-string parser: +1 or -1 (the sign
      of the literal) when the literal is an integer outside the 64-bit
      range, or when the digits before its decimal point or exponent
      number 20 or more once leading zeros are dropped; 0 otherwise. */
  function Overflow(s: string): int
    requires IsNumericString(s)
  {
    var c := NumericCore(s);
    var u := Unsigned(c);
    var negative := c[0] == '-';
    var big :=
      if AllDigits(u) then DigitsValue(u) > LongLimit || (DigitsValue(u) == LongLimit && !negative)
      else |StripLeft(u[..Find(u, {'.', 'e', 'E'})], {'0'})| >= 20;
    if !big then 0 else if negative then -1 else 1
  }

  /** The literal's value converts to an infinite double. */
  predicate IsInfinite(s: string)
    requires IsNumericString(s)
  {
    NumericValue(s) >= DoubleOverflow as real || NumericValue(s) <= -(DoubleOverflow as real)
  }

  /** PHP's parser reads the numeric string `s` as a 64-bit integer. */
  predicate IsLongLiteral(s: string)
    requires IsNumericString(s)
  {
    AllDigits(Unsigned(NumericCore(s))) && Overflow(s) == 0
  }

  /** PHP 8's `$a == $b` on two strings. Two numeric strings compare as
      numbers, except in three cases where PHP distrusts the doubles. When
      both overflow the 64-bit range to the same side, it compares the bytes
      (when their doubles differ, the numeric comparison PHP would make
      instead is false as well). A 64-bit integer never equals a numeral
      that overflows. Two numerals of the same infinity compare byte for
      byte. Any other pair compares byte for byte. */
  predicate LooseEquals(a: string, b: string) {
    if IsNumericString(a) && IsNumericString(b) then
      if Overflow(a) != 0 && Overflow(a) == Overflow(b) then a == b
      else if (IsLongLiteral(a) && Overflow(b) != 0) || (IsLongLiteral(b) && Overflow(a) != 0) then false
      else if IsInfinite(a) && IsInfinite(b) && (NumericValue(a) > 0.0) == (NumericValue(b) > 0.0) then a == b
      else NumericValue(a) == NumericValue(b)
    else a == b
  }

  /** PHP compares `s` with any string holding the same literal as a
      number rather than byte for byte. */
  predicate ComparesNumerically(s: string) {
    IsNumericString(s) && Overflow(s) == 0 && !IsInfinite(s)
  }

  // ---------------------------------------------------------------------
  // Lemmas: the loose comparison of a string with its own trim

  /** Characters that can occur in a numeric literal. */
  predicate IsLiteralChar(c: char) {
    IsDigit(c) || c in {'+', '-', '.', 'e', 'E'}
  }

  lemma {:induction false} MantissaChars(s: string)
    requires IsMantissa(s)
    ensures s != [] && forall k | 0 <= k < |s| :: IsLiteralChar(s[k])
  {
    var i := Find(s, {'.'});
    if i < |s| {
      forall k | 0 <= k < |s| ensures IsLiteralChar(s[k]) {
        if k < i { assert s[k] == s[..i][k]; }
        else if k > i { assert s[k] == s[i + 1..][k - i - 1]; }
      }
    }
  }

  lemma {:induction false} UnsignedChars(s: string)
    requires IsUnsignedLiteral(s)
    ensures s != [] && forall k | 0 <= k < |s| :: IsLiteralChar(s[k])
  {
    var i := Find(s, {'e', 'E'});
    if i == |s| {
      MantissaChars(s);
    } else {
      var m, t := s[..i], s[i + 1..];
      MantissaChars(m);
      forall k | 0 <= k < |s| ensures IsLiteralChar(s[k]) {
        if k < i { assert s[k] == m[k]; }
        else if k > i { assert s[k] == t[k - i - 1]; }
      }
    }
  }

  /** A numeric literal is non-empty and neither starts nor ends with
      whitespace of either kind. */
  lemma {:induction false} LiteralEdges(c: string)
    requires IsNumericLiteral(c)
    ensures c != []
    ensures c[0] !in TrimChars + NumericWhitespace
    ensures c[|c| - 1] !in TrimChars + NumericWhitespace
  {
    if c != [] && c[0] in {'+', '-'} {
      UnsignedChars(c[1..]);
      assert c[|c| - 1] == c[1..][|c| - 2];
    } else {
      UnsignedChars(c);
    }
    LiteralCharNotBlank(c[0]);
    LiteralCharNotBlank(c[|c| - 1]);
  }

  lemma LiteralCharNotBlank(ch: char)
    requires IsLiteralChar(ch)
    ensures ch !in TrimChars + NumericWhitespace
  {
  }

  lemma {:induction false} StripLeftAll(s: string, cs: set<char>)
    requires AllIn(s, cs)
    ensures StripLeft(s, cs) == []
  {
    if s != [] {
      StripLeftAll(s[1..], cs);
    }
  }

  lemma {:induction false} StripRightAll(s: string, cs: set<char>)
    requires AllIn(s, cs)
    ensures StripRight(s, cs) == []
  {
    if s != [] {
      StripRightAll(s[..|s| - 1], cs);
    }
  }

  /** Stripping from the left stops inside `x` or at the start of `y`. */
  lemma {:induction false} StripLeftAppend(x: string, y: string, cs: set<char>)
    requires y != [] && y[0] !in cs
    ensures StripLeft(x + y, cs) == StripLeft(x, cs) + y
  {
    if x == [] {
      assert x + y == y;
    } else if x[0] in cs {
      assert (x + y)[1..] == x[1..] + y;
      StripLeftAppend(x[1..], y, cs);
    }
  }

  /** Stripping from the right stops inside `y` or at the end of `x`. */
  lemma {:induction false} StripRightAppend(x: string, y: string, cs: set<char>)
    requires x != [] && x[|x| - 1] !in cs
    ensures StripRight(x + y, cs) == x + StripRight(y, cs)
  {
    if y == [] {
      assert x + y == x;
    } else if y[|y| - 1] in cs {
      assert (x + y)[..|x + y| - 1] == x + y[..|y| - 1];
      StripRightAppend(x, y[..|y| - 1], cs);
    }
  }

  /** Stripping `cs` from a core padded only with `cs` gives back the core. */
  lemma StripPadded(p: string, c: string, q: string, cs: set<char>)
    requires AllIn(p, cs) && AllIn(q, cs)
    requires c != [] && c[0] !in cs && c[|c| - 1] !in cs
    ensures StripBoth(p + c + q, cs) == c
  {
    StripLeftAll(p, cs);
    StripRightAll(q, cs);
    assert p + c + q == p + (c + q);
    StripLeftAppend(p, c + q, cs);
    assert StripLeft(p + c + q, cs) == c + q;
    StripRightAppend(c, q, cs);
  }

  /** Stripping `cs` from both ends of `p + c + q`, where `c` neither starts
      nor ends with a character of `cs`, touches only `p` and `q`. */
  lemma StripAround(p: string, c: string, q: string, cs: set<char>)
    requires c != [] && c[0] !in cs && c[|c| - 1] !in cs
    ensures StripBoth(p + c + q, cs) == StripLeft(p, cs) + c + StripRight(q, cs)
  {
    assert p + c + q == p + (c + q);
    StripLeftAppend(p, c + q, cs);
    var p' := StripLeft(p, cs);
    assert p' + (c + q) == (p' + c) + q;
    assert (p' + c)[|p' + c| - 1] == c[|c| - 1];
    StripRightAppend(p' + c, q, cs);
  }

  /** Stripping keeps a string inside any set that already contains it. */
  lemma StripKeepsAllIn(s: string, cs: set<char>, ws: set<char>)
    requires AllIn(s, ws)
    ensures AllIn(StripLeft(s, cs), ws) && AllIn(StripRight(s, cs), ws)
  {
    var pre := LeftSplit(s, cs);
    var l := StripLeft(s, cs);
    forall k | 0 <= k < |l| ensures l[k] in ws {
      assert l[k] == s[|pre| + k];
    }
    var post := RightSplit(s, cs);
    var r := StripRight(s, cs);
    forall k | 0 <= k < |r| ensures r[k] in ws {
      assert r[k] == s[k];
    }
  }

  /** Trimming a numeric string leaves its numeric literal in place. */
  lemma CoreOfTrim(s: string)
    requires IsNumericString(s)
    ensures NumericCore(Trim(s)) == NumericCore(s)
  {
    var c := NumericCore(s);
    LiteralEdges(c);
    var p, q := StripBothSplit(s, NumericWhitespace);
    StripAround(p, c, q, TrimChars);
    StripKeepsAllIn(p, TrimChars, NumericWhitespace);
    StripKeepsAllIn(q, TrimChars, NumericWhitespace);
    StripPadded(StripLeft(p, TrimChars), c, StripRight(q, TrimChars), NumericWhitespace);
  }

  /** A digit string is an unsigned literal whose value is its integer value. */
  lemma DigitsLiteralValue(d: string)
    requires d != [] && AllDigits(d)
    ensures IsUnsignedLiteral(d) && UnsignedValue(d) == DigitsValue(d) as real
  {
    assert Find(d, {'e', 'E'}) == |d|;
    assert Find(d, {'.'}) == |d|;
  }

  /** `trim($s) == $s` holds in PHP exactly when trimming changes nothing or
      `$s` is a numeric string that PHP compares as a number: both sides
      then hold the same literal and so the same value. */
  lemma LooseEqualsTrim(s: string)
    ensures LooseEquals(Trim(s), s) <==> (Trim(s) == s || ComparesNumerically(s))
  {
    if IsNumericString(s) {
      CoreOfTrim(s);
    }
  }
}

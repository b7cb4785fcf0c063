/** The username compliance check that `ProfileModel::getForm` runs on the
    username of the profile being edited. A compliant username is one the
    profile form may lock: it has none of the characters `< > " ' % ; ( ) & \`,
    no `../`, at least two characters and no surrounding whitespace.
    Strings are sequences of code points, so the length that PHP measures
    with `strlen(utf8_decode(...))` is the sequence length. */
module Username {
  import opened Wrappers
  import opened Php

  /** The characters of the character class in the compliance pattern. */
  const ForbiddenChars: set<char> := {'<', '>', '"', '\'', '%', ';', '(', ')', '&', '\\'}

  predicate HasForbiddenChar(s: string) {
    exists i | 0 <= i < |s| :: s[i] in ForbiddenChars
  }

  /** `s` holds the path step `../` starting at index `i`. */
  predicate ParentPathAt(s: string, i: int) {
    0 <= i && i + 3 <= |s| && s[i] == '.' && s[i + 1] == '.' && s[i + 2] == '/'
  }

  predicate HasParentPath(s: string) {
    exists i | 0 <= i < |s| :: ParentPathAt(s, i)
  }

  /** The length PHP measures after `utf8_decode`: one unit per code point. */
  function DecodedLength(s: string): nat {
    |s|
  }

  /** PHP truthiness of the loaded username: absent, "" and "0" are falsy. */
  predicate IsFalsy(u: Option<string>) {
    u.None? || u.value == "" || u.value == "0"
  }

  /** The check as the source writes it: the whitespace test is PHP's loose
      `trim($username) != $username`. */
  predicate IsCompliantAsWritten(u: Option<string>) {
    IsFalsy(u) ||
    !(HasForbiddenChar(u.value) || HasParentPath(u.value) || DecodedLength(u.value) < 2
      || !LooseEquals(Trim(u.value), u.value))
  }

  /** The check as intended: the whitespace test compares the strings
      themselves. This is the predicate the profile model uses. */
  predicate IsCompliant(u: Option<string>) {
    IsFalsy(u) ||
    !(HasForbiddenChar(u.value) || HasParentPath(u.value) || DecodedLength(u.value) < 2
      || Trim(u.value) != u.value)
  }

  /** An absent or falsy username counts as compliant, under both readings. */
  lemma FalsyIsCompliant(u: Option<string>)
    requires IsFalsy(u)
    ensures IsCompliant(u) && IsCompliantAsWritten(u)
  {
  }

  /** A username holding any forbidden character is never compliant. */
  lemma ForbiddenCharRejected(a: string, c: char, b: string)
    requires c in ForbiddenChars
    ensures !IsCompliant(Some(a + [c] + b)) && !IsCompliantAsWritten(Some(a + [c] + b))
  {
    var s := a + [c] + b;
    assert s[|a|] == c;
    assert s != "0" by { assert s[|a|] != '0'; }
  }

  /** A username holding `../` is never compliant. */
  lemma ParentPathRejected(a: string, b: string)
    ensures !IsCompliant(Some(a + "../" + b)) && !IsCompliantAsWritten(Some(a + "../" + b))
  {
    var s := a + "../" + b;
    assert s[|a|] == '.' && s[|a| + 1] == '.' && s[|a| + 2] == '/';
    assert ParentPathAt(s, |a|);
  }

  /** A one-character username other than "0" is never compliant; "0" is,
      because PHP treats it as falsy. */
  lemma SingleCharacter(c: char)
    ensures IsCompliant(Some([c])) <==> c == '0'
    ensures IsCompliantAsWritten(Some([c])) <==> c == '0'
  {
  }

  /** The intended check in plain terms: a truthy username is compliant
      exactly when no position holds a forbidden character or `../`, it has
      at least two characters, and it neither starts nor ends with a
      character that `trim` removes. */
  lemma CompliantIff(s: string)
    requires !IsFalsy(Some(s))
    ensures IsCompliant(Some(s)) <==>
      (forall i | 0 <= i < |s| :: s[i] !in ForbiddenChars && !ParentPathAt(s, i))
      && |s| >= 2 && s[0] !in TrimChars && s[|s| - 1] !in TrimChars
  {
    TrimUnchangedIff(s);
  }

  /** Where the written check and the intended one part ways: only on a
      username that passes every other test, has whitespace around it and is
      a numeric string that PHP's `!=` compares with its trim as a number. */
  lemma AsWrittenDiffersOnlyOnPaddedNumbers(s: string)
    ensures IsCompliantAsWritten(Some(s)) != IsCompliant(Some(s)) <==>
      !IsFalsy(Some(s)) && !HasForbiddenChar(s) && !HasParentPath(s) && |s| >= 2
      && Trim(s) != s && ComparesNumerically(s)
    ensures IsCompliant(Some(s)) ==> IsCompliantAsWritten(Some(s))
  {
    LooseEqualsTrim(s);
  }

  /** A space followed by digits is a numeric string whose literal is the digits. */
  lemma SpaceDigitsIsNumeric(d: string)
    requires d != [] && AllDigits(d)
    ensures IsNumericString(" " + d) && NumericCore(" " + d) == d
  {
    LiteralCharNotBlank(d[0]);
    LiteralCharNotBlank(d[|d| - 1]);
    assert " " + d + "" == " " + d;
    StripPadded(" ", d, "", NumericWhitespace);
    assert Find(d, {'e', 'E'}) == |d|;
    assert Find(d, {'.'}) == |d|;
  }

  /** A space and the digits of a 64-bit integer: PHP compares it as a number. */
  lemma SmallPaddedNumberComparesNumerically(d: string)
    requires d != [] && AllDigits(d) && DigitsValue(d) < LongLimit
    ensures ComparesNumerically(" " + d)
  {
    var s := " " + d;
    SpaceDigitsIsNumeric(d);
    assert IsDigit(d[0]);
    assert Unsigned(NumericCore(s)) == d;
    assert Overflow(s) == 0;
    DigitsLiteralValue(d);
    assert NumericValue(s) == DigitsValue(d) as real;
    var v := DigitsValue(d);
    assert v < DoubleOverflow;
    assert v as real < DoubleOverflow as real;
    assert !IsInfinite(s);
  }

  lemma PlainChar(c: char)
    requires c == ' ' || IsDigit(c)
    ensures c !in ForbiddenChars && c != '.'
  {
  }

  /** Every username made of a space and the digits of a 64-bit integer,
      such as " 12", passes the written check although it starts with a
      space: it is a numeric string, so `!=` compares it with its trim as a
      number and finds them equal. The intended check rejects it. */
  lemma PaddedNumberPassesAsWritten(d: string)
    requires d != [] && AllDigits(d) && DigitsValue(d) < LongLimit
    ensures IsCompliantAsWritten(Some(" " + d))
    ensures !IsCompliant(Some(" " + d))
  {
    var s := " " + d;
    assert Trim(s) != s by { TrimUnchangedIff(s); }
    SmallPaddedNumberComparesNumerically(d);
    assert s != "0" by { assert s[0] == ' '; }
    forall i | 0 <= i < |s|
      ensures s[i] !in ForbiddenChars && s[i] != '.'
    {
      PlainChar(s[i]);
    }
    assert !HasForbiddenChar(s);
    assert !HasParentPath(s);
    AsWrittenDiffersOnlyOnPaddedNumbers(s);
  }

  /** A space followed by an integer beyond the 64-bit range, such as
      " 99999999999999999999", fails the written check too: PHP compares two
      such overflowing integers byte for byte, and the space makes the
      bytes differ. */
  lemma LongPaddedNumberRejected(d: string)
    requires d != [] && AllDigits(d) && DigitsValue(d) >= LongLimit
    ensures !IsCompliantAsWritten(Some(" " + d))
  {
    var s := " " + d;
    assert Trim(s) != s by { TrimUnchangedIff(s); }
    SpaceDigitsIsNumeric(d);
    assert Overflow(s) == 1;
    LooseEqualsTrim(s);
  }
}

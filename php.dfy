/** The pieces of PHP's runtime behaviour that the query cache relies on:
    scalar values, the truthiness of strings, ASCII case folding,
    `str_ireplace` with an empty replacement, the decimal rendering of
    integers, and the cast PHP applies to array keys. */
module Php {

  /** A PHP scalar as it appears in a query condition or a model attribute. */
  datatype Scalar = Null | Str(s: string) | Int(n: int)

  /** PHP's truthiness of a string: only "" and "0" are false. */
  predicate Truthy(s: string) {
    s != "" && s != "0"
  }

  /** ASCII case folding, as `strtolower` and `str_ireplace` do it. */
  function LowerChar(c: char): char {
    if 'A' <= c <= 'Z' then (c as int + 32) as char else c
  }

  /** `strtolower`: ASCII letters folded to lower case, one for one. */
  function LowerStr(s: string): (r: string)
    ensures |r| == |s|
  {
    seq(|s|, i requires 0 <= i < |s| => LowerChar(s[i]))
  }

  /** Folding leaves no ASCII upper-case letter, and folding twice is
      folding once. */
  lemma LowerStrFolds(s: string)
    ensures forall i :: 0 <= i < |s| ==> !('A' <= LowerStr(s)[i] <= 'Z')
    ensures LowerStr(LowerStr(s)) == LowerStr(s)
  {
  }

  /** `needle` occurs in `s` at position `i`, ignoring ASCII case. */
  predicate OccursAt(s: string, needle: string, i: nat) {
    i + |needle| <= |s| && LowerStr(s[i..i + |needle|]) == LowerStr(needle)
  }

  predicate OccursCI(s: string, needle: string) {
    exists i: nat | i <= |s| :: OccursAt(s, needle, i)
  }

  /** `str_ireplace(needle, "", s)`: every occurrence of a non-empty needle,
      found left to right without regard to ASCII case and without overlap,
      is deleted; what is left behind is not searched again. */
  function RemoveAllCI(s: string, needle: string): (r: string)
    ensures |r| <= |s|
    decreases |s|
  {
    if needle == [] || |s| < |needle| then s
    else if OccursAt(s, needle, 0) then RemoveAllCI(s[|needle|..], needle)
    else [s[0]] + RemoveAllCI(s[1..], needle)
  }

  /** A string in which the needle does not occur comes back unchanged. */
  lemma {:induction false} RemoveAbsent(s: string, needle: string)
    requires !OccursCI(s, needle)
    ensures RemoveAllCI(s, needle) == s
    decreases |s|
  {
    if needle == [] || |s| < |needle| {
    } else {
      assert !OccursAt(s, needle, 0);
      forall i: nat | i <= |s| - 1 ensures !OccursAt(s[1..], needle, i) {
        if OccursAt(s[1..], needle, i) {
          assert s[1..][i..i + |needle|] == s[i + 1..i + 1 + |needle|];
          assert OccursAt(s, needle, i + 1);
        }
      }
      RemoveAbsent(s[1..], needle);
    }
  }

  /** A column written with its table qualifier in front, in any letter
      case, loses exactly that qualifier, provided the rest of the name
      holds no further copy of it. */
  lemma RemoveLeadingQualifier(qualifier: string, written: string, column: string)
    requires qualifier != []
    requires |written| == |qualifier| && LowerStr(written) == LowerStr(qualifier)
    requires !OccursCI(column, qualifier)
    ensures RemoveAllCI(written + column, qualifier) == column
  {
    var s := written + column;
    assert s[..|qualifier|] == written;
    assert OccursAt(s, qualifier, 0);
    assert s[|qualifier|..] == column;
    RemoveAbsent(column, qualifier);
  }

  predicate IsDigit(c: char) {
    '0' <= c <= '9'
  }

  predicate AllDigits(s: string) {
    forall i :: 0 <= i < |s| ==> IsDigit(s[i])
  }

  function DigitChar(d: nat): (c: char)
    requires d < 10
    ensures IsDigit(c)
  {
    ('0' as int + d) as char
  }

  function DigitValue(c: char): nat
    requires IsDigit(c)
  {
    c as int - '0' as int
  }

  /** The decimal rendering of a natural number, as PHP's string
      conversion of an int produces it: digits only, and no leading zero. */
  function Decimal(n: nat): (r: string)
    ensures |r| >= 1 && AllDigits(r)
    ensures r[0] == '0' ==> n == 0
    decreases n
  {
    if n < 10 then [DigitChar(n)] else Decimal(n / 10) + [DigitChar(n % 10)]
  }

  /** The value of a string of decimal digits. */
  function ParseDigits(s: string): nat
    requires AllDigits(s)
    decreases |s|
  {
    if s == [] then 0 else ParseDigits(s[..|s| - 1]) * 10 + DigitValue(s[|s| - 1])
  }

  /** Reading back a rendered number gives the number. */
  lemma {:induction false} ParseDecimal(n: nat)
    ensures ParseDigits(Decimal(n)) == n
    decreases n
  {
    if n >= 10 {
      var d := Decimal(n);
      assert d[..|d| - 1] == Decimal(n / 10);
      ParseDecimal(n / 10);
    }
  }

  /** Different numbers are rendered differently. */
  lemma DecimalInjective(a: nat, b: nat)
    requires Decimal(a) == Decimal(b)
    ensures a == b
  {
    ParseDecimal(a);
    ParseDecimal(b);
  }

  /** A non-empty digit string followed by text that does not begin with a
      digit: the split point is fixed by the text itself. */
  lemma DigitPrefixUnique(d1: string, rest1: string, d2: string, rest2: string)
    requires AllDigits(d1) && AllDigits(d2)
    requires rest1 == [] || !IsDigit(rest1[0])
    requires rest2 == [] || !IsDigit(rest2[0])
    requires d1 + rest1 == d2 + rest2
    ensures d1 == d2 && rest1 == rest2
  {
    var s := d1 + rest1;
    assert forall k :: 0 <= k < |d1| ==> IsDigit(s[k]);
    assert |d1| < |s| ==> !IsDigit(s[|d1|]);
    assert forall k :: 0 <= k < |d2| ==> IsDigit(s[k]);
    assert |d2| < |s| ==> !IsDigit(s[|d2|]);
    assert d1 == s[..|d1|] == d2;
  }

  /** PHP's string form of an int. */
  function IntString(n: int): string {
    if n < 0 then "-" + Decimal(-n) else Decimal(n)
  }

  /** A string PHP turns into an int when it is used as an array key: the
      canonical decimal form of an integer. */
  predicate IsIntegerString(s: string) {
    || (|s| >= 1 && AllDigits(s) && (s[0] != '0' || |s| == 1))
    || (|s| >= 2 && s[0] == '-' && AllDigits(s[1..]) && s[1] != '0')
  }

  function IntegerValue(s: string): int
    requires IsIntegerString(s)
  {
    if s[0] == '-' then 0 - ParseDigits(s[1..]) as int else ParseDigits(s)
  }

  /** A key of a PHP array. */
  datatype ArrayKey = IntKey(i: int) | StrKey(s: string)

  /** The key PHP stores when `$array[$v] = ...` is written with the scalar
      `v`: ints stay ints, integer strings become ints, null becomes "". */
  function KeyOf(v: Scalar): ArrayKey {
    match v
    case Null => StrKey("")
    case Int(n) => IntKey(n)
    case Str(s) => if IsIntegerString(s) then IntKey(IntegerValue(s)) else StrKey(s)
  }

  /** An int attribute and its string form index the same array slot. */
  lemma IntegerStringKey(n: int)
    ensures KeyOf(Str(IntString(n))) == KeyOf(Int(n))
  {
    var s := IntString(n);
    if n < 0 {
      var d := Decimal(-n);
      assert s[1..] == d;
      assert IsIntegerString(s);
      ParseDecimal(-n);
    } else {
      assert IsIntegerString(s);
      ParseDecimal(n);
    }
  }
}

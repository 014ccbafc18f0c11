/**
  Decimal rendering of an unsigned integer (`std::to_string`), used to name
  the files the save routine creates, and its inverse.
*/
module Decimal {

  predicate IsDigit(c: char)
  {
    '0' <= c <= '9'
  }

  function DigitChar(d: nat): (c: char)
    requires d < 10
    ensures IsDigit(c) && c as int - '0' as int == d
  {
    ('0' as int + d) as char
  }

  function DigitValue(c: char): (d: nat)
    requires IsDigit(c)
    ensures d < 10
  {
    c as int - '0' as int
  }

  /** `std::to_string(n)`: the shortest decimal rendering, no sign, no leading zero. */
  function ToDecimal(n: nat): (s: string)
    ensures 1 <= |s|
    ensures forall i :: 0 <= i < |s| ==> IsDigit(s[i])
    ensures |s| > 1 ==> s[0] != '0'
    decreases n
  {
    if n < 10 then [DigitChar(n)] else ToDecimal(n / 10) + [DigitChar(n % 10)]
  }

  /** Reads a string of decimal digits back as a number. */
  function ParseDecimal(s: string): nat
    requires forall i :: 0 <= i < |s| ==> IsDigit(s[i])
  {
    if s == [] then 0 else ParseDecimal(s[..|s| - 1]) * 10 + DigitValue(s[|s| - 1])
  }

  lemma {:induction false} ParseToDecimal(n: nat)
    ensures ParseDecimal(ToDecimal(n)) == n
    decreases n
  {
    var s := ToDecimal(n);
    if n >= 10 {
      ParseToDecimal(n / 10);
      assert s[..|s| - 1] == ToDecimal(n / 10);
    }
  }

  /** The name the save routine gives the file for capture tag `t`. */
  function FileName(t: nat): (name: string)
    ensures |name| >= 5 && name[|name| - 4..] == ".bin"
  {
    ToDecimal(t) + ".bin"
  }

  /** Distinct tags give distinct file names. */
  lemma FileNameInjective(t1: nat, t2: nat)
    ensures FileName(t1) == FileName(t2) ==> t1 == t2
  {
    if FileName(t1) == FileName(t2) {
      var a, b := ToDecimal(t1), ToDecimal(t2);
      assert |a| == |b|;
      assert a == FileName(t1)[..|a|];
      assert b == FileName(t2)[..|b|];
      ParseToDecimal(t1);
      ParseToDecimal(t2);
    }
  }
}

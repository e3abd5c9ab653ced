/** The std::string searches and decimal conversions the C++ code uses. */
module Strings {

  /** `find_last_of`: the last position holding one of `cs`, or -1. */
  function LastOf(s: string, cs: set<char>): (r: int)
    ensures -1 <= r < |s|
    ensures r >= 0 ==> s[r] in cs
    ensures forall k :: r < k < |s| ==> s[k] !in cs
  {
    if s == [] then -1
    else if s[|s| - 1] in cs then |s| - 1
    else LastOf(s[..|s| - 1], cs)
  }

  /** `find`: the first position of `c` at or after `from`, or -1. */
  function FirstOf(s: string, c: char, from: nat): (r: int)
    requires from <= |s|
    ensures r == -1 || from <= r < |s|
    ensures r >= 0 ==> s[r] == c
    ensures forall k :: from <= k < (if r == -1 then |s| else r) ==> s[k] != c
    decreases |s| - from
  {
    if from == |s| then -1
    else if s[from] == c then from
    else FirstOf(s, c, from + 1)
  }

  lemma {:induction false} LastOfConcat(a: string, c: char, b: string, cs: set<char>)
    requires c in cs && forall j :: 0 <= j < |b| ==> b[j] !in cs
    ensures LastOf(a + [c] + b, cs) == |a|
    decreases |b|
  {
    var s := a + [c] + b;
    if b == [] {
      assert s[|s| - 1] == c;
    } else {
      var n := |b| - 1;
      assert s[|s| - 1] == b[n];
      assert s[..|s| - 1] == a + [c] + b[..n];
      LastOfConcat(a, c, b[..n], cs);
    }
  }

  lemma {:induction false} LastOfDrop(s: string, cs: set<char>, n: nat)
    requires n <= |s|
    ensures LastOf(s[n..], cs) == if LastOf(s, cs) < n then -1 else LastOf(s, cs) - n
    decreases |s|
  {
    if n < |s| && s[|s| - 1] !in cs {
      var t := s[..|s| - 1];
      assert s[n..][..|s| - n - 1] == t[n..];
      assert s[n..][|s| - n - 1] == s[|s| - 1];
      LastOfDrop(t, cs, n);
    }
  }

  lemma {:induction false} LastOfTake(s: string, cs: set<char>, n: nat)
    requires LastOf(s, cs) < n <= |s|
    ensures LastOf(s[..n], cs) == LastOf(s, cs)
    decreases |s|
  {
    if n < |s| {
      var t := s[..|s| - 1];
      assert t[..n] == s[..n];
      LastOfTake(t, cs, n);
    } else {
      assert s[..n] == s;
    }
  }

  predicate IsDigit(c: char) { '0' <= c <= '9' }

  function DigitOf(c: char): nat
    requires IsDigit(c)
  {
    c as int - '0' as int
  }

  function CharOf(d: nat): (c: char)
    requires d < 10
    ensures IsDigit(c) && DigitOf(c) == d
  {
    '0' + d as char
  }

  predicate AllDigits(s: string) { forall i :: 0 <= i < |s| ==> IsDigit(s[i]) }

  /** The number a digit string spells, leading zeros allowed. */
  function NumberOf(s: string): nat
    requires AllDigits(s)
  {
    if s == [] then 0 else NumberOf(s[..|s| - 1]) * 10 + DigitOf(s[|s| - 1])
  }

  /** `std::to_string`. */
  function Decimal(n: nat): (s: string)
    ensures |s| > 0 && AllDigits(s)
  {
    if n < 10 then [CharOf(n)] else Decimal(n / 10) + [CharOf(n % 10)]
  }

  lemma {:induction false} DecimalRoundTrip(n: nat)
    ensures NumberOf(Decimal(n)) == n
  {
    var s := Decimal(n);
    if n < 10 {
      assert s[..0] == [];
    } else {
      DecimalRoundTrip(n / 10);
      assert s[..|s| - 1] == Decimal(n / 10);
    }
  }
}

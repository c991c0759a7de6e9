/** Integers in JSON: what strconv.FormatInt writes, and what a canonical reader accepts. */
module Decimal {
  import opened Options

  predicate IsDigit(c: char) {
    '0' <= c <= '9'
  }

  predicate AllDigits(s: string) {
    forall i :: 0 <= i < |s| ==> IsDigit(s[i])
  }

  function DigitOf(d: int): (c: char)
    requires 0 <= d < 10
    ensures IsDigit(c) && DigitValue(c) == d
    ensures c == '0' <==> d == 0
  {
    (48 + d) as char
  }

  function DigitValue(c: char): int {
    c as int - 48
  }

  /** The decimal digits of a natural number, without leading zeros. */
  function Digits(n: nat): (s: string)
    ensures s != [] && AllDigits(s)
  {
    if n < 10 then [DigitOf(n)] else Digits(n / 10) + [DigitOf(n % 10)]
  }

  function Format(i: int): string {
    if i < 0 then "-" + Digits(-i) else Digits(i)
  }

  function Value(s: string): int {
    if s == [] then 0 else 10 * Value(s[..|s| - 1]) + DigitValue(s[|s| - 1])
  }

  /** No superfluous leading zero. */
  predicate Minimal(s: string) {
    s != [] && AllDigits(s) && (s[0] == '0' ==> |s| == 1)
  }

  function DigitPrefix(t: string): (n: nat)
    ensures n <= |t|
    ensures AllDigits(t[..n])
    ensures n < |t| ==> !IsDigit(t[n])
  {
    if t == [] || !IsDigit(t[0]) then 0 else DigitPrefix(t[1..]) + 1
  }

  predicate StartsWithDigit(t: string) {
    t != [] && IsDigit(t[0])
  }

  /** Reads the longest run of digits at the head of `t`, which must have no leading zero. */
  function ReadNat(t: string): (r: Option<(int, string)>)
    ensures r.Some? ==> |r.value.1| < |t|
  {
    var n := DigitPrefix(t);
    if Minimal(t[..n]) then Some((Value(t[..n]), t[n..])) else None
  }

  /** Reads the longest canonical integer at the head of `t`: no leading zero, no "-0". */
  function ReadInt(t: string): (r: Option<(int, string)>)
    ensures r.Some? ==> |r.value.1| < |t|
  {
    if t == [] || t[0] != '-' then ReadNat(t)
    else
      var (i, rest) :- ReadNat(t[1..]);
      if i == 0 then None else Some((-i, rest))
  }

  /** The integer literal a json.Number may hold: the regular expression ^-?(0|[1-9][0-9]*)$. */
  predicate IsIntegerLiteral(s: string) {
    if s != [] && s[0] == '-' then Minimal(s[1..]) else Minimal(s)
  }

  function LiteralValue(s: string): int
    requires IsIntegerLiteral(s)
  {
    if s[0] == '-' then -Value(s[1..]) else Value(s)
  }

  // --------------------------------------------------------------- proofs

  lemma {:induction false} ValueDigits(n: nat)
    ensures Value(Digits(n)) == n
    ensures Minimal(Digits(n))
    ensures Digits(n)[0] == '0' <==> n == 0
  {
    var s := Digits(n);
    if n < 10 {
      assert s[..|s| - 1] == [];
    } else {
      ValueDigits(n / 10);
      assert s[..|s| - 1] == Digits(n / 10);
    }
  }

  lemma {:induction false} ValueNonnegative(s: string)
    requires AllDigits(s)
    ensures Value(s) >= 0
    ensures s != [] && s[0] != '0' ==> Value(s) > 0
  {
    if s != [] {
      ValueNonnegative(s[..|s| - 1]);
    }
  }

  lemma {:induction false} DigitsValue(s: string)
    requires Minimal(s)
    ensures Value(s) >= 0 && Digits(Value(s)) == s
  {
    ValueNonnegative(s);
    if |s| == 1 {
      assert Value(s[..0]) == 0;
    } else {
      var init := s[..|s| - 1];
      DigitsValue(init);
      ValueNonnegative(init);
      assert s == init + [s[|s| - 1]];
      assert Value(s) / 10 == Value(init) && Value(s) % 10 == DigitValue(s[|s| - 1]);
    }
  }

  lemma {:induction false} DigitPrefixOfDigits(s: string, rest: string)
    requires AllDigits(s) && !StartsWithDigit(rest)
    ensures DigitPrefix(s + rest) == |s|
  {
    if s == [] {
      assert s + rest == rest;
    } else {
      assert (s + rest)[1..] == s[1..] + rest;
      DigitPrefixOfDigits(s[1..], rest);
    }
  }

  lemma ReadNatDigits(n: nat, rest: string)
    requires !StartsWithDigit(rest)
    ensures ReadNat(Digits(n) + rest) == Some((n as int, rest))
  {
    hide Value;
    var ds := Digits(n);
    ValueDigits(n);
    DigitPrefixOfDigits(ds, rest);
    assert (ds + rest)[..|ds|] == ds && (ds + rest)[|ds|..] == rest;
  }

  /** An integer is read back from its digits unless a digit follows: numbers are not prefix-free. */
  lemma ReadFormat(i: int, rest: string)
    requires !StartsWithDigit(rest)
    ensures ReadInt(Format(i) + rest) == Some((i, rest))
  {
    hide ReadNat, Digits, Value;
    ReadNatDigits(if i < 0 then -i else i, rest);
    if i < 0 {
      var ds := Digits(-i) + rest;
      assert Format(i) + rest == "-" + ds;
      assert ("-" + ds)[1..] == ds;
    } else {
      assert IsDigit(Digits(i)[0]);
    }
  }

  lemma ReadNatSound(t: string)
    requires ReadNat(t).Some?
    ensures var (i, rest) := ReadNat(t).value; i >= 0 && t == Digits(i) + rest && !StartsWithDigit(rest)
  {
    hide Digits, Value;
    var n := DigitPrefix(t);
    DigitsValue(t[..n]);
    assert t == t[..n] + t[n..];
  }

  lemma ReadIntSound(t: string)
    requires ReadInt(t).Some?
    ensures var (i, rest) := ReadInt(t).value; t == Format(i) + rest && !StartsWithDigit(rest)
  {
    hide ReadNat, Digits;
    if t[0] != '-' {
      ReadNatSound(t);
    } else {
      ReadNatSound(t[1..]);
      assert t == "-" + t[1..];
    }
  }

  /** A json.Number that is an integer literal already is its value's canonical spelling, except "-0". */
  lemma LiteralIsFormat(s: string)
    requires IsIntegerLiteral(s)
    ensures (if s == "-0" then "0" else s) == Format(LiteralValue(s))
  {
    if s[0] == '-' {
      DigitsValue(s[1..]);
      ValueNonnegative(s[1..]);
      assert s == "-" + s[1..];
      if s[1] == '0' {
        assert s == "-0";
        assert s[1..] == "0" && Value("0") == 0 by { assert "0"[..0] == []; }
      }
    } else {
      DigitsValue(s);
    }
  }

  lemma FormatStart(i: int)
    ensures var s := Format(i); s != [] && (s[0] == '-' || IsDigit(s[0]))
  {
  }
}

/** Unicode text and its two encodings. A Dafny `char` is a Unicode scalar value, so a `string` is
    well-formed text: what a Go string holds when it is valid UTF-8. */
module Unicode {
  import opened Options
  import Lexicographic

  type Byte = b: int | 0 <= b < 0x100
  type CodeUnit = u: int | 0 <= u < 0x1_0000

  // ---------------------------------------------------------------- UTF-8

  /** The UTF-8 bytes of one scalar value: what WriteRune appends. */
  function Utf8Of(c: char): (bytes: seq<Byte>)
    ensures 1 <= |bytes| <= 4
  {
    var x := c as int;
    if x < 0x80 then [x]
    else if x < 0x800 then [0xC0 + x / 0x40, 0x80 + x % 0x40]
    else if x < 0x1_0000 then [0xE0 + x / 0x1000, 0x80 + x / 0x40 % 0x40, 0x80 + x % 0x40]
    else [0xF0 + x / 0x4_0000, 0x80 + x / 0x1000 % 0x40, 0x80 + x / 0x40 % 0x40, 0x80 + x % 0x40]
  }

  function Utf8(s: string): seq<Byte> {
    if s == [] then [] else Utf8Of(s[0]) + Utf8(s[1..])
  }

  predicate IsContinuation(b: int) {
    0x80 <= b < 0xC0
  }

  predicate IsScalar(x: int) {
    0 <= x < 0xD800 || 0xE000 <= x < 0x11_0000
  }

  /** The scalar value a lead byte's payload and its continuation bytes spell. */
  function Join2(lead: int, b1: int): int {
    lead * 0x40 + (b1 - 0x80)
  }

  function Join3(lead: int, b1: int, b2: int): int {
    lead * 0x1000 + (b1 - 0x80) * 0x40 + (b2 - 0x80)
  }

  function Join4(lead: int, b1: int, b2: int, b3: int): int {
    lead * 0x4_0000 + (b1 - 0x80) * 0x1000 + (b2 - 0x80) * 0x40 + (b3 - 0x80)
  }

  /** Reads one UTF-8 sequence; None on a malformed, overlong or surrogate sequence. */
  function ReadUtf8(bytes: seq<int>): (r: Option<(char, nat)>)
    ensures r.Some? ==> 1 <= r.value.1 <= |bytes|
  {
    if bytes == [] || bytes[0] < 0 then None
    else if bytes[0] < 0x80 then Some((bytes[0] as char, 1))
    else if 0xC0 <= bytes[0] < 0xE0 && |bytes| >= 2 && IsContinuation(bytes[1]) then
      var x := Join2(bytes[0] - 0xC0, bytes[1]);
      if x < 0x80 then None else Some((x as char, 2))
    else if 0xE0 <= bytes[0] < 0xF0 && |bytes| >= 3 && IsContinuation(bytes[1]) && IsContinuation(bytes[2]) then
      var x := Join3(bytes[0] - 0xE0, bytes[1], bytes[2]);
      if x < 0x800 || !IsScalar(x) then None else Some((x as char, 3))
    else if 0xF0 <= bytes[0] < 0xF8 && |bytes| >= 4
            && IsContinuation(bytes[1]) && IsContinuation(bytes[2]) && IsContinuation(bytes[3]) then
      var x := Join4(bytes[0] - 0xF0, bytes[1], bytes[2], bytes[3]);
      if x < 0x1_0000 || !IsScalar(x) then None else Some((x as char, 4))
    else None
  }

  function DecodeUtf8(bytes: seq<int>): Option<string>
    decreases |bytes|
  {
    if bytes == [] then Some([])
    else
      var (c, n) :- ReadUtf8(bytes);
      var rest :- DecodeUtf8(bytes[n..]);
      Some([c] + rest)
  }

  lemma ReadUtf8Of(c: char, rest: seq<int>)
    ensures ReadUtf8(Utf8Of(c) + rest) == Some((c, |Utf8Of(c)|))
  {
    var x := c as int;
    if 0x800 <= x < 0x1_0000 {
      assert x / 0x40 / 0x40 == x / 0x1000;
    } else if 0x1_0000 <= x {
      assert x / 0x1000 / 0x40 == x / 0x4_0000;
    }
  }

  lemma JoinSplits(lead: int, b1: int, b2: int, b3: int)
    requires IsContinuation(b1) && IsContinuation(b2) && IsContinuation(b3)
    ensures var x := Join2(lead, b1); x / 0x40 == lead && 0x80 + x % 0x40 == b1
    ensures var x := Join3(lead, b1, b2);
            x / 0x1000 == lead && 0x80 + x / 0x40 % 0x40 == b1 && 0x80 + x % 0x40 == b2
    ensures var x := Join4(lead, b1, b2, b3);
            && x / 0x4_0000 == lead && 0x80 + x / 0x1000 % 0x40 == b1
            && 0x80 + x / 0x40 % 0x40 == b2 && 0x80 + x % 0x40 == b3
  {
    var x := Join4(lead, b1, b2, b3);
    assert x / 0x40 == Join3(lead, b1, b2);
    assert x / 0x1000 == Join2(lead, b1);
  }

  lemma ReadUtf8Exact(bytes: seq<int>)
    requires ReadUtf8(bytes).Some?
    ensures var (c, n) := ReadUtf8(bytes).value; bytes[..n] == Utf8Of(c)
  {
    var n := ReadUtf8(bytes).value.1;
    if n == 2 {
      JoinSplits(bytes[0] - 0xC0, bytes[1], 0x80, 0x80);
    } else if n == 3 {
      JoinSplits(bytes[0] - 0xE0, bytes[1], bytes[2], 0x80);
    } else if n == 4 {
      JoinSplits(bytes[0] - 0xF0, bytes[1], bytes[2], bytes[3]);
    }
  }

  /** The decoder accepts exactly the encodings, and inverts them. */
  lemma {:induction false} Utf8RoundTrip(s: string)
    ensures DecodeUtf8(Utf8(s)) == Some(s)
  {
    if s != [] {
      ReadUtf8Of(s[0], Utf8(s[1..]));
      assert Utf8(s)[|Utf8Of(s[0])|..] == Utf8(s[1..]);
      Utf8RoundTrip(s[1..]);
      assert [s[0]] + s[1..] == s;
    }
  }

  lemma {:induction false} Utf8Exact(bytes: seq<int>)
    requires DecodeUtf8(bytes).Some?
    ensures Utf8(DecodeUtf8(bytes).value) == bytes
    decreases |bytes|
  {
    hide ReadUtf8, Utf8Of;
    if bytes != [] {
      var (c, n) := ReadUtf8(bytes).value;
      var rest := DecodeUtf8(bytes[n..]).value;
      ReadUtf8Exact(bytes);
      Utf8Exact(bytes[n..]);
      assert ([c] + rest)[1..] == rest;
      assert bytes == bytes[..n] + bytes[n..];
    }
  }

  lemma Utf8Injective(a: string, b: string)
    ensures Utf8(a) == Utf8(b) ==> a == b
  {
    Utf8RoundTrip(a);
    Utf8RoundTrip(b);
  }

  lemma {:induction false} Utf8Concat(a: string, b: string)
    ensures Utf8(a + b) == Utf8(a) + Utf8(b)
  {
    if a == [] {
      assert a + b == b;
    } else {
      assert (a + b)[1..] == a[1..] + b;
      Utf8Concat(a[1..], b);
    }
  }

  // --------------------------------------------------------------- UTF-16

  /** utf16.Encode of one rune: itself, or a high and a low surrogate. */
  function Utf16Of(c: char): (units: seq<CodeUnit>)
    ensures 1 <= |units| <= 2
  {
    var x := c as int;
    if x < 0x1_0000 then [x]
    else [0xD800 + (x - 0x1_0000) / 0x400, 0xDC00 + (x - 0x1_0000) % 0x400]
  }

  function Utf16(s: string): seq<CodeUnit> {
    if s == [] then [] else Utf16Of(s[0]) + Utf16(s[1..])
  }

  /** A scalar value's place in UTF-16 order: U+E000..U+FFFF come after every supplementary plane. */
  function Utf16Rank(c: char): int {
    var x := c as int;
    if 0xE000 <= x < 0x1_0000 then x + 0x11_0000 else x
  }

  function Utf16Ranks(s: string): seq<int> {
    if s == [] then [] else [Utf16Rank(s[0])] + Utf16Ranks(s[1..])
  }

  /** Comparing the code units of two different leading characters compares their ranks, whatever follows. */
  lemma Utf16OfOrder(c: char, d: char, s: seq<int>, t: seq<int>)
    requires c != d
    ensures Lexicographic.Less(Utf16Of(c) + s, Utf16Of(d) + t) <==> Utf16Rank(c) < Utf16Rank(d)
  {
    var u, v := Utf16Of(c) + s, Utf16Of(d) + t;
    if u[0] == v[0] {
      assert c as int >= 0x1_0000 && d as int >= 0x1_0000;
      assert u[1] != v[1];
      assert u[1..][0] == u[1] && v[1..][0] == v[1];
    }
  }

  /** The key order law of section 3.2.3 of RFC 8785: code-unit order is code-point order with
      U+E000..U+FFFF moved above the supplementary planes. */
  lemma {:induction false} Utf16OrderIsRankOrder(a: string, b: string)
    ensures Lexicographic.Less(Utf16(a), Utf16(b)) <==> Lexicographic.Less(Utf16Ranks(a), Utf16Ranks(b))
  {
    if a != [] && b != [] {
      if a[0] == b[0] {
        Utf16OrderIsRankOrder(a[1..], b[1..]);
        Lexicographic.CommonPrefix(Utf16Of(a[0]), Utf16(a[1..]), Utf16(b[1..]));
        Lexicographic.CommonPrefix([Utf16Rank(a[0])], Utf16Ranks(a[1..]), Utf16Ranks(b[1..]));
      } else {
        Utf16OfOrder(a[0], b[0], Utf16(a[1..]), Utf16(b[1..]));
      }
    }
  }

  lemma {:induction false} Utf16RanksInjective(a: string, b: string)
    requires Utf16Ranks(a) == Utf16Ranks(b)
    ensures a == b
  {
    if a != [] && b != [] {
      assert Utf16Rank(a[0]) == Utf16Ranks(a)[0] == Utf16Ranks(b)[0] == Utf16Rank(b[0]);
      assert Utf16Ranks(a)[1..] == Utf16Ranks(a[1..]) && Utf16Ranks(b)[1..] == Utf16Ranks(b[1..]);
      Utf16RanksInjective(a[1..], b[1..]);
      assert a == [a[0]] + a[1..] && b == [b[0]] + b[1..];
    }
  }

  /** Distinct texts have distinct code units, so distinct member names are never tied. */
  lemma Utf16Injective(a: string, b: string)
    ensures Utf16(a) == Utf16(b) ==> a == b
  {
    if Utf16(a) == Utf16(b) {
      Lexicographic.Irreflexive(Utf16(a));
      Utf16OrderIsRankOrder(a, b);
      Utf16OrderIsRankOrder(b, a);
      Lexicographic.Connected(Utf16Ranks(a), Utf16Ranks(b));
      Utf16RanksInjective(a, b);
    }
  }

  predicate IsPair(high: int, low: int, x: int) {
    0xD800 <= high < 0xDC00 <= low < 0xE000 && 0x1_0000 + (high - 0xD800) * 0x400 + (low - 0xDC00) == x
  }

  /** A supplementary character's two units are a high and a low surrogate that name it; any other is its own unit. */
  lemma Utf16Names(c: char)
    ensures var u, x := Utf16Of(c), c as int;
            if x < 0x1_0000 then u == [x]
            else |u| == 2 && IsPair(u[0], u[1], x)
  {
  }

  // ----------------------------------------------------- the order of bytes

  function CodePoints(s: string): seq<int> {
    if s == [] then [] else [s[0] as int] + CodePoints(s[1..])
  }

  /** A number in base 64, last digit split off twice and thrice. */
  lemma Base64(x: int)
    requires x >= 0
    ensures x == (x / 0x40) * 0x40 + x % 0x40
    ensures x / 0x40 == (x / 0x1000) * 0x40 + x / 0x40 % 0x40
    ensures x / 0x1000 == (x / 0x4_0000) * 0x40 + x / 0x1000 % 0x40
  {
    assert x / 0x1000 == x / 0x40 / 0x40 && x / 0x4_0000 == x / 0x1000 / 0x40;
  }

  /** A longer encoding is of a greater character and starts with a greater byte. */
  lemma LongerIsGreater(c: char, d: char)
    requires |Utf8Of(c)| < |Utf8Of(d)|
    ensures c < d && Utf8Of(c)[0] < Utf8Of(d)[0]
  {
  }

  /** The place where two numbers in base 64 first differ, of four digits at most. */
  function FirstDigit(x: int, y: int): (i: nat)
    requires x != y && x >= 0 && y >= 0
    ensures i <= 3
  {
    if x / 0x4_0000 != y / 0x4_0000 then 3
    else if x / 0x1000 != y / 0x1000 then 2
    else if x / 0x40 != y / 0x40 then 1
    else 0
  }

  lemma FirstDigitTells(x: int, y: int)
    requires x != y && x >= 0 && y >= 0
    ensures match FirstDigit(x, y)
            case 3 => x / 0x4_0000 < y / 0x4_0000 <==> x < y
            case 2 => x / 0x1000 % 0x40 != y / 0x1000 % 0x40 && (x / 0x1000 % 0x40 < y / 0x1000 % 0x40 <==> x < y)
            case 1 => x / 0x40 % 0x40 != y / 0x40 % 0x40 && (x / 0x40 % 0x40 < y / 0x40 % 0x40 <==> x < y)
            case _ => x % 0x40 != y % 0x40 && (x % 0x40 < y % 0x40 <==> x < y)
    ensures FirstDigit(x, y) < 2 ==> x / 0x1000 == y / 0x1000
    ensures FirstDigit(x, y) == 0 ==> x / 0x40 == y / 0x40
    ensures x / 0x40 == 0 && y / 0x40 == 0 ==> FirstDigit(x, y) == 0
    ensures x / 0x1000 == 0 && y / 0x1000 == 0 ==> FirstDigit(x, y) <= 1
    ensures x / 0x4_0000 == 0 && y / 0x4_0000 == 0 ==> FirstDigit(x, y) <= 2
  {
    Base64(x);
    Base64(y);
  }

  /** The encodings of two characters first differ at a byte that tells which is greater. */
  lemma Utf8Differ(c: char, d: char) returns (k: nat)
    requires c != d
    ensures k < |Utf8Of(c)| && k < |Utf8Of(d)| && Utf8Of(c)[..k] == Utf8Of(d)[..k]
    ensures Utf8Of(c)[k] != Utf8Of(d)[k] && (Utf8Of(c)[k] < Utf8Of(d)[k] <==> c < d)
  {
    if |Utf8Of(c)| < |Utf8Of(d)| {
      LongerIsGreater(c, d);
      k := 0;
    } else if |Utf8Of(d)| < |Utf8Of(c)| {
      LongerIsGreater(d, c);
      k := 0;
    } else if |Utf8Of(c)| == 4 {
      k := Differ4(c, d);
    } else if |Utf8Of(c)| == 3 {
      k := Differ3(c, d);
    } else {
      k := Differ2(c, d);
    }
  }

  lemma Differ4(c: char, d: char) returns (k: nat)
    requires c != d && |Utf8Of(c)| == |Utf8Of(d)| == 4
    ensures k < 4 && Utf8Of(c)[..k] == Utf8Of(d)[..k]
    ensures Utf8Of(c)[k] != Utf8Of(d)[k] && (Utf8Of(c)[k] < Utf8Of(d)[k] <==> c < d)
  {
    var x, y := c as int, d as int;
    FirstDigitTells(x, y);
    k := 3 - FirstDigit(x, y);
  }

  lemma Differ3(c: char, d: char) returns (k: nat)
    requires c != d && |Utf8Of(c)| == |Utf8Of(d)| == 3
    ensures k < 3 && Utf8Of(c)[..k] == Utf8Of(d)[..k]
    ensures Utf8Of(c)[k] != Utf8Of(d)[k] && (Utf8Of(c)[k] < Utf8Of(d)[k] <==> c < d)
  {
    var x, y := c as int, d as int;
    FirstDigitTells(x, y);
    k := 2 - FirstDigit(x, y);
  }

  lemma Differ2(c: char, d: char) returns (k: nat)
    requires c != d && |Utf8Of(c)| == |Utf8Of(d)| <= 2
    ensures k < |Utf8Of(c)| && Utf8Of(c)[..k] == Utf8Of(d)[..k]
    ensures Utf8Of(c)[k] != Utf8Of(d)[k] && (Utf8Of(c)[k] < Utf8Of(d)[k] <==> c < d)
  {
    var x, y := c as int, d as int;
    FirstDigitTells(x, y);
    k := if |Utf8Of(c)| == 1 then 0 else 1 - FirstDigit(x, y);
  }

  lemma Utf8OfOrder(c: char, d: char, s: seq<int>, t: seq<int>)
    requires c != d
    ensures Lexicographic.Less(Utf8Of(c) + s, Utf8Of(d) + t) <==> c < d
  {
    var k := Utf8Differ(c, d);
    var u, v := Utf8Of(c) + s, Utf8Of(d) + t;
    assert u[..k] == Utf8Of(c)[..k] == Utf8Of(d)[..k] == v[..k];
    assert u == u[..k] + u[k..] && v == u[..k] + v[k..];
    Lexicographic.CommonPrefix(u[..k], u[k..], v[k..]);
    assert u[k..][0] == Utf8Of(c)[k] && v[k..][0] == Utf8Of(d)[k];
  }

  /** Byte order, which is Go's string order, is the order of code points. */
  lemma {:induction false} Utf8OrderIsCodePointOrder(a: string, b: string)
    ensures Lexicographic.Less(Utf8(a), Utf8(b)) <==> Lexicographic.Less(CodePoints(a), CodePoints(b))
  {
    if a != [] && b != [] {
      if a[0] == b[0] {
        Utf8OrderIsCodePointOrder(a[1..], b[1..]);
        Lexicographic.CommonPrefix(Utf8Of(a[0]), Utf8(a[1..]), Utf8(b[1..]));
        Lexicographic.CommonPrefix([a[0] as int], CodePoints(a[1..]), CodePoints(b[1..]));
      } else {
        Utf8OfOrder(a[0], b[0], Utf8(a[1..]), Utf8(b[1..]));
      }
    }
  }
}

/** JSON string literals: the minimal spelling the printer writes (writeEscaped), and the full literal
    grammar of section 7 of RFC 8259 it is measured against. */
module Literal {
  import opened Options
  import opened Unicode

  // ------------------------------------------------- the minimal spelling

  function HexDigit(d: int): char
    requires 0 <= d < 16
  {
    if d < 10 then (48 + d) as char else (87 + d) as char
  }

  /** One character of a literal: its short escape, \u00XX for the other controls, else the character. */
  function Escape(c: char): (r: string)
    ensures 1 <= |r| <= 6
  {
    if c == '\U{8}' then "\\b"
    else if c == '\t' then "\\t"
    else if c == '\n' then "\\n"
    else if c == '\U{C}' then "\\f"
    else if c == '\r' then "\\r"
    else if c == '"' then "\\\""
    else if c == '\\' then "\\\\"
    else if c < ' ' then "\\u00" + [HexDigit(c as int / 16), HexDigit(c as int % 16)]
    else [c]
  }

  function EscapeAll(s: string): string {
    if s == [] then [] else Escape(s[0]) + EscapeAll(s[1..])
  }

  function Quote(s: string): string {
    "\"" + EscapeAll(s) + "\""
  }

  // -------------------------------------------------- the literal grammar

  function HexValue(c: char): (r: Option<int>)
    ensures r.Some? ==> 0 <= r.value < 16
  {
    if '0' <= c <= '9' then Some(c as int - '0' as int)
    else if 'a' <= c <= 'f' then Some(c as int - 'a' as int + 10)
    else if 'A' <= c <= 'F' then Some(c as int - 'A' as int + 10)
    else None
  }

  /** The code unit a \uXXXX escape at the head of `t` names. */
  function ReadHexEscape(t: string): (r: Option<int>)
    ensures r.Some? ==> |t| >= 6 && t[0] == '\\' && 0 <= r.value < 0x1_0000
  {
    if |t| < 6 || t[0] != '\\' || t[1] != 'u' then None
    else
      var a :- HexValue(t[2]);
      var b :- HexValue(t[3]);
      var c :- HexValue(t[4]);
      var d :- HexValue(t[5]);
      Some(a * 0x1000 + b * 0x100 + c * 0x10 + d)
  }

  /** The character a two-character escape names. */
  function ShortEscape(c: char): Option<char> {
    if c == 'b' then Some('\U{8}')
    else if c == 't' then Some('\t')
    else if c == 'n' then Some('\n')
    else if c == 'f' then Some('\U{C}')
    else if c == 'r' then Some('\r')
    else if c == '"' || c == '\\' || c == '/' then Some(c)
    else None
  }

  /** Reads one character of a literal's body in any spelling RFC 8259 allows, with the length of the
      spelling; None at a quote, a raw control character, a malformed escape or a lone surrogate. */
  function ReadChar(t: string): (r: Option<(char, nat)>)
    ensures r.Some? ==> 1 <= r.value.1 <= |t| && t[0] != '"'
  {
    if t == [] || t[0] == '"' || t[0] < ' ' then None
    else if t[0] != '\\' then Some((t[0], 1))
    else if |t| < 2 then None
    else if t[1] != 'u' then
      var c :- ShortEscape(t[1]);
      Some((c, 2))
    else
      var hi :- ReadHexEscape(t);
      if !(0xD800 <= hi < 0xE000) then Some((hi as char, 6))
      else if hi >= 0xDC00 then None
      else
        var lo :- ReadHexEscape(t[6..]);
        if 0xDC00 <= lo < 0xE000 then Some(((0x1_0000 + (hi - 0xD800) * 0x400 + (lo - 0xDC00)) as char, 12))
        else None
  }

  /** Reads a literal's body up to its closing quote: the decoded text and what follows the quote. */
  function ReadBody(t: string): (r: Option<(string, string)>)
    ensures r.Some? ==> |r.value.1| < |t|
    decreases |t|
  {
    if t == [] then None
    else if t[0] == '"' then Some(([], t[1..]))
    else
      var (c, n) :- ReadChar(t);
      var (s, rest) :- ReadBody(t[n..]);
      Some(([c] + s, rest))
  }

  /** Reads a whole literal at the head of `t`. */
  function ReadLiteral(t: string): (r: Option<(string, string)>)
    ensures r.Some? ==> |r.value.1| < |t|
  {
    if t == [] || t[0] != '"' then None else ReadBody(t[1..])
  }

  /** Reads a literal whose every character has its minimal spelling. */
  function ReadMinimalBody(t: string): (r: Option<(string, string)>)
    ensures r.Some? ==> |r.value.1| < |t|
    decreases |t|
  {
    if t == [] then None
    else if t[0] == '"' then Some(([], t[1..]))
    else
      var (c, n) :- ReadChar(t);
      if t[..n] != Escape(c) then None
      else
        var (s, rest) :- ReadMinimalBody(t[n..]);
        Some(([c] + s, rest))
  }

  function ReadMinimal(t: string): (r: Option<(string, string)>)
    ensures r.Some? ==> |r.value.1| < |t|
  {
    if t == [] || t[0] != '"' then None else ReadMinimalBody(t[1..])
  }

  // --------------------------------------------------------------- proofs

  lemma HexDigitValue(d: int)
    requires 0 <= d < 16
    ensures HexValue(HexDigit(d)) == Some(d)
  {
  }

  lemma ReadCharEscape(c: char, rest: string)
    ensures ReadChar(Escape(c) + rest) == Some((c, |Escape(c)|))
    ensures Escape(c)[0] != '"'
  {
    var t := Escape(c) + rest;
    if |Escape(c)| == 6 {
      HexDigitValue(c as int / 16);
      HexDigitValue(c as int % 16);
      HexDigitValue(0);
      assert t[2] == '0' && t[3] == '0' && t[4] == HexDigit(c as int / 16) && t[5] == HexDigit(c as int % 16);
      assert ReadHexEscape(t) == Some(c as int);
    }
  }

  /** What the printer writes is read back as the text it was given, in the full grammar and in the
      minimal one: no quote inside the literal ends it early. */
  lemma {:induction false} ReadBodyEscapeAll(s: string, rest: string)
    ensures ReadBody(EscapeAll(s) + "\"" + rest) == Some((s, rest))
    ensures ReadMinimalBody(EscapeAll(s) + "\"" + rest) == Some((s, rest))
  {
    hide ReadChar, Escape;
    var t := EscapeAll(s) + "\"" + rest;
    if s == [] {
      assert t[1..] == rest;
    } else {
      var tail := EscapeAll(s[1..]) + "\"" + rest;
      assert t == Escape(s[0]) + tail;
      ReadCharEscape(s[0], tail);
      ReadBodyEscapeAll(s[1..], rest);
      BodyOneMore(s[0], tail);
      assert [s[0]] + s[1..] == s;
    }
  }

  /** Both readers take one written character off the head. */
  lemma BodyOneMore(c: char, tail: string)
    requires ReadChar(Escape(c) + tail) == Some((c, |Escape(c)|)) && Escape(c)[0] != '"'
    ensures ReadBody(Escape(c) + tail) ==
      if ReadBody(tail).Some? then Some(([c] + ReadBody(tail).value.0, ReadBody(tail).value.1)) else None
    ensures ReadMinimalBody(Escape(c) + tail) ==
      if ReadMinimalBody(tail).Some? then Some(([c] + ReadMinimalBody(tail).value.0, ReadMinimalBody(tail).value.1)) else None
  {
    hide ReadChar, Escape;
    var t, n := Escape(c) + tail, |Escape(c)|;
    assert t[0] == Escape(c)[0];
    assert t[n..] == tail && t[..n] == Escape(c);
  }

  lemma ReadLiteralQuote(s: string, rest: string)
    ensures ReadLiteral(Quote(s) + rest) == Some((s, rest))
    ensures ReadMinimal(Quote(s) + rest) == Some((s, rest))
  {
    assert (Quote(s) + rest)[1..] == EscapeAll(s) + "\"" + rest;
    ReadBodyEscapeAll(s, rest);
  }

  lemma {:induction false} ReadMinimalBodySound(t: string)
    requires ReadMinimalBody(t).Some?
    ensures var (s, rest) := ReadMinimalBody(t).value; t == EscapeAll(s) + "\"" + rest
    decreases |t|
  {
    hide ReadChar, Escape;
    if t[0] == '"' {
      assert t == "\"" + t[1..];
    } else {
      var (c, n) := ReadChar(t).value;
      var (s, rest) := ReadMinimalBody(t[n..]).value;
      ReadMinimalBodySound(t[n..]);
      assert ([c] + s)[1..] == s;
      assert t == t[..n] + t[n..];
    }
  }

  /** The minimal reader accepts nothing but what the printer writes. */
  lemma ReadMinimalSound(t: string)
    requires ReadMinimal(t).Some?
    ensures var (s, rest) := ReadMinimal(t).value; t == Quote(s) + rest
  {
    hide ReadMinimalBody, EscapeAll;
    ReadMinimalBodySound(t[1..]);
    assert t == "\"" + t[1..];
  }

  lemma {:induction false} Utf8AtLeastLength(s: string)
    ensures |Utf8(s)| >= |s|
  {
    if s != [] {
      Utf8AtLeastLength(s[1..]);
    }
  }

  lemma Utf8Single(c: char)
    ensures Utf8([c]) == Utf8Of(c)
  {
    assert [c][1..] == [];
  }

  lemma {:induction false} EscapeAscii(s: string)
    requires forall i :: 0 <= i < |s| ==> s[i] as int < 0x80
    ensures |Utf8(s)| == |s|
  {
    if s != [] {
      EscapeAscii(s[1..]);
    }
  }

  /** Any spelling of a character takes at least as many bytes as the one the printer writes. */
  lemma EscapeShortest(t: string)
    requires ReadChar(t).Some?
    ensures var (c, n) := ReadChar(t).value; |Utf8(Escape(c))| <= |Utf8(t[..n])|
  {
    var (c, n) := ReadChar(t).value;
    if n == 1 {
      assert t[..1] == [c] == Escape(c);
    } else {
      Utf8AtLeastLength(t[..n]);
      EscapeLength(c);
      ReadCharLength(t);
    }
  }

  /** The minimal spelling in bytes: two for a short escape, six for another control, else UTF-8. */
  lemma EscapeLength(c: char)
    ensures |Utf8(Escape(c))| == if ShortEscaped(c) then 2 else if c < ' ' then 6 else |Utf8Of(c)|
  {
    if |Escape(c)| == 1 {
      Utf8Single(c);
    } else {
      EscapeAscii(Escape(c));
    }
  }

  /** The seven characters that have a two-character escape and need one. */
  predicate ShortEscaped(c: char) {
    c in {'\U{8}', '\t', '\n', '\U{C}', '\r', '"', '\\'}
  }

  /** Spellings of two or more characters: two only for a short escape or the solidus, else six or twelve. */
  lemma ReadCharLength(t: string)
    requires ReadChar(t).Some? && ReadChar(t).value.1 > 1
    ensures var (c, n) := ReadChar(t).value; (n == 2 && (ShortEscaped(c) || c == '/')) || n >= 6
  {
  }

  lemma {:induction false} EscapeAllShortest(t: string)
    requires ReadBody(t).Some?
    ensures var (s, rest) := ReadBody(t).value; |Utf8(EscapeAll(s))| + 1 + |Utf8(rest)| <= |Utf8(t)|
    decreases |t|
  {
    hide ReadChar, Escape;
    if t[0] != '"' {
      var (c, n) := ReadChar(t).value;
      var (s, rest) := ReadBody(t[n..]).value;
      EscapeShortest(t);
      EscapeAllShortest(t[n..]);
      assert ([c] + s)[1..] == s;
      Utf8Concat(Escape(c), EscapeAll(s));
      assert t == t[..n] + t[n..];
      Utf8Concat(t[..n], t[n..]);
    }
  }

  /** Minimality: whatever spelling `lit` a literal has, if it decodes to `s` then it is no shorter, in
      bytes, than the one the printer writes. */
  lemma QuoteShortest(lit: string, s: string)
    requires ReadLiteral(lit) == Some((s, []))
    ensures |Utf8(Quote(s))| <= |Utf8(lit)|
  {
    EscapeAllShortest(lit[1..]);
    assert lit == "\"" + lit[1..];
    Utf8Concat("\"", lit[1..]);
    Utf8Concat("\"" + EscapeAll(s), "\"");
    Utf8Concat("\"", EscapeAll(s));
    Utf8Single('"');
  }

  // ------------------------------------------- the one lower-case shortest

  /** The spelling at hand, if it is an escape, has no upper-case hexadecimal digit. */
  predicate LowerSpelling(spelling: string) {
    spelling != [] && spelling[0] == '\\' ==> forall i :: 0 <= i < |spelling| ==> !('A' <= spelling[i] <= 'F')
  }

  /** Every escape of a literal's body is in lower case. */
  predicate LowerBody(t: string)
    decreases |t|
  {
    t != [] && t[0] != '"' && ReadChar(t).Some? ==>
      LowerSpelling(t[..ReadChar(t).value.1]) && LowerBody(t[ReadChar(t).value.1..])
  }

  predicate LowerLiteral(lit: string) {
    lit != [] ==> LowerBody(lit[1..])
  }

  /** A code unit below 32 has one spelling in four lower-case hexadecimal digits. */
  lemma LowerHexUnique(t: string)
    requires ReadHexEscape(t).Some? && ReadHexEscape(t).value < 0x20 && LowerSpelling(t[..6])
    ensures var x := ReadHexEscape(t).value; t[..6] == "\\u00" + [HexDigit(x / 16), HexDigit(x % 16)]
  {
    var x := ReadHexEscape(t).value;
    assert t[..6][2] == t[2] && t[..6][3] == t[3] && t[..6][4] == t[4] && t[..6][5] == t[5];
    var a, b, c, d := HexValue(t[2]).value, HexValue(t[3]).value, HexValue(t[4]).value, HexValue(t[5]).value;
    assert a == 0 && b == 0 && c == x / 16 && d == x % 16;
    LowerDigit(t[2]);
    LowerDigit(t[3]);
    LowerDigit(t[4]);
    LowerDigit(t[5]);
  }

  lemma LowerDigit(c: char)
    requires HexValue(c).Some? && !('A' <= c <= 'F')
    ensures c == HexDigit(HexValue(c).value)
    ensures HexValue(c).value == 0 ==> c == '0'
  {
  }

  /** A lower-case spelling as short as the printer's is the printer's. */
  lemma SpellingUnique(t: string)
    requires ReadChar(t).Some?
    requires var (c, n) := ReadChar(t).value; LowerSpelling(t[..n]) && |Utf8(t[..n])| == |Utf8(Escape(c))|
    ensures var (c, n) := ReadChar(t).value; t[..n] == Escape(c)
  {
    var (c, n) := ReadChar(t).value;
    if n == 1 {
      assert t[..1] == [c];
    } else {
      Utf8AtLeastLength(t[..n]);
      EscapeLength(c);
      ReadCharLength(t);
      if n == 2 {
        assert t[..2] == ['\\', t[1]];
      } else if n == 6 && c < ' ' && !ShortEscaped(c) {
        LowerHexUnique(t);
      } else {
        Utf8OfShort(c);
      }
    }
  }

  lemma Utf8OfShort(c: char)
    ensures |Utf8Of(c)| <= 4
  {
  }

  /** The bytes of a body and of its canonical spelling, character by character. */
  lemma BodySplits(t: string)
    requires ReadBody(t).Some? && t[0] != '"'
    ensures var (c, n) := ReadChar(t).value;
            var (s, rest) := ReadBody(t[n..]).value;
            && ReadBody(t).value == ([c] + s, rest)
            && EscapeAll([c] + s) == Escape(c) + EscapeAll(s)
            && |Utf8(t)| == |Utf8(t[..n])| + |Utf8(t[n..])|
            && |Utf8(EscapeAll([c] + s))| == |Utf8(Escape(c))| + |Utf8(EscapeAll(s))|
  {
    hide ReadChar, Escape, Utf8;
    var (c, n) := ReadChar(t).value;
    var (s, rest) := ReadBody(t[n..]).value;
    assert ([c] + s)[1..] == s;
    Utf8Concat(Escape(c), EscapeAll(s));
    assert t == t[..n] + t[n..];
    Utf8Concat(t[..n], t[n..]);
  }

  lemma {:induction false} BodyUnique(t: string)
    requires ReadBody(t).Some? && ReadBody(t).value.1 == [] && LowerBody(t)
    requires |Utf8(t)| == |Utf8(EscapeAll(ReadBody(t).value.0))| + 1
    ensures t == EscapeAll(ReadBody(t).value.0) + "\""
    decreases |t|
  {
    hide ReadChar, Escape, EscapeAll;
    if t[0] == '"' {
      assert t == "\"" + t[1..];
      NothingEscaped();
    } else {
      var n := ReadChar(t).value.1;
      BodySplits(t);
      EscapeShortest(t);
      EscapeAllShortest(t[n..]);
      hide Utf8;
      SpellingUnique(t);
      BodyUnique(t[n..]);
      assert t == t[..n] + t[n..];
    }
  }

  lemma NothingEscaped()
    ensures EscapeAll([]) == []
  {
  }

  /** The canonical literal is unique: of the literals that decode to a string, one in lower case and as short as any
      is the one written. */
  lemma QuoteUnique(lit: string, s: string)
    requires ReadLiteral(lit) == Some((s, [])) && LowerLiteral(lit) && |Utf8(lit)| == |Utf8(Quote(s))|
    ensures lit == Quote(s)
  {
    assert lit == "\"" + lit[1..];
    Utf8Concat("\"", lit[1..]);
    Utf8Concat("\"" + EscapeAll(s), "\"");
    Utf8Concat("\"", EscapeAll(s));
    Utf8Single('"');
    BodyUnique(lit[1..]);
  }

  /** And it is in lower case itself. */
  lemma QuoteLower(s: string)
    ensures LowerLiteral(Quote(s))
  {
    assert Quote(s)[1..] == EscapeAll(s) + "\"";
    EscapeAllLower(s);
  }

  lemma {:induction false} EscapeAllLower(s: string)
    ensures LowerBody(EscapeAll(s) + "\"")
  {
    if s != [] {
      var rest := EscapeAll(s[1..]) + "\"";
      var t := EscapeAll(s) + "\"";
      assert t == Escape(s[0]) + rest;
      ReadCharEscape(s[0], rest);
      EscapeLower(s[0]);
      EscapeAllLower(s[1..]);
      hide ReadChar, Escape;
      assert t[..|Escape(s[0])|] == Escape(s[0]) && t[|Escape(s[0])|..] == rest;
    }
  }

  lemma EscapeLower(c: char)
    ensures LowerSpelling(Escape(c))
  {
  }

  lemma {:induction false} EscapeAllNoControls(s: string)
    ensures forall i :: 0 <= i < |EscapeAll(s)| ==> EscapeAll(s)[i] >= ' '
  {
    if s != [] {
      EscapeAllNoControls(s[1..]);
      var c := s[0];
      if |Escape(c)| == 6 {
        HexDigitValue(c as int / 16);
        HexDigitValue(c as int % 16);
      }
      assert forall i :: 0 <= i < |Escape(c)| ==> Escape(c)[i] >= ' ';
    }
  }

  /** No raw control character reaches the output. */
  lemma QuoteNoControls(s: string)
    ensures forall i :: 0 <= i < |Quote(s)| ==> Quote(s)[i] >= ' '
  {
    EscapeAllNoControls(s);
  }

  lemma {:induction false} EscapeAllConcat(s: string, t: string)
    ensures EscapeAll(s + t) == EscapeAll(s) + EscapeAll(t)
  {
    if s == [] {
      assert s + t == t;
    } else {
      assert (s + t)[1..] == s[1..] + t;
      EscapeAllConcat(s[1..], t);
    }
  }
}

/** A reader of JSON as section 2 of RFC 8259 has it, written without regard to the canonical printer: white space
    between tokens, any escapes, members in any order, the last of several members with one name. Numbers are
    read when they are integers without fraction or exponent, the only ones a JSON value holds here. */
module Decoder {
  import opened Options
  import opened Unicode
  import opened Ordering
  import opened Json
  import Literal
  import Decimal
  import C = Canonical

  predicate IsSpace(c: char) {
    c in {' ', '\t', '\n', '\r'}
  }

  function Skip(t: string): (r: string)
    ensures |r| <= |t|
  {
    if t != [] && IsSpace(t[0]) then Skip(t[1..]) else t
  }

  /** The next token starts with `c`. */
  predicate Next(t: string, c: char) {
    Skip(t) != [] && Skip(t)[0] == c
  }

  function After(t: string): (r: string)
    requires Skip(t) != []
    ensures |r| < |t|
  {
    Skip(t)[1..]
  }

  /** What may follow an integer for it to be the whole number. */
  predicate EndsNumber(rest: string) {
    rest == [] || (!Decimal.IsDigit(rest[0]) && rest[0] !in {'.', 'e', 'E'})
  }

  function DecodeInt(t: string): (r: Option<(int, string)>)
    ensures r.Some? ==> |r.value.1| < |t|
  {
    var negative := t != [] && t[0] == '-';
    var (i, rest) :- Decimal.ReadNat(if negative then t[1..] else t);
    if EndsNumber(rest) then Some((if negative then -i else i, rest)) else None
  }

  /** Reads one value at the head of `t`. */
  function Decode(t: string): (r: Option<(Value, string)>)
    ensures r.Some? ==> |r.value.1| < |t|
    decreases |t|, 1
  {
    var t := Skip(t);
    if t == [] then None
    else if t[0] == '"' then
      var (s, rest) :- Literal.ReadLiteral(t);
      Some((String(s), rest))
    else if t[0] == '[' then
      if Next(t[1..], ']') then Some((Array([]), After(t[1..])))
      else
        var (items, rest) :- DecodeItems(t[1..]);
        Some((Array(items), rest))
    else if t[0] == '{' then
      if Next(t[1..], '}') then Some((Object(map[]), After(t[1..])))
      else
        var (members, rest) :- DecodeMembers(t[1..]);
        Some((Object(members), rest))
    else if "null" <= t then Some((Null, t[4..]))
    else if "true" <= t then Some((Bool(true), t[4..]))
    else if "false" <= t then Some((Bool(false), t[5..]))
    else
      var (i, rest) :- DecodeInt(t);
      Some((Int(i), rest))
  }

  function DecodeItems(t: string): (r: Option<(seq<Value>, string)>)
    ensures r.Some? ==> |r.value.1| < |t|
    decreases |t|, 2
  {
    var (v, rest) :- Decode(t);
    if Next(rest, ']') then Some(([v], After(rest)))
    else if Next(rest, ',') then
      var (items, rest) :- DecodeItems(After(rest));
      Some(([v] + items, rest))
    else None
  }

  function DecodeMembers(t: string): (r: Option<(map<string, Value>, string)>)
    ensures r.Some? ==> |r.value.1| < |t|
    decreases |t|, 2
  {
    var (name, colon) :- Literal.ReadLiteral(Skip(t));
    if !Next(colon, ':') then None
    else
      var (v, rest) :- Decode(After(colon));
      if Next(rest, '}') then Some((map[name := v], After(rest)))
      else if Next(rest, ',') then
        var (members, rest) :- DecodeMembers(After(rest));
        Some((map[name := v] + members, rest))
      else None
  }

  /** A whole document: one value, and white space at most around it. */
  function DecodeText(t: string): Option<Value> {
    var (v, rest) :- Decode(t);
    if Skip(rest) == [] then Some(v) else None
  }

  // ------------------------------------------------ canonical text decodes

  lemma {:induction false} DecodesPrint(v: Value, rest: string)
    requires EndsNumber(rest)
    ensures Decode(Print(v) + rest) == Some((v, rest))
    decreases v, 3
  {
    var t := Print(v) + rest;
    match v
    case Null =>
      assert t == "null" + rest && t[4..] == rest && t[0] == 'n';
    case Bool(b) =>
      if b {
        assert t == "true" + rest && t[4..] == rest && t[0] == 't';
      } else {
        assert t == "false" + rest && t[5..] == rest && t[0] == 'f';
      }
    case Int(i) =>
      DecodesInt(i, rest);
    case String(s) =>
      Literal.ReadLiteralQuote(s, rest);
    case Array(items) =>
      DecodesArray(items, rest);
    case Object(members) =>
      DecodesObject(v, rest);
  }

  lemma DecodesInt(i: int, rest: string)
    requires EndsNumber(rest)
    ensures Decode(Decimal.Format(i) + rest) == Some((Int(i), rest))
  {
    hide Decode, Decimal.Format, Decimal.Digits, Decimal.ReadNat, DecodeInt;
    var t := Decimal.Format(i) + rest;
    TokenStart(Int(i));
    assert Print(Int(i)) == Decimal.Format(i);
    IntStart(i);
    ReadsInt(i, rest);
    assert t[0] == Decimal.Format(i)[0];
    DecodesNumber(t);
  }

  lemma IntStart(i: int)
    ensures var s := Decimal.Format(i); s != [] && (s[0] == '-' || Decimal.IsDigit(s[0]))
  {
    assert Decimal.AllDigits(Decimal.Digits(if i < 0 then -i else i));
    hide Decimal.Digits;
  }

  lemma ReadsInt(i: int, rest: string)
    requires EndsNumber(rest)
    ensures DecodeInt(Decimal.Format(i) + rest) == Some((i, rest))
  {
    hide Decimal.Digits, Decimal.ReadNat;
    var n := if i < 0 then -i else i;
    var t := Decimal.Format(i) + rest;
    Decimal.ReadNatDigits(n, rest);
    if i < 0 {
      assert t[0] == '-' && t[1..] == Decimal.Digits(n) + rest;
    } else {
      assert Decimal.IsDigit(Decimal.Digits(n)[0]);
    }
  }

  /** A text that starts like a number is read as one. */
  lemma DecodesNumber(t: string)
    requires t != [] && (t[0] == '-' || Decimal.IsDigit(t[0])) && DecodeInt(t).Some?
    ensures Decode(t) == Some((Int(DecodeInt(t).value.0), DecodeInt(t).value.1))
  {
    hide DecodeInt;
    assert Skip(t) == t;
    assert "null"[0] == 'n' && "true"[0] == 't' && "false"[0] == 'f';
  }

  lemma {:induction false} DecodesArray(items: seq<Value>, rest: string)
    ensures Decode(Print(Array(items)) + rest) == Some((Array(items), rest))
    decreases items, 2
  {
    hide Decode, PrintItems, DecodeItems, Skip, Next;
    if items == [] {
      EmptyItems();
      DecodesEmpty(rest);
    } else {
      DecodesItems(items, rest);
      var inner := PrintItems(items) + "]" + rest;
      ItemsStart(items);
      assert inner[0] == PrintItems(items)[0];
      DecodesBracket(inner);
      assert Print(Array(items)) + rest == "[" + inner;
    }
  }

  lemma EmptyItems()
    ensures Print(Array([])) == "[]"
  {
  }

  lemma DecodesEmpty(rest: string)
    ensures Decode("[]" + rest) == Some((Array([]), rest))
  {
    var t := "[]" + rest;
    assert t[0] == '[' && t[1..] == "]" + rest;
    assert Skip(t) == t && Skip(t[1..]) == t[1..];
    assert After(t[1..]) == rest;
  }

  /** A bracket followed by items is read by the item reader. */
  lemma DecodesBracket(inner: string)
    requires inner != [] && inner[0] != ']' && !IsSpace(inner[0]) && DecodeItems(inner).Some?
    ensures Decode("[" + inner) == Some((Array(DecodeItems(inner).value.0), DecodeItems(inner).value.1))
  {
    hide DecodeItems;
    var t := "[" + inner;
    assert t[0] == '[' && t[1..] == inner;
    assert Skip(t) == t && Skip(inner) == inner;
  }

  lemma ItemsStart(items: seq<Value>)
    requires items != []
    ensures PrintItems(items) != [] && PrintItems(items)[0] != ']' && !IsSpace(PrintItems(items)[0])
  {
    hide Print;
    TokenStart(items[0]);
  }

  /** A printed value starts with a token of its own. */
  lemma TokenStart(v: Value)
    ensures Print(v) != [] && !IsSpace(Print(v)[0]) && Print(v)[0] !in {']', '}', ',', ':'}
  {
    if v.Int? {
      Decimal.FormatStart(v.i);
      assert Decimal.AllDigits(Decimal.Digits(if v.i < 0 then -v.i else v.i));
    }
  }

  lemma {:induction false} DecodesItems(items: seq<Value>, rest: string)
    requires items != []
    ensures DecodeItems(PrintItems(items) + "]" + rest) == Some((items, rest))
    decreases items, 1
  {
    hide Decode, Print;
    if |items| == 1 {
      var after := "]" + rest;
      assert PrintItems(items) + "]" + rest == Print(items[0]) + after;
      DecodesPrint(items[0], after);
      assert Skip(after) == after && after[1..] == rest;
      assert items == [items[0]];
    } else {
      var inner := PrintItems(items[1..]) + "]" + rest;
      var after := "," + inner;
      DecodesItems(items[1..], rest);
      assert PrintItems(items) + "]" + rest == Print(items[0]) + after;
      DecodesPrint(items[0], after);
      assert Skip(after) == after && after[1..] == inner;
      assert items == [items[0]] + items[1..];
    }
  }

  lemma {:induction false} DecodesObject(v: Value, rest: string)
    requires v.Object?
    ensures Decode(Print(v) + rest) == Some((v, rest))
    decreases v, 2
  {
    hide Listing, Ascending, DecodeMembers, PrintMembers;
    var names := Listing(ByUtf16, v.members.Keys);
    ListingSorted(ByUtf16, v.members.Keys);
    var t := Print(v) + rest;
    if names == [] {
      assert v.members.Keys == Elements([]) == {};
      assert v.members == map[];
      ReadEmptyObject(rest);
      assert t == "{}" + rest && t[0] == '{' && t[1..] == "}" + rest && After(t[1..]) == rest;
    } else {
      ListingMembers(v);
      DecodesMembers(v, names, rest);
      PrintMembersStart(v, names);
      var inner := PrintMembers(v, names) + "}" + rest;
      assert t == "{" + inner && t[0] == '{' && t[1..] == inner;
      assert inner[0] == '"';
      assert Select(v, names) == v.members by {
        assert forall n :: n in names <==> n in Elements(names);
      }
    }
  }

  lemma {:induction false} DecodesMembers(v: Value, names: seq<string>, rest: string)
    requires names != [] && HasMembers(v, names)
    ensures DecodeMembers(PrintMembers(v, names) + "}" + rest) == Some((Select(v, names), rest))
    decreases v, 1, |names|
  {
    hide Decode, Print, PrintMember, Select, Literal.ReadLiteral, Literal.Quote;
    var name := names[0];
    var value := v.members[name];
    if |names| == 1 {
      var after := "}" + rest;
      assert PrintMembers(v, names) + "}" + rest == PrintMember(v, name) + after;
      DecodesPrint(value, after);
      MemberHead(v, name, after);
      assert Skip(after) == after && after[1..] == rest;
      assert names == [name];
      SelectSingle(v, name);
    } else {
      var tail := names[1..];
      var inner := PrintMembers(v, tail) + "}" + rest;
      var after := "," + inner;
      DecodesMembers(v, tail, rest);
      assert PrintMembers(v, names) + "}" + rest == PrintMember(v, name) + after;
      DecodesPrint(value, after);
      MemberHead(v, name, after);
      assert Skip(after) == after && after[1..] == inner;
      assert names == [name] + tail;
      SelectFirst(v, name, tail);
    }
  }

  lemma SelectFirst(v: Value, name: string, tail: seq<string>)
    requires HasMembers(v, [name] + tail)
    ensures name in v.members && HasMembers(v, tail)
    ensures Select(v, [name] + tail) == map[name := v.members[name]] + Select(v, tail)
  {
    assert name in [name] + tail;
    assert forall n :: n in [name] + tail <==> n == name || n in tail;
  }

  /** A printed member is read as its name, a colon and its value. */
  lemma MemberHead(v: Value, name: string, after: string)
    requires HasMembers(v, [name])
    ensures var t := PrintMember(v, name) + after;
            var colon := ":" + (Print(v.members[name]) + after);
            && Skip(t) == t && Literal.ReadLiteral(t) == Some((name, colon))
            && Next(colon, ':') && After(colon) == Print(v.members[name]) + after
  {
    assert name in [name];
    var colon := ":" + (Print(v.members[name]) + after);
    var t := PrintMember(v, name) + after;
    assert t == Literal.Quote(name) + colon && t[0] == '"';
    Literal.ReadLiteralQuote(name, colon);
    assert Skip(colon) == colon && colon[1..] == Print(v.members[name]) + after;
  }

  /** Any reader of JSON finds in a serialization what the Go value denotes: the canonical bytes are UTF-8 text
      that decodes, by the general rules, to that value. */
  lemma SerializationDecodes(v: C.Value)
    requires C.CanonicalBytes(v).Some?
    ensures var text := DecodeUtf8(C.CanonicalBytes(v).value);
            text.Some? && DecodeText(text.value) == C.Denote(v, true)
  {
    hide Decode, Print, Utf8, C.Denote;
    var d := C.Denote(v, true).value;
    Utf8RoundTrip(Print(d));
    DecodesPrint(d, []);
    assert Print(d) + [] == Print(d);
  }
}

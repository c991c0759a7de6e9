/** The canonical serializer of admission/canonical.go: the Go values it accepts, what each denotes, and
    the printer itself, appending to a buffer, proved to write the one canonical text of that value. */
module Canonical {
  import opened Options
  import opened Unicode
  import opened Ordering
  import Decimal
  import Literal
  import J = Json

  // ------------------------------------------------------- the Go values

  type Int64 = i: int | -0x8000_0000_0000_0000 <= i < 0x8000_0000_0000_0000
  type Uint64 = u: int | 0 <= u < 0x1_0000_0000_0000_0000

  /** A float64; a finite one is the real it stands for, with the negative zero kept apart. */
  datatype Float = NaN | Infinite(negative: bool) | NegativeZero | Finite(r: real)

  /** A Go value as the type switch sees it. The narrower integer types and float32 widen exactly, so
      one constructor stands for each family. */
  datatype Value =
    | Nil
    | Bool(b: bool)
    | Str(s: string)
    | Int(i: Int64)
    | Uint(u: Uint64)
    | Float(f: Float)
    | Number(text: string, parsed: Option<Float>)  // a json.Number and what parsing it as a float64 gives
    | Bytes
    | Map(m: map<string, Value>)
    | List(items: seq<Value>)
    | Strings(names: seq<string>)
    | Other(generic: Option<Value>)  // any other type, and what its trip through encoding/json gives

  // -------------------------------------------------------- what they denote

  const MAX_EXACT := 0x20_0000_0000_0000  // 2^53

  function DenoteFloat(f: Float): Option<J.Value> {
    match f
    case NegativeZero => Some(J.Int(0))
    case Finite(r) =>
      if r.Floor as real == r && -MAX_EXACT <= r.Floor <= MAX_EXACT then Some(J.Int(r.Floor)) else None
    case _ => None
  }

  /** The JSON value `v` stands for; None when the serializer refuses it. */
  ghost function Denote(v: Value, normalize: bool): Option<J.Value>
    decreases v
  {
    match v
    case Nil => Some(J.Null)
    case Bool(b) => Some(J.Bool(b))
    case Str(s) => Some(J.String(s))
    case Int(i) => Some(J.Int(i))
    case Uint(u) => Some(J.Int(u))
    case Float(f) => DenoteFloat(f)
    case Number(text, parsed) =>
      if Decimal.IsIntegerLiteral(text) then Some(J.Int(Decimal.LiteralValue(text)))
      else if parsed.Some? then DenoteFloat(parsed.value)
      else None
    case Bytes => None
    case Map(m) =>
      if forall k :: k in m ==> Denote(m[k], true).Some? then Some(DenoteMembers(v)) else None
    case List(items) =>
      if forall i :: 0 <= i < |items| ==> Denote(items[i], normalize).Some? then
        Some(J.Array(DenoteItems(items, normalize)))
      else None
    case Strings(names) => Some(J.Array(StringItems(names)))
    case Other(generic) => if normalize && generic.Some? then Denote(generic.value, false) else None
  }

  /** The members of a Go map that denote something. */
  ghost function DenoteMembers(v: Value): J.Value
    decreases v, 0
  {
    if v.Map? then
      J.Object(map k | k in v.m && Denote(v.m[k], true).Some? :: Denote(v.m[k], true).value)
    else J.Null
  }

  ghost function DenoteItems(items: seq<Value>, normalize: bool): (values: seq<J.Value>)
    ensures |values| == |items|
    ensures forall i :: 0 <= i < |items| && Denote(items[i], normalize).Some? ==>
      values[i] == Denote(items[i], normalize).value
    decreases items
  {
    seq(|items|, i requires 0 <= i < |items| =>
      var d := Denote(items[i], normalize);
      if d.Some? then d.value else J.Null)
  }

  function StringItems(names: seq<string>): (values: seq<J.Value>)
    ensures |values| == |names|
    ensures forall i :: 0 <= i < |names| ==> values[i] == J.String(names[i])
  {
    seq(|names|, i requires 0 <= i < |names| => J.String(names[i]))
  }

  /** The canonical serialization: the UTF-8 of the canonical text, or None on a refused value. */
  ghost function CanonicalBytes(v: Value): Option<seq<Byte>> {
    var d :- Denote(v, true);
    Some(Utf8(J.Print(d)))
  }

  // ------------------------------------------------------------ the printer

  /** The growing byte buffer every function of the serializer appends to. */
  class Buffer {
    var data: seq<Byte>
    ghost var text: string  // what data encodes

    ghost predicate Valid()
      reads this
    {
      data == Utf8(text)
    }

    constructor ()
      ensures Valid() && text == ""
    {
      data := [];
      text := "";
    }

    method WriteRune(c: char)
      requires Valid()
      modifies this
      ensures Valid() && text == old(text) + [c]
    {
      Utf8Concat(text, [c]);
      Literal.Utf8Single(c);
      data := data + Utf8Of(c);
      text := text + [c];
    }

    method WriteString(s: string)
      requires Valid()
      modifies this
      ensures Valid() && text == old(text) + s
    {
      Utf8Concat(text, s);
      data := data + Utf8(s);
      text := text + s;
    }
  }

  const SHORT_ESCAPES := map[
    '\U{8}' := "\\b", '\t' := "\\t", '\n' := "\\n", '\U{C}' := "\\f", '\r' := "\\r", '"' := "\\\"", '\\' := "\\\\"]

  /** Four lower-case hexadecimal digits: the %04x of a code below 0x10000. */
  function Hex4(x: int): string
    requires 0 <= x < 0x1_0000
  {
    [Literal.HexDigit(x / 0x1000), Literal.HexDigit(x / 0x100 % 0x10),
     Literal.HexDigit(x / 0x10 % 0x10), Literal.HexDigit(x % 0x10)]
  }

  /** Writes a JSON string with only the escapes it needs. */
  method WriteEscaped(buf: Buffer, s: string)
    requires buf.Valid()
    modifies buf
    ensures buf.Valid() && buf.text == old(buf.text) + Literal.Quote(s)
  {
    hide Utf8, Literal.EscapeAll;
    EscapeAllEmpty();
    buf.WriteString("\"");
    var i := 0;
    while i < |s|
      invariant 0 <= i <= |s|
      invariant buf.Valid() && buf.text == old(buf.text) + "\"" + Literal.EscapeAll(s[..i])
    {
      ghost var before := buf.text;
      var r := s[i];
      if r in SHORT_ESCAPES {
        buf.WriteString(SHORT_ESCAPES[r]);
      } else if r as int < 0x20 {
        buf.WriteString("\\u" + Hex4(r as int));
      } else {
        buf.WriteRune(r);
      }
      assert buf.text == before + Literal.Escape(r);
      EscapeAllSnoc(s[..i], r);
      assert s[..i + 1] == s[..i] + [r];
      i := i + 1;
    }
    buf.WriteString("\"");
    assert s[..|s|] == s;
  }

  lemma EscapeAllEmpty()
    ensures Literal.EscapeAll("") == ""
  {
  }

  lemma EscapeAllSnoc(s: string, c: char)
    ensures Literal.EscapeAll(s + [c]) == Literal.EscapeAll(s) + Literal.Escape(c)
  {
    Literal.EscapeAllConcat(s, [c]);
    assert [c][1..] == [];
  }

  /** Writes a float: only an integral one of exact magnitude, as the integer it is. */
  method WriteFloat(buf: Buffer, f: Float) returns (ok: bool)
    requires buf.Valid()
    modifies buf
    ensures buf.Valid()
    ensures ok <==> DenoteFloat(f).Some?
    ensures ok ==> buf.text == old(buf.text) + J.Print(DenoteFloat(f).value)
    ensures !ok ==> buf.text == old(buf.text)
  {
    match f {
      case NaN => return false;
      case Infinite(_) => return false;
      case NegativeZero => buf.WriteString(Decimal.Format(0)); return true;
      case Finite(r) =>
        var magnitude := if r < 0.0 then -r else r;
        if r.Floor as real != r || magnitude > MAX_EXACT as real {
          return false;
        }
        buf.WriteString(Decimal.Format(r.Floor));
        return true;
    }
  }

  /** Writes a json.Number: an integer literal as it stands ("-0" as 0), else the float it parses to. */
  method WriteNumber(buf: Buffer, text: string, parsed: Option<Float>) returns (ok: bool)
    requires buf.Valid()
    modifies buf
    ensures buf.Valid()
    ensures var d := Denote(Number(text, parsed), true);
            && (ok <==> d.Some?)
            && (ok ==> buf.text == old(buf.text) + J.Print(d.value))
  {
    if Decimal.IsIntegerLiteral(text) {
      Decimal.LiteralIsFormat(text);
      if text == "-0" {
        buf.WriteString("0");
      } else {
        buf.WriteString(text);
      }
      return true;
    }
    if parsed.None? {
      return false;
    }
    ok := WriteFloat(buf, parsed.value);
  }

  /** Members collected from some of a map's names: coded, without repetition. */
  ghost predicate Collected(members: seq<Member>, names: set<string>) {
    Coded(ByUtf16, members) && NoDuplicates(members) && Elements(Names(members)) == names
  }

  lemma CollectedNone()
    ensures Collected([], {})
  {
  }

  lemma CollectedOneMore(members: seq<Member>, names: set<string>, name: string)
    requires Collected(members, names) && name !in names
    ensures Collected(members + [Member(name, Utf16(name))], names + {name})
  {
    var more := members + [Member(name, Utf16(name))];
    assert Names(more) == Names(members) + [name];
    forall i | 0 <= i < |members|
      ensures members[i] != Member(name, Utf16(name))
    {
      assert Names(members)[i] in Elements(Names(members));
    }
  }

  /** The members of a map in an arbitrary order, each beside the UTF-16 code its name sorts by. */
  method CollectMembers(m: map<string, Value>) returns (members: array<Member>)
    ensures fresh(members)
    ensures Collected(members[..], m.Keys)
  {
    hide Collected;
    members := new Member[|m|];
    var keys := m.Keys;
    var i := 0;
    CollectedNone();
    assert members[..0] == [] && m.Keys - keys == {};
    while keys != {}
      invariant keys <= m.Keys
      invariant i + |keys| == members.Length
      invariant Collected(members[..i], m.Keys - keys)
      decreases |keys|
    {
      var key :| key in keys;
      CollectedOneMore(members[..i], m.Keys - keys, key);
      assert m.Keys - keys + {key} == m.Keys - (keys - {key});
      members[i] := Member(key, Utf16(key));
      assert members[..i + 1] == members[..i] + [Member(key, Utf16(key))];
      keys := keys - {key};
      i := i + 1;
    }
    assert members[..] == members[..i] && m.Keys - keys == m.Keys;
  }

  /** The members of a map sorted in place by the UTF-16 code units of their names. */
  method SortedMembers(m: map<string, Value>) returns (members: array<Member>)
    ensures fresh(members)
    ensures Names(members[..]) == Listing(ByUtf16, m.Keys)
  {
    members := CollectMembers(m);
    ghost var collected := members[..];
    Sort(members);
    SortFindsListing(ByUtf16, collected, members[..]);
  }

  /** Writes one member of an object, after a comma unless it is the first. */
  method WriteMember(buf: Buffer, v: Value, name: string, first: bool) returns (ok: bool)
    requires v.Map? && name in v.m && buf.Valid()
    modifies buf
    ensures buf.Valid()
    ensures ok <==> Denotable(v, name)
    ensures ok ==> DenoteMembers(v).Object?
    ensures ok ==> buf.text == old(buf.text) + (if first then "" else ",") + J.PrintMember(DenoteMembers(v), name)
    decreases v, 0
  {
    hide Utf8, J.Print, J.PrintMember, Literal.Quote, DenoteMembers;
    if !first {
      buf.WriteString(",");
    }
    WriteEscaped(buf, name);
    buf.WriteString(":");
    ok := WriteValue(buf, v.m[name], true);
    if ok {
      MemberDenotes(v, name);
      J.PrintOneMember(DenoteMembers(v), name);
    }
  }

  ghost predicate Denotable(v: Value, name: string) {
    v.Map? && name in v.m && Denote(v.m[name], true).Some?
  }

  /** Writes an object: members collected in map order, sorted in place, then written one by one. */
  method WriteObject(buf: Buffer, v: Value) returns (ok: bool)
    requires v.Map? && buf.Valid()
    modifies buf
    ensures buf.Valid()
    ensures ok <==> Denote(v, true).Some?
    ensures ok ==> buf.text == old(buf.text) + J.Print(Denote(v, true).value)
    decreases v, 1
  {
    hide Utf8, Denote, Denotable, DenoteMembers, J.Print, J.PrintMembers, J.PrintMember, Listing;
    ghost var whole, names := DenoteMembers(v), Listing(ByUtf16, v.m.Keys);
    var members := SortedMembers(v.m);
    buf.WriteString("{");
    J.PrintNothing(whole);
    var i := 0;
    while i < members.Length
      invariant 0 <= i <= members.Length && Names(members[..]) == names
      invariant forall k :: 0 <= k < i ==> Denotable(v, names[k])
      invariant buf.Valid() && buf.text == old(buf.text) + "{" + J.PrintMembers(whole, names[..i])
    {
      var name := members[i].name;
      ListingNames(v, names, i);
      ok := WriteMember(buf, v, name, i == 0);
      if !ok {
        MemberRefused(v, name);
        return;
      }
      J.PrintMembersSnoc(whole, names[..i], name);
      assert names[..i + 1] == names[..i] + [name];
      i := i + 1;
    }
    buf.WriteString("}");
    ok := true;
    EveryMemberDenotes(v, names);
    J.PrintObject(whole.members);
    assert names[..i] == names;
  }

  lemma ListingNames(v: Value, names: seq<string>, i: nat)
    requires v.Map? && names == Listing(ByUtf16, v.m.Keys) && i < |names|
    ensures names[i] in v.m
  {
    ListingSorted(ByUtf16, v.m.Keys);
    assert names[i] in Elements(names);
  }

  lemma MemberRefused(v: Value, name: string)
    requires v.Map? && name in v.m && !Denotable(v, name)
    ensures Denote(v, true).None?
  {
  }

  lemma MemberDenotes(v: Value, name: string)
    requires Denotable(v, name)
    ensures DenoteMembers(v).Object? && name in DenoteMembers(v).members
    ensures DenoteMembers(v).members[name] == Denote(v.m[name], true).value
  {
  }

  lemma EveryMemberDenotes(v: Value, names: seq<string>)
    requires v.Map? && names == Listing(ByUtf16, v.m.Keys)
    requires forall k :: 0 <= k < |names| ==> Denotable(v, names[k])
    ensures Denote(v, true) == Some(DenoteMembers(v))
    ensures DenoteMembers(v).Object? && DenoteMembers(v).members.Keys == v.m.Keys
  {
    ListingSorted(ByUtf16, v.m.Keys);
    forall n | n in v.m
      ensures Denote(v.m[n], true).Some?
    {
      assert n in Elements(names);
    }
  }

  /** The serializer proper. It succeeds exactly on the values that denote something, and then appends
      that value's canonical text. */
  method WriteValue(buf: Buffer, v: Value, normalize: bool) returns (ok: bool)
    requires buf.Valid()
    modifies buf
    ensures buf.Valid()
    ensures ok <==> Denote(v, normalize).Some?
    ensures ok ==> buf.text == old(buf.text) + J.Print(Denote(v, normalize).value)
    decreases v, 2
  {
    ok := true;
    match v {
      case Nil => buf.WriteString("null");
      case Bool(b) => buf.WriteString(if b then "true" else "false");
      case Str(s) => WriteEscaped(buf, s);
      case Int(i) => buf.WriteString(Decimal.Format(i));
      case Uint(u) => buf.WriteString(Decimal.Format(u));
      case Float(f) => ok := WriteFloat(buf, f);
      case Number(text, parsed) => ok := WriteNumber(buf, text, parsed);
      case Bytes => ok := false;
      case Map(_) => ok := WriteObject(buf, v);
      case List(items) => ok := WriteList(buf, v, normalize);
      case Strings(names) => WriteStrings(buf, names);
      case Other(generic) =>
        if !normalize || generic.None? {
          return false;
        }
        ok := WriteValue(buf, generic.value, false);
    }
  }

  method WriteList(buf: Buffer, v: Value, normalize: bool) returns (ok: bool)
    requires v.List? && buf.Valid()
    modifies buf
    ensures buf.Valid()
    ensures ok <==> Denote(v, normalize).Some?
    ensures ok ==> buf.text == old(buf.text) + J.Print(Denote(v, normalize).value)
    decreases v, 0
  {
    hide Utf8, J.Print, J.PrintItems;
    ghost var values := DenoteItems(v.items, normalize);
    buf.WriteString("[");
    J.PrintNothing(J.Null);
    var i := 0;
    while i < |v.items|
      invariant 0 <= i <= |v.items|
      invariant forall k :: 0 <= k < i ==> Denote(v.items[k], normalize).Some?
      invariant buf.Valid() && buf.text == old(buf.text) + "[" + J.PrintItems(values[..i])
    {
      if i > 0 {
        buf.WriteString(",");
      }
      ok := WriteValue(buf, v.items[i], normalize);
      if !ok {
        return;
      }
      J.PrintItemsSnoc(values[..i], values[i]);
      assert values[..i + 1] == values[..i] + [values[i]];
      i := i + 1;
    }
    buf.WriteString("]");
    ok := true;
    J.PrintArray(values);
    assert values[..i] == values;
  }

  method WriteStrings(buf: Buffer, names: seq<string>)
    requires buf.Valid()
    modifies buf
    ensures buf.Valid()
    ensures buf.text == old(buf.text) + J.Print(J.Array(StringItems(names)))
  {
    hide Utf8, J.Print, J.PrintItems, Literal.Quote;
    ghost var values := StringItems(names);
    buf.WriteString("[");
    J.PrintNothing(J.Null);
    var i := 0;
    while i < |names|
      invariant 0 <= i <= |names|
      invariant buf.Valid() && buf.text == old(buf.text) + "[" + J.PrintItems(values[..i])
    {
      if i > 0 {
        buf.WriteString(",");
      }
      WriteEscaped(buf, names[i]);
      J.PrintString(names[i]);
      J.PrintItemsSnoc(values[..i], values[i]);
      assert values[..i + 1] == values[..i] + [values[i]];
      i := i + 1;
    }
    buf.WriteString("]");
    J.PrintArray(values);
    assert values[..i] == values;
  }

  /** The entry point: the canonical bytes of a value, or None when it is refused. The result does not
      depend on the order the members of any map were collected in. */
  method CanonicalJSON(v: Value) returns (r: Option<seq<Byte>>)
    ensures r == CanonicalBytes(v)
  {
    var buf := new Buffer();
    var ok := WriteValue(buf, v, true);
    if !ok {
      return None;
    }
    assert buf.text == J.Print(Denote(v, true).value);
    return Some(buf.data);
  }

  // ------------------------------------------------------------- canonicity

  /** Reads canonical bytes: UTF-8 of one canonical text and nothing else. */
  ghost function ReadCanonical(bytes: seq<Byte>): Option<J.Value> {
    var t :- DecodeUtf8(bytes);
    var (d, rest) :- J.Read(t);
    if rest == [] then Some(d) else None
  }

  /** The reader recognizes exactly the serializations, each as the value it serializes. */
  lemma Recognizes(bytes: seq<Byte>, d: J.Value)
    ensures ReadCanonical(bytes) == Some(d) <==> bytes == Utf8(J.Print(d))
  {
    hide J.Read, J.Print, Utf8, DecodeUtf8;
    if ReadCanonical(bytes) == Some(d) {
      Utf8Exact(bytes);
      J.CanonicalExactly(DecodeUtf8(bytes).value, d);
    }
    if bytes == Utf8(J.Print(d)) {
      Utf8RoundTrip(J.Print(d));
      J.CanonicalExactly(J.Print(d), d);
    }
  }

  /** Whatever a serialized value's Go types and map orders were, its bytes read back as what it denotes. */
  lemma ReadsBack(v: Value)
    requires CanonicalBytes(v).Some?
    ensures ReadCanonical(CanonicalBytes(v).value) == Denote(v, true)
  {
    Recognizes(CanonicalBytes(v).value, Denote(v, true).value);
  }

  /** Canonicity: two values serialize to the same bytes exactly when they denote the same JSON value. */
  lemma Canonicity(v: Value, w: Value)
    requires CanonicalBytes(v).Some? && CanonicalBytes(w).Some?
    ensures CanonicalBytes(v) == CanonicalBytes(w) <==> Denote(v, true) == Denote(w, true)
  {
    ReadsBack(v);
    ReadsBack(w);
  }

  /** A JSON value as encoding/json decodes it with UseNumber: numbers keep their text. */
  function Decoded(d: J.Value): Value
    decreases d
  {
    match d
    case Null => Nil
    case Bool(b) => Bool(b)
    case Int(i) => Number(Decimal.Format(i), None)
    case String(s) => Str(s)
    case Array(items) => List(seq(|items|, i requires 0 <= i < |items| => Decoded(items[i])))
    case Object(members) => Map(map k | k in members :: Decoded(members[k]))
  }

  lemma {:induction false} DecodedDenotes(d: J.Value, normalize: bool)
    ensures Denote(Decoded(d), normalize) == Some(d)
    decreases d
  {
    match d
    case Int(i) =>
      FormatIsLiteral(i);
    case Array(items) =>
      forall i | 0 <= i < |items|
        ensures Denote(Decoded(d).items[i], normalize) == Some(items[i])
      {
        DecodedDenotes(items[i], normalize);
      }
      assert DenoteItems(Decoded(d).items, normalize) == items;
    case Object(members) =>
      var v := Decoded(d);
      forall k | k in members
        ensures Denote(v.m[k], true) == Some(members[k])
      {
        DecodedDenotes(members[k], true);
      }
      assert DenoteMembers(v).members == members;
    case _ =>
  }

  lemma FormatIsLiteral(i: int)
    ensures Decimal.IsIntegerLiteral(Decimal.Format(i))
    ensures Decimal.LiteralValue(Decimal.Format(i)) == i
  {
    Decimal.ValueDigits(if i < 0 then -i else i);
    if i < 0 {
      assert Decimal.Format(i)[1..] == Decimal.Digits(-i);
    } else {
      assert Decimal.IsDigit(Decimal.Digits(i)[0]);
    }
  }

  /** Serializing, decoding and serializing again changes nothing. */
  lemma Fixpoint(v: Value, d: J.Value)
    requires CanonicalBytes(v).Some? && ReadCanonical(CanonicalBytes(v).value) == Some(d)
    ensures CanonicalBytes(Decoded(d)) == CanonicalBytes(v)
  {
    ReadsBack(v);
    DecodedDenotes(d, true);
  }

  /** Every integer, of any size, is the same JSON value as a json.Number, and as an int or a uint where those
      hold it; as a float64 only up to 2^53, beyond which the serializer refuses it. */
  lemma IntegerRepresentations(i: int, parsed: Option<Float>)
    ensures Denote(Number(Decimal.Format(i), parsed), true) == Some(J.Int(i))
    ensures -0x8000_0000_0000_0000 <= i < 0x8000_0000_0000_0000 ==> Denote(Int(i), true) == Some(J.Int(i))
    ensures 0 <= i < 0x1_0000_0000_0000_0000 ==> Denote(Uint(i), true) == Some(J.Int(i))
    ensures Denote(Float(Finite(i as real)), true) == Some(J.Int(i)) <==> -MAX_EXACT <= i <= MAX_EXACT
    ensures Denote(Float(Finite(i as real)), true).None? <==> !(-MAX_EXACT <= i <= MAX_EXACT)
  {
    FormatIsLiteral(i);
    assert (i as real).Floor == i;
  }

  /** Exactly the integral finite floats of magnitude at most 2^53 are serialized, the negative zero as 0. */
  lemma FloatExactly(f: Float)
    ensures var d := Denote(Float(f), true);
            && (d.Some? <==> f.NegativeZero?
                             || (f.Finite? && exists i: int :: IsExact(f.r, i)))
            && (f.NegativeZero? ==> d == Some(J.Int(0)))
            && (f.Finite? && d.Some? ==> d.value.Int? && d.value.i as real == f.r)
  {
    if f.Finite? && Denote(Float(f), true).Some? {
      assert IsExact(f.r, f.r.Floor);
    }
  }

  /** The real is this integer, of a magnitude below which a float64 holds every integer. */
  predicate IsExact(r: real, i: int) {
    r == i as real && -0x20_0000_0000_0000 <= i <= 0x20_0000_0000_0000
  }

  /** A json.Number is serialized as the integer it spells, or else as the float it parses to; an integer is spelled
      in its canonical digits, or as -0. */
  lemma NumberExactly(text: string, parsed: Option<Float>)
    ensures var d := Denote(Number(text, parsed), true);
            if text == "-0" then d == Some(J.Int(0))
            else if exists i: int :: text == Decimal.Format(i) then d.Some? && d.value.Int? && text == Decimal.Format(d.value.i)
            else d == if parsed.Some? then Denote(Float(parsed.value), true) else None
  {
    hide Decimal.Format;
    if text == "-0" {
      NegativeZeroLiteral();
    } else if i: int :| text == Decimal.Format(i) {
      FormatIsLiteral(i);
    } else if Decimal.IsIntegerLiteral(text) {
      Decimal.LiteralIsFormat(text);
      assert false;
    }
  }

  lemma NegativeZeroLiteral()
    ensures Decimal.IsIntegerLiteral("-0") && Decimal.LiteralValue("-0") == 0
  {
    assert "-0"[1..] == "0" && "0"[..0] == "";
    assert Decimal.Value("0") == 0;
  }

  /** What is refused: bytes, a value encoding/json cannot marshal, and anything whose own parts are refused. */
  lemma RefusedExactly(v: Value, normalize: bool)
    ensures v.Bytes? || (v.Other? && (!normalize || v.generic.None?)) ==> Denote(v, normalize).None?
    ensures v.Nil? || v.Bool? || v.Str? || v.Int? || v.Uint? || v.Strings? ==> Denote(v, normalize).Some?
    ensures v.Map? ==> (Denote(v, normalize).Some? <==> forall k :: k in v.m ==> Denote(v.m[k], true).Some?)
    ensures v.List? ==>
      (Denote(v, normalize).Some? <==> forall i :: 0 <= i < |v.items| ==> Denote(v.items[i], normalize).Some?)
  {
  }

  /** What the others denote: the value of the same kind, part by part. */
  lemma DenotesExactly(v: Value, normalize: bool)
    requires Denote(v, normalize).Some?
    ensures var d := Denote(v, normalize).value;
            && (v.Nil? ==> d == J.Null) && (v.Bool? ==> d == J.Bool(v.b)) && (v.Str? ==> d == J.String(v.s))
            && (v.Int? ==> d == J.Int(v.i)) && (v.Uint? ==> d == J.Int(v.u))
            && (v.Map? ==>
                  && d.Object? && d.members.Keys == v.m.Keys
                  && forall k :: k in v.m ==> Denote(v.m[k], true) == Some(d.members[k]))
            && (v.List? ==>
                  && d.Array? && |d.items| == |v.items|
                  && forall i :: 0 <= i < |v.items| ==> Denote(v.items[i], normalize) == Some(d.items[i]))
            && (v.Other? ==> normalize && v.generic.Some? && Denote(v.generic.value, false) == Some(d))
  {
  }

  /** A typed string slice and a generic slice of the same strings are the same JSON value. */
  lemma SliceRepresentations(names: seq<string>, normalize: bool)
    ensures Denote(Strings(names), normalize)
         == Denote(List(seq(|names|, i requires 0 <= i < |names| => Str(names[i]))), normalize)
  {
    var items := seq(|names|, i requires 0 <= i < |names| => Str(names[i]));
    assert forall i | 0 <= i < |items| :: Denote(items[i], normalize) == Some(J.String(names[i]));
    assert DenoteItems(items, normalize) == StringItems(names);
  }
}

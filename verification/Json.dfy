/** JSON values, their one canonical text (RFC 8785), and a reader that accepts exactly those texts. */
module Json {
  import opened Options
  import opened Ordering
  import opened Unicode
  import Lexicographic
  import Literal
  import Decimal

  /** A JSON value as a mathematical object: integers are unbounded, an object is a map. */
  datatype Value =
    | Null
    | Bool(b: bool)
    | Int(i: int)
    | String(s: string)
    | Array(items: seq<Value>)
    | Object(members: map<string, Value>)

  // -------------------------------------------------------------- printing

  /** The canonical text of a value: no whitespace, minimal escapes, members in UTF-16 order. */
  ghost function Print(v: Value): string
    decreases v
  {
    match v
    case Null => "null"
    case Bool(b) => if b then "true" else "false"
    case Int(i) => Decimal.Format(i)
    case String(s) => Literal.Quote(s)
    case Array(items) => "[" + PrintItems(items) + "]"
    case Object(members) => "{" + PrintMembers(v, Listing(ByUtf16, members.Keys)) + "}"
  }

  /** Items separated by commas. */
  ghost function PrintItems(items: seq<Value>): string
    decreases items
  {
    if items == [] then ""
    else if |items| == 1 then Print(items[0])
    else Print(items[0]) + "," + PrintItems(items[1..])
  }

  ghost predicate HasMembers(v: Value, names: seq<string>) {
    v.Object? && forall n :: n in names ==> n in v.members
  }

  /** The named members of an object. */
  ghost function Select(v: Value, names: seq<string>): map<string, Value>
    requires HasMembers(v, names)
  {
    map n | n in names :: v.members[n]
  }

  ghost function PrintMember(v: Value, name: string): string
    decreases v, 0
  {
    Literal.Quote(name) + ":" + (if v.Object? && name in v.members then Print(v.members[name]) else "")
  }

  /** The named members of `v` separated by commas. */
  ghost function PrintMembers(v: Value, names: seq<string>): string
    decreases v, 1, |names|
  {
    if names == [] then ""
    else if |names| == 1 then PrintMember(v, names[0])
    else PrintMember(v, names[0]) + "," + PrintMembers(v, names[1..])
  }

  // --------------------------------------------------------------- reading

  /** Reads one canonical value at the head of `t`, returning it and what follows. */
  ghost function Read(t: string): (r: Option<(Value, string)>)
    ensures r.Some? ==> |r.value.1| < |t|
    decreases |t|, 2
  {
    if t == [] then None
    else if t[0] == 'n' then
      if "null" <= t then Some((Null, t[4..])) else None
    else if t[0] == 't' then
      if "true" <= t then Some((Bool(true), t[4..])) else None
    else if t[0] == 'f' then
      if "false" <= t then Some((Bool(false), t[5..])) else None
    else if t[0] == '"' then
      var (s, rest) :- Literal.ReadMinimal(t);
      Some((String(s), rest))
    else if t[0] == '[' then
      if |t| > 1 && t[1] == ']' then Some((Array([]), t[2..]))
      else
        var (items, rest) :- ReadItems(t[1..]);
        Some((Array(items), rest))
    else if t[0] == '{' then
      if |t| > 1 && t[1] == '}' then Some((Object(map[]), t[2..]))
      else
        var (names, members, rest) :- ReadMembers(t[1..]);
        Some((Object(members), rest))
    else
      var (i, rest) :- Decimal.ReadInt(t);
      Some((Int(i), rest))
  }

  /** Reads one or more items up to the closing bracket. */
  ghost function ReadItems(t: string): (r: Option<(seq<Value>, string)>)
    ensures r.Some? ==> |r.value.1| < |t|
    decreases |t|, 3
  {
    var (v, rest) :- Read(t);
    if rest != [] && rest[0] == ']' then Some(([v], rest[1..]))
    else if rest != [] && rest[0] == ',' then
      var (items, rest') :- ReadItems(rest[1..]);
      Some(([v] + items, rest'))
    else None
  }

  /** Reads one or more members up to the closing brace; the names must be strictly ascending. */
  ghost function ReadMembers(t: string): (r: Option<(seq<string>, map<string, Value>, string)>)
    ensures r.Some? ==> |r.value.2| < |t|
    decreases |t|, 3
  {
    var (name, colon) :- Literal.ReadMinimal(t);
    if colon == [] || colon[0] != ':' then None
    else
      var (v, rest) :- Read(colon[1..]);
      if rest != [] && rest[0] == '}' then Some(([name], map[name := v], rest[1..]))
      else if rest != [] && rest[0] == ',' then
        var (names, members, rest') :- ReadMembers(rest[1..]);
        if names == [] || !Before(ByUtf16, name, names[0]) then None
        else Some(([name] + names, members[name := v], rest'))
      else None
  }

  // ------------------------------------------- reading back what is printed

  lemma PrintStart(v: Value)
    ensures Print(v) != []
    ensures Print(v)[0] != ']' && Print(v)[0] != '}'
  {
    if v.Int? {
      Decimal.FormatStart(v.i);
    }
  }

  lemma PrintItemsStart(items: seq<Value>)
    requires items != []
    ensures PrintItems(items) != [] && PrintItems(items)[0] != ']'
  {
    PrintStart(items[0]);
  }

  /** The reader inverts the printer, whatever follows, as long as no digit follows a number. */
  lemma {:induction false} ReadPrint(v: Value, rest: string)
    requires !Decimal.StartsWithDigit(rest)
    ensures Read(Print(v) + rest) == Some((v, rest))
    decreases v, 3
  {
    var t := Print(v) + rest;
    match v
    case Null =>
      assert t[4..] == rest;
    case Bool(b) =>
      if b {
        assert t == "true" + rest && t[4..] == rest;
      } else {
        assert t == "false" + rest && t[5..] == rest;
      }
    case Int(i) =>
      Decimal.FormatStart(i);
      Decimal.ReadFormat(i, rest);
    case String(s) =>
      Literal.ReadLiteralQuote(s, rest);
    case Array(items) =>
      ReadPrintArray(items, rest);
    case Object(members) =>
      ReadPrintObject(v, rest);
  }

  lemma {:induction false} ReadPrintArray(items: seq<Value>, rest: string)
    ensures Read(Print(Array(items)) + rest) == Some((Array(items), rest))
    decreases items, 2
  {
    var t := Print(Array(items)) + rest;
    if items == [] {
      assert t == "[]" + rest && t[2..] == rest;
    } else {
      ReadPrintItems(items, rest);
      PrintItemsStart(items);
      ReadArray(PrintItems(items) + "]" + rest);
      assert t == "[" + (PrintItems(items) + "]" + rest);
    }
  }

  lemma {:induction false} ReadPrintObject(v: Value, rest: string)
    requires v.Object? && !Decimal.StartsWithDigit(rest)
    ensures Read(Print(v) + rest) == Some((v, rest))
    decreases v, 2
  {
    hide Read, Listing, Ascending, ReadMembers, PrintMembers;
    var names := Listing(ByUtf16, v.members.Keys);
    ListingSorted(ByUtf16, v.members.Keys);
    assert Print(v) == "{" + PrintMembers(v, names) + "}";
    if names == [] {
      assert v.members.Keys == Elements([]) == {};
      assert v.members == map[];
      ReadEmptyObject(rest);
    } else {
      ListingMembers(v);
      PrintMembersStart(v, names);
      ReadPrintMembers(v, names, rest);
      ReadObject(PrintMembers(v, names) + "}" + rest);
      assert Print(v) + rest == "{" + (PrintMembers(v, names) + "}" + rest);
      assert Select(v, names) == v.members by {
        assert forall n :: n in names <==> n in Elements(names);
      }
    }
  }

  lemma ReadEmptyObject(rest: string)
    ensures Print(Object(map[])) == "{}"
    ensures Read("{}" + rest) == Some((Object(map[]), rest))
  {
    ListingSorted(ByUtf16, {});
    assert Print(Object(map[])) == "{" + "" + "}";
    assert ("{}" + rest)[2..] == rest;
  }

  /** A bracket followed by items is read by the item reader. */
  lemma ReadArray(inner: string)
    requires inner != [] && inner[0] != ']' && ReadItems(inner).Some?
    ensures Read("[" + inner) == Some((Array(ReadItems(inner).value.0), ReadItems(inner).value.1))
  {
    var t := "[" + inner;
    assert t[0] == '[' && t[1] == inner[0] && t[1..] == inner;
  }

  lemma ReadObject(inner: string)
    requires inner != [] && inner[0] != '}' && ReadMembers(inner).Some?
    ensures Read("{" + inner) == Some((Object(ReadMembers(inner).value.1), ReadMembers(inner).value.2))
  {
    var t := "{" + inner;
    assert t[0] == '{' && t[1] == inner[0] && t[1..] == inner;
  }

  lemma ListingMembers(v: Value)
    requires v.Object?
    ensures HasMembers(v, Listing(ByUtf16, v.members.Keys))
  {
    var names := Listing(ByUtf16, v.members.Keys);
    ListingSorted(ByUtf16, v.members.Keys);
    forall n | n in names
      ensures n in v.members
    {
      assert n in Elements(names);
    }
  }

  lemma {:induction false} ReadPrintItems(items: seq<Value>, rest: string)
    requires items != []
    ensures ReadItems(PrintItems(items) + "]" + rest) == Some((items, rest))
    decreases items, 1
  {
    hide Read, Print;
    if |items| == 1 {
      var after := "]" + rest;
      assert PrintItems(items) + "]" + rest == Print(items[0]) + after;
      ReadPrint(items[0], after);
      assert after[1..] == rest;
      assert items == [items[0]];
    } else {
      var inner := PrintItems(items[1..]) + "]" + rest;
      var after := "," + inner;
      ReadPrintItems(items[1..], rest);
      assert PrintItems(items) + "]" + rest == Print(items[0]) + after;
      ReadPrint(items[0], after);
      assert after[1..] == inner;
      assert items == [items[0]] + items[1..];
    }
  }

  lemma PrintMembersStart(v: Value, names: seq<string>)
    requires names != []
    ensures PrintMembers(v, names) != [] && PrintMembers(v, names)[0] == '"'
  {
  }

  lemma {:induction false} ReadPrintMembers(v: Value, names: seq<string>, rest: string)
    requires names != [] && HasMembers(v, names) && Ascending(ByUtf16, names)
    ensures ReadMembers(PrintMembers(v, names) + "}" + rest)
         == Some((names, Select(v, names), rest))
    decreases v, 1, |names|
  {
    hide Read, Print, PrintMember, Select, Before, Literal.ReadMinimal, Literal.Quote;
    var name := names[0];
    var value := v.members[name];
    if |names| == 1 {
      var after := "}" + rest;
      assert PrintMembers(v, names) + "}" + rest == PrintMember(v, name) + after;
      ReadPrint(value, after);
      ReadMemberHead(v, name, after);
      assert after[1..] == rest;
      assert names == [name];
      SelectSingle(v, name);
    } else {
      var tail := names[1..];
      var inner := PrintMembers(v, tail) + "}" + rest;
      var after := "," + inner;
      ReadPrintMembers(v, tail, rest);
      assert PrintMembers(v, names) + "}" + rest == PrintMember(v, name) + after;
      ReadPrint(value, after);
      ReadMemberHead(v, name, after);
      assert after[1..] == inner;
      assert names == [name] + tail;
      SelectCons(v, name, tail);
    }
  }

  lemma SelectSingle(v: Value, name: string)
    requires HasMembers(v, [name])
    ensures name in v.members && Select(v, [name]) == map[name := v.members[name]]
  {
    assert name in [name];
  }

  lemma SelectCons(v: Value, name: string, tail: seq<string>)
    requires HasMembers(v, [name] + tail)
    ensures name in v.members && HasMembers(v, tail)
    ensures Select(v, [name] + tail) == Select(v, tail)[name := v.members[name]]
  {
    assert name in [name] + tail;
    assert forall n :: n in [name] + tail <==> n == name || n in tail;
  }

  /** A printed member is read as its name, a colon and its value. */
  lemma ReadMemberHead(v: Value, name: string, after: string)
    requires HasMembers(v, [name])
    requires Read(Print(v.members[name]) + after) == Some((v.members[name], after))
    ensures var colon := ":" + (Print(v.members[name]) + after);
            && Literal.ReadMinimal(PrintMember(v, name) + after) == Some((name, colon))
            && colon[1..] == Print(v.members[name]) + after
  {
    assert name in [name];
    var colon := ":" + (Print(v.members[name]) + after);
    assert PrintMember(v, name) + after == Literal.Quote(name) + colon;
    Literal.ReadLiteralQuote(name, colon);
  }

  // ------------------------------------------ what is read is what is printed

  /** The reader accepts nothing but canonical texts, and takes a number to its last digit. */
  lemma {:induction false} ReadSound(t: string)
    requires Read(t).Some?
    ensures var (v, rest) := Read(t).value; t == Print(v) + rest
    ensures var (v, rest) := Read(t).value; v.Int? ==> !Decimal.StartsWithDigit(rest)
    decreases |t|, 2
  {
    if t[0] == 'n' || t[0] == 't' {
      assert t == t[..4] + t[4..];
    } else if t[0] == 'f' {
      assert t == t[..5] + t[5..];
    } else if t[0] == '"' {
      Literal.ReadMinimalSound(t);
    } else if t[0] == '[' {
      ReadArraySound(t);
    } else if t[0] == '{' {
      ReadObjectSound(t);
    } else {
      Decimal.ReadIntSound(t);
    }
  }

  lemma {:induction false} ReadArraySound(t: string)
    requires Read(t).Some? && t[0] == '['
    ensures var (v, rest) := Read(t).value; v.Array? && t == Print(v) + rest
    decreases |t|, 1
  {
    hide Read, ReadItems, PrintItems;
    ReadBracket(t);
    if |t| > 1 && t[1] == ']' {
      NoItems();
      assert t == "[" + "" + "]" + t[2..];
    } else {
      ReadItemsSound(t[1..]);
      assert t == "[" + t[1..];
    }
  }

  /** What the reader makes of a bracket. */
  lemma ReadBracket(t: string)
    requires t != [] && t[0] == '['
    ensures Read(t) ==
      if |t| > 1 && t[1] == ']' then Some((Array([]), t[2..]))
      else if ReadItems(t[1..]).Some? then Some((Array(ReadItems(t[1..]).value.0), ReadItems(t[1..]).value.1))
      else None
  {
    hide ReadItems, ReadMembers;
  }

  lemma NoItems()
    ensures PrintItems([]) == ""
  {
  }

  lemma {:induction false} ReadObjectSound(t: string)
    requires Read(t).Some? && t[0] == '{'
    ensures var (v, rest) := Read(t).value; v.Object? && t == Print(v) + rest
    decreases |t|, 1
  {
    hide ReadMembers, PrintMembers, Elements, Listing, Ascending, Before;
    if |t| > 1 && t[1] == '}' {
      ReadEmptyObject(t[2..]);
      assert t == "{}" + t[2..];
    } else {
      ReadMembersSound(t[1..]);
      var (names, members, rest) := ReadMembers(t[1..]).value;
      ListingUnique(ByUtf16, names);
      assert t == "{" + t[1..];
      assert Read(t) == Some((Object(members), rest));
    }
  }

  lemma {:induction false} ReadItemsSound(t: string)
    requires ReadItems(t).Some?
    ensures var (items, rest) := ReadItems(t).value;
            items != [] && t == PrintItems(items) + "]" + rest
    decreases |t|, 3
  {
    hide Read, Print;
    var (v, after) := Read(t).value;
    ReadSound(t);
    if after[0] == ']' {
      assert after == "]" + after[1..];
      assert PrintItems([v]) == Print(v);
    } else {
      var inner := after[1..];
      ReadItemsSound(inner);
      var (items, rest) := ReadItems(inner).value;
      PrintItemsCons(v, items);
      assert after == "," + inner;
      assert t == Print(v) + "," + PrintItems(items) + "]" + rest;
    }
  }

  lemma PrintItemsCons(v: Value, items: seq<Value>)
    requires items != []
    ensures PrintItems([v] + items) == Print(v) + "," + PrintItems(items)
  {
    assert ([v] + items)[1..] == items;
  }

  lemma PrintMembersCons(v: Value, name: string, names: seq<string>)
    requires names != []
    ensures PrintMembers(v, [name] + names) == PrintMember(v, name) + "," + PrintMembers(v, names)
  {
    assert ([name] + names)[1..] == names;
  }

  lemma {:induction false} ReadMembersSound(t: string)
    requires ReadMembers(t).Some?
    ensures var (names, members, rest) := ReadMembers(t).value;
            && names != [] && Ascending(ByUtf16, names) && Elements(names) == members.Keys
            && t == PrintMembers(Object(members), names) + "}" + rest
    decreases |t|, 3
  {
    hide Read, Print, PrintMembers, Literal.ReadMinimal, Literal.Quote, Ascending, Before, Elements;
    var (name, colon) := Literal.ReadMinimal(t).value;
    Literal.ReadMinimalSound(t);
    var (v, after) := Read(colon[1..]).value;
    ReadSound(colon[1..]);
    assert colon == ":" + colon[1..];
    assert t == Literal.Quote(name) + ":" + Print(v) + after;
    if after[0] == '}' {
      assert after == "}" + after[1..];
      SingleMember(name, v);
    } else {
      var inner := after[1..];
      ReadMembersSound(inner);
      var (names, members, rest) := ReadMembers(inner).value;
      assert after == "," + inner;
      PrependMember(name, v, names, members);
      assert t == Literal.Quote(name) + ":" + Print(v) + "," + PrintMembers(Object(members), names) + "}" + rest;
    }
  }

  lemma SingleMember(name: string, v: Value)
    ensures Ascending(ByUtf16, [name]) && Elements([name]) == {name}
    ensures PrintMembers(Object(map[name := v]), [name]) == Literal.Quote(name) + ":" + Print(v)
  {
    assert PrintMembers(Object(map[name := v]), [name]) == PrintMember(Object(map[name := v]), name);
  }

  lemma PrependMember(name: string, v: Value, names: seq<string>, members: map<string, Value>)
    requires names != [] && Ascending(ByUtf16, names) && Before(ByUtf16, name, names[0])
    requires Elements(names) == members.Keys
    ensures Ascending(ByUtf16, [name] + names) && Elements([name] + names) == members.Keys + {name}
    ensures PrintMembers(Object(members[name := v]), [name] + names)
         == Literal.Quote(name) + ":" + Print(v) + "," + PrintMembers(Object(members), names)
  {
    hide Ascending, Before, Print, Literal.Quote;
    PrependAscending(name, names);
    var w := Object(members[name := v]);
    assert forall n :: n in names <==> n in Elements(names);
    SameMembers(Object(members), w, names);
    PrintMembersCons(w, name, names);
    assert PrintMember(w, name) == Literal.Quote(name) + ":" + Print(v);
  }

  lemma PrependAscending(name: string, names: seq<string>)
    requires names != [] && Ascending(ByUtf16, names) && Before(ByUtf16, name, names[0])
    ensures Ascending(ByUtf16, [name] + names)
    ensures name !in names
    ensures Elements([name] + names) == Elements(names) + {name}
  {
    forall j | 0 <= j < |names|
      ensures Before(ByUtf16, name, names[j])
    {
      if j > 0 {
        BeforeTransitive(ByUtf16, name, names[0], names[j]);
      }
    }
    BeforeTotal(ByUtf16, name, name);
  }

  /** Printing members depends only on the members named. */
  lemma {:induction false} SameMembers(v: Value, w: Value, names: seq<string>)
    requires HasMembers(v, names) && HasMembers(w, names)
    requires forall n :: n in names ==> v.members[n] == w.members[n]
    ensures PrintMembers(v, names) == PrintMembers(w, names)
    decreases |names|
  {
    if names != [] {
      SameMembers(v, w, names[1..]);
    }
  }

  // ------------------------------------------------- printing left to right

  lemma PrintNothing(v: Value)
    ensures PrintItems([]) == "" && PrintMembers(v, []) == ""
  {
  }

  lemma PrintString(s: string)
    ensures Print(String(s)) == Literal.Quote(s)
  {
  }

  lemma PrintArray(items: seq<Value>)
    ensures Print(Array(items)) == "[" + PrintItems(items) + "]"
  {
  }

  lemma PrintObject(members: map<string, Value>)
    ensures Print(Object(members)) == "{" + PrintMembers(Object(members), Listing(ByUtf16, members.Keys)) + "}"
  {
  }

  lemma PrintOneMember(v: Value, name: string)
    requires HasMembers(v, [name])
    ensures name in v.members && PrintMember(v, name) == Literal.Quote(name) + ":" + Print(v.members[name])
  {
    assert name in [name];
  }

  /** Appending an item appends a comma and its text. */
  lemma {:induction false} PrintItemsSnoc(items: seq<Value>, v: Value)
    ensures PrintItems(items + [v]) == PrintItems(items) + (if items == [] then "" else ",") + Print(v)
    decreases |items|
  {
    hide Print;
    if items == [] {
      assert items + [v] == [v];
    } else {
      assert (items + [v])[1..] == items[1..] + [v];
      PrintItemsSnoc(items[1..], v);
    }
  }

  lemma {:induction false} PrintMembersSnoc(v: Value, names: seq<string>, name: string)
    ensures PrintMembers(v, names + [name])
         == PrintMembers(v, names) + (if names == [] then "" else ",") + PrintMember(v, name)
    decreases |names|
  {
    hide PrintMember;
    if names == [] {
      assert names + [name] == [name];
    } else {
      assert (names + [name])[1..] == names[1..] + [name];
      PrintMembersSnoc(v, names[1..], name);
    }
  }

  // ---------------------------------------------------------- consequences

  /** `t` is the canonical text of some value. */
  ghost predicate IsCanonical(t: string) {
    Read(t).Some? && Read(t).value.1 == []
  }

  /** Names in strictly ascending order of code points, U+E000..U+FFFF last. */
  predicate RankAscending(names: seq<string>) {
    forall i, j :: 0 <= i < j < |names| ==> Lexicographic.Less(Utf16Ranks(names[i]), Utf16Ranks(names[j]))
  }

  /** The members of an object stand in its text in that order, each once. */
  lemma MembersInOrder(v: Value) returns (names: seq<string>)
    requires v.Object?
    ensures RankAscending(names) && Elements(names) == v.members.Keys
    ensures Print(v) == "{" + PrintMembers(v, names) + "}"
  {
    hide PrintMembers, Elements, Before;
    names := Listing(ByUtf16, v.members.Keys);
    ListingSorted(ByUtf16, v.members.Keys);
    forall i, j | 0 <= i < j < |names|
      ensures Lexicographic.Less(Utf16Ranks(names[i]), Utf16Ranks(names[j]))
    {
      OrdersExactly(names[i], names[j]);
    }
  }

  /** Canonical texts and values correspond one to one. */
  lemma CanonicalExactly(t: string, v: Value)
    ensures IsCanonical(t) && Read(t).value.0 == v <==> t == Print(v)
  {
    if IsCanonical(t) && Read(t).value.0 == v {
      ReadSound(t);
      assert Print(v) + [] == Print(v);
    }
    if t == Print(v) {
      ReadPrint(v, []);
      assert Print(v) + [] == Print(v);
    }
  }

  /** The printer is injective. */
  lemma PrintInjective(v: Value, w: Value)
    requires Print(v) == Print(w)
    ensures v == w
  {
    CanonicalExactly(Print(v), v);
    CanonicalExactly(Print(v), w);
  }
}

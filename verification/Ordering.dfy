/** Names in order: member names by UTF-16 code units (JSON Canonicalization Scheme), tool names by
    UTF-8 bytes (Go's string order). One strictly ascending listing of a set exists; a sort finds it. */
module Ordering {
  import opened Unicode
  import Lexicographic

  datatype Encoding = ByUtf16 | ByUtf8

  function Code(e: Encoding, name: string): seq<int> {
    match e
    case ByUtf16 => Utf16(name)
    case ByUtf8 => Utf8(name)
  }

  predicate Before(e: Encoding, a: string, b: string) {
    Lexicographic.Less(Code(e, a), Code(e, b))
  }

  /** Strictly ascending: sorted and without duplicates. */
  predicate Ascending(e: Encoding, names: seq<string>) {
    forall i, j :: 0 <= i < j < |names| ==> Before(e, names[i], names[j])
  }

  function Elements(names: seq<string>): set<string> {
    set n | n in names
  }

  predicate NoDuplicates<T(==)>(s: seq<T>) {
    forall i, j :: 0 <= i < j < |s| ==> s[i] != s[j]
  }

  // ---------------------------------------------------- laws of the order

  lemma CodeInjective(e: Encoding, a: string, b: string)
    ensures Code(e, a) == Code(e, b) ==> a == b
  {
    Utf16Injective(a, b);
    Utf8Injective(a, b);
  }

  /** The two orders: RFC 8785's, code points with U+E000..U+FFFF moved above the supplementary planes; and Go's,
      plain code points. */
  lemma OrdersExactly(a: string, b: string)
    ensures Before(ByUtf16, a, b) <==> Lexicographic.Less(Utf16Ranks(a), Utf16Ranks(b))
    ensures Before(ByUtf8, a, b) <==> Lexicographic.Less(CodePoints(a), CodePoints(b))
  {
    Utf16OrderIsRankOrder(a, b);
    Utf8OrderIsCodePointOrder(a, b);
  }

  /** On distinct names the order is strict and total. */
  lemma BeforeTotal(e: Encoding, a: string, b: string)
    ensures !(Before(e, a, b) && Before(e, b, a))
    ensures a != b <==> Before(e, a, b) || Before(e, b, a)
  {
    var x, y := Code(e, a), Code(e, b);
    Lexicographic.Irreflexive(x);
    Lexicographic.Connected(x, y);
    CodeInjective(e, a, b);
    if Before(e, a, b) && Before(e, b, a) {
      Lexicographic.Transitive(x, y, x);
    }
  }

  lemma BeforeTransitive(e: Encoding, a: string, b: string, c: string)
    requires Before(e, a, b) && Before(e, b, c)
    ensures Before(e, a, c)
  {
    Lexicographic.Transitive(Code(e, a), Code(e, b), Code(e, c));
  }

  // ------------------------------------------------------ sorted listings

  ghost predicate IsLeast(e: Encoding, names: set<string>, least: string) {
    least in names && forall n | n in names && n != least :: Before(e, least, n)
  }

  lemma {:induction false} LeastExists(e: Encoding, names: set<string>)
    requires names != {}
    ensures exists n :: IsLeast(e, names, n)
    decreases |names|
  {
    var x :| x in names;
    var others := names - {x};
    if others == {} {
      assert forall n | n in names :: n == x || n in others;
      assert IsLeast(e, names, x);
    } else {
      LeastExists(e, others);
      var y :| IsLeast(e, others, y);
      BeforeTotal(e, x, y);
      if Before(e, x, y) {
        forall n | n in names && n != x
          ensures Before(e, x, n)
        {
          assert n in others;
          if n != y {
            BeforeTransitive(e, x, y, n);
          }
        }
        assert IsLeast(e, names, x);
      } else {
        assert IsLeast(e, names, y);
      }
    }
  }

  /** The names of a set in ascending order. */
  ghost function Listing(e: Encoding, names: set<string>): seq<string>
    decreases |names|
  {
    if names == {} then []
    else
      LeastExists(e, names);
      var n :| IsLeast(e, names, n);
      [n] + Listing(e, names - {n})
  }

  lemma {:induction false} ListingSorted(e: Encoding, names: set<string>)
    ensures Elements(Listing(e, names)) == names
    ensures Ascending(e, Listing(e, names))
    decreases |names|
  {
    hide Before;
    if names != {} {
      LeastExists(e, names);
      var least := Listing(e, names)[0];
      var rest := names - {least};
      ListingSorted(e, rest);
      PrependLeast(e, names, least, Listing(e, rest));
    }
  }

  lemma PrependLeast(e: Encoding, names: set<string>, least: string, tail: seq<string>)
    requires IsLeast(e, names, least)
    requires Ascending(e, tail) && Elements(tail) == names - {least}
    ensures Ascending(e, [least] + tail) && Elements([least] + tail) == names
  {
    hide Before;
    var l := [least] + tail;
    forall j | 1 <= j < |l|
      ensures Before(e, l[0], l[j])
    {
      assert tail[j - 1] in Elements(tail);
    }
    forall n
      ensures n in Elements(l) <==> n in names
    {
      assert n in tail <==> n in Elements(tail);
    }
  }

  /** A strictly ascending sequence is determined by its elements. */
  lemma {:induction false} AscendingUnique(e: Encoding, a: seq<string>, b: seq<string>)
    requires Ascending(e, a) && Ascending(e, b) && Elements(a) == Elements(b)
    ensures a == b
  {
    if a == [] {
      assert forall i | 0 <= i < |b| :: b[i] in Elements(b);
    } else {
      assert a[0] in Elements(b);
      assert b != [] && b[0] in Elements(a);
      FirstIsLeast(e, a, b[0]);
      FirstIsLeast(e, b, a[0]);
      BeforeTotal(e, a[0], b[0]);
      assert a[0] == b[0];
      TailElements(e, a);
      TailElements(e, b);
      AscendingUnique(e, a[1..], b[1..]);
      assert a == [a[0]] + a[1..] && b == [b[0]] + b[1..];
    }
  }

  lemma FirstIsLeast(e: Encoding, a: seq<string>, n: string)
    requires Ascending(e, a) && n in a
    ensures n == a[0] || Before(e, a[0], n)
  {
  }

  lemma TailElements(e: Encoding, a: seq<string>)
    requires Ascending(e, a) && a != []
    ensures Elements(a[1..]) == Elements(a) - {a[0]}
    ensures Ascending(e, a[1..])
  {
    BeforeTotal(e, a[0], a[0]);
    forall n
      ensures n in Elements(a[1..]) <==> n in Elements(a) - {a[0]}
    {
      if n in a[1..] {
        var j :| 1 <= j < |a| && a[j] == n;
        assert Before(e, a[0], a[j]);
      }
    }
  }

  lemma ListingUnique(e: Encoding, a: seq<string>)
    requires Ascending(e, a)
    ensures a == Listing(e, Elements(a))
  {
    ListingSorted(e, Elements(a));
    AscendingUnique(e, a, Listing(e, Elements(a)));
  }

  // -------------------------------------------------------------- sorting

  /** A name beside the code it is compared by: writeObject's local `member`. */
  datatype Member = Member(name: string, code: seq<int>)

  predicate AtMost(a: Member, b: Member) {
    !Lexicographic.Less(b.code, a.code)
  }

  lemma AtMostTransitive(a: Member, b: Member, c: Member)
    requires AtMost(a, b) && AtMost(b, c)
    ensures AtMost(a, c)
  {
    Lexicographic.Connected(a.code, b.code);
    if Lexicographic.Less(c.code, a.code) && Lexicographic.Less(a.code, b.code) {
      Lexicographic.Transitive(c.code, a.code, b.code);
    }
  }

  method Swap(a: array<Member>, i: int, j: int)
    requires 0 <= i < j < a.Length
    modifies a
    ensures a[..] == old(a[..])[i := old(a[j])][j := old(a[i])]
    ensures multiset(a[..]) == old(multiset(a[..]))
  {
    a[i], a[j] := a[j], a[i];
  }

  predicate SortedBefore(s: seq<Member>, n: nat)
    requires n <= |s|
  {
    forall p, q :: 0 <= p < q < n ==> AtMost(s[p], s[q])
  }

  /** Ascending up to and including `n`, except that position `j` may belong further left. */
  predicate SortedExcept(s: seq<Member>, n: nat, j: nat)
    requires n < |s|
  {
    forall p, q :: 0 <= p < q <= n && q != j ==> AtMost(s[p], s[q])
  }

  /** Sorts members in place by their codes. */
  method Sort(a: array<Member>)
    modifies a
    ensures multiset(a[..]) == old(multiset(a[..]))
    ensures SortedBefore(a[..], a.Length)
  {
    var i := 0;
    while i < a.Length
      invariant 0 <= i <= a.Length
      invariant multiset(a[..]) == old(multiset(a[..]))
      invariant SortedBefore(a[..], i)
    {
      Sink(a, i);
      i := i + 1;
    }
  }

  /** Moves the member at `i` left to its place among the sorted members before it. */
  method Sink(a: array<Member>, i: nat)
    requires i < a.Length && SortedBefore(a[..], i)
    modifies a
    ensures multiset(a[..]) == old(multiset(a[..]))
    ensures SortedBefore(a[..], i + 1)
  {
    var j := i;
    while j > 0
      invariant 0 <= j <= i
      invariant multiset(a[..]) == old(multiset(a[..]))
      invariant SortedExcept(a[..], i, j)
    {
      var less := Lexicographic.LessLoop(a[j].code, a[j - 1].code);
      if !less {
        forall p | 0 <= p < j
          ensures AtMost(a[p], a[j])
        {
          if p < j - 1 {
            assert AtMost(a[..][p], a[..][j - 1]);
            AtMostTransitive(a[p], a[j - 1], a[j]);
          }
        }
        return;
      }
      ghost var before := a[..];
      Swap(a, j - 1, j);
      SwapKeepsSorted(before, a[..], i, j);
      j := j - 1;
    }
  }

  lemma SwapKeepsSorted(s: seq<Member>, t: seq<Member>, n: nat, j: nat)
    requires 0 < j <= n < |s| && SortedExcept(s, n, j)
    requires Lexicographic.Less(s[j].code, s[j - 1].code)
    requires t == s[j - 1 := s[j]][j := s[j - 1]]
    ensures SortedExcept(t, n, j - 1)
  {
    forall p, q | 0 <= p < q <= n && q != j - 1
      ensures AtMost(t[p], t[q])
    {
      if p == j - 1 && q == j {
        Lexicographic.Irreflexive(s[j].code);
        if Lexicographic.Less(s[j - 1].code, s[j].code) {
          Lexicographic.Transitive(s[j].code, s[j - 1].code, s[j].code);
        }
      }
    }
  }

  lemma {:induction false} NoDuplicatesCount<T>(s: seq<T>, x: T)
    requires NoDuplicates(s)
    ensures multiset(s)[x] <= 1
  {
    if s != [] {
      assert s == [s[0]] + s[1..];
      NoDuplicatesCount(s[1..], x);
      if x == s[0] {
        assert x !in s[1..];
        assert x !in multiset(s[1..]);
      }
    }
  }

  lemma PermutationNoDuplicates<T>(s: seq<T>, t: seq<T>)
    requires multiset(s) == multiset(t) && NoDuplicates(s)
    ensures NoDuplicates(t)
  {
    forall i, j | 0 <= i < j < |t|
      ensures t[i] != t[j]
    {
      NoDuplicatesCount(s, t[i]);
      assert t == t[..j] + t[j..];
      assert t[i] in t[..j] && t[j] in t[j..];
      assert multiset(t) == multiset(t[..j]) + multiset(t[j..]);
    }
  }

  function Names(members: seq<Member>): (names: seq<string>)
    ensures |names| == |members| && forall i :: 0 <= i < |members| ==> names[i] == members[i].name
  {
    seq(|members|, i requires 0 <= i < |members| => members[i].name)
  }

  predicate Coded(e: Encoding, members: seq<Member>) {
    forall i :: 0 <= i < |members| ==> members[i].code == Code(e, members[i].name)
  }

  lemma PermutationMembers<T>(s: seq<T>, t: seq<T>, m: T)
    requires multiset(s) == multiset(t) && m in s
    ensures m in t
  {
    assert m in multiset(s);
  }

  lemma PermutationNames(s: seq<Member>, t: seq<Member>)
    requires multiset(s) == multiset(t)
    ensures Elements(Names(s)) <= Elements(Names(t))
  {
    forall n | n in Elements(Names(s))
      ensures n in Elements(Names(t))
    {
      var i :| 0 <= i < |s| && Names(s)[i] == n;
      PermutationMembers(s, t, s[i]);
      var k :| 0 <= k < |t| && t[k] == s[i];
      assert Names(t)[k] == n;
    }
  }

  lemma PermutationCoded(e: Encoding, s: seq<Member>, t: seq<Member>)
    requires multiset(s) == multiset(t) && Coded(e, s)
    ensures Coded(e, t)
  {
    forall i | 0 <= i < |t|
      ensures t[i].code == Code(e, t[i].name)
    {
      PermutationMembers(t, s, t[i]);
    }
  }

  lemma SortedNamesAscending(e: Encoding, t: seq<Member>)
    requires Coded(e, t) && NoDuplicates(t) && SortedBefore(t, |t|)
    ensures Ascending(e, Names(t))
  {
    forall i, j | 0 <= i < j < |t|
      ensures Before(e, Names(t)[i], Names(t)[j])
    {
      assert AtMost(t[i], t[j]) && t[i] != t[j];
      BeforeTotal(e, t[i].name, t[j].name);
    }
  }

  /** Whatever order the names were collected in, sorting them yields the one listing of their set. */
  lemma SortFindsListing(e: Encoding, s: seq<Member>, t: seq<Member>)
    requires Coded(e, s) && NoDuplicates(s)
    requires multiset(s) == multiset(t) && SortedBefore(t, |t|)
    ensures Coded(e, t)
    ensures Names(t) == Listing(e, Elements(Names(s)))
  {
    PermutationCoded(e, s, t);
    assert Ascending(e, Names(t)) by {
      PermutationNoDuplicates(s, t);
      SortedNamesAscending(e, t);
    }
    assert Elements(Names(s)) == Elements(Names(t)) by {
      PermutationNames(s, t);
      PermutationNames(t, s);
    }
    ListingUnique(e, Names(t));
  }
}

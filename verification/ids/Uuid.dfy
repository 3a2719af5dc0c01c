/** UUIDs, their canonical text (section 3 of RFC 4122), and the order that
    comparing those texts gives. */
module Uuids {
  import opened Wrappers

  type Byte = b: int | 0 <= b < 256

  type Uuid = u: seq<Byte> | |u| == 16 witness seq(16, _ => 0)

  function HexDigit(n: int): char
    requires 0 <= n < 16
  {
    if n < 10 then '0' + n as char else 'a' + (n - 10) as char
  }

  function Hex(bytes: seq<Byte>): string {
    if bytes == [] then ""
    else [HexDigit(bytes[0] / 16)] + ([HexDigit(bytes[0] % 16)] + Hex(bytes[1..]))
  }

  /** Groups of the given sizes, separated by dashes. */
  function Groups(bytes: seq<Byte>, sizes: seq<nat>): string
    requires Total(sizes) == |bytes|
  {
    if sizes == [] then ""
    else
      Hex(bytes[..sizes[0]]) + (if |sizes| == 1 then "" else ['-'] + Groups(bytes[sizes[0]..], sizes[1..]))
  }

  function Total(sizes: seq<nat>): nat {
    if sizes == [] then 0 else sizes[0] + Total(sizes[1..])
  }

  const LAYOUT: seq<nat> := [4, 2, 2, 2, 6]

  lemma LayoutHasSixteenBytes()
    ensures Total(LAYOUT) == 16
  {
    assert LAYOUT[1..] == [2, 2, 2, 6] && [2, 2, 2, 6][1..] == [2, 2, 6] && [2, 2, 6][1..] == [2, 6];
    assert Total([2, 6]) == 8;
    assert Total([2, 2, 6]) == 10;
    assert Total([2, 2, 2, 6]) == 12;
  }

  function Text(u: Uuid): string {
    LayoutHasSixteenBytes();
    Groups(u, LAYOUT)
  }

  lemma {:induction false} HexIsTwoDigits(bytes: seq<Byte>)
    ensures |Hex(bytes)| == 2 * |bytes|
    ensures forall i :: 0 <= i < |bytes| ==>
              Hex(bytes)[2 * i] == HexDigit(bytes[i] / 16) && Hex(bytes)[2 * i + 1] == HexDigit(bytes[i] % 16)
  {
    if bytes != [] {
      HexIsTwoDigits(bytes[1..]);
      var tail := Hex(bytes[1..]);
      forall i | 0 <= i < |bytes|
        ensures Hex(bytes)[2 * i] == HexDigit(bytes[i] / 16) && Hex(bytes)[2 * i + 1] == HexDigit(bytes[i] % 16)
      {
        if i > 0 {
          assert Hex(bytes)[2 * i] == tail[2 * (i - 1)] && Hex(bytes)[2 * i + 1] == tail[2 * (i - 1) + 1];
          assert bytes[1..][i - 1] == bytes[i];
        }
      }
    }
  }

  /** The canonical text: five groups of hex digits of 8, 4, 4, 4 and 12. */
  lemma TextIsFiveGroups(u: Uuid)
    ensures Text(u) == Hex(u[..4]) + (['-'] + (Hex(u[4..6]) + (['-'] + (Hex(u[6..8]) + (['-'] + (Hex(u[8..10]) + (['-'] + Hex(u[10..]))))))))
    ensures |Text(u)| == 36
  {
    LayoutHasSixteenBytes();
    assert LAYOUT[1..] == [2, 2, 2, 6] && [2, 2, 2, 6][1..] == [2, 2, 6] && [2, 2, 6][1..] == [2, 6] && [2, 6][1..] == [6];
    var a := u[4..];
    assert a[..2] == u[4..6] && a[2..] == u[6..];
    var b := u[6..];
    assert b[..2] == u[6..8] && b[2..] == u[8..];
    var c := u[8..];
    assert c[..2] == u[8..10] && c[2..] == u[10..];
    var d := u[10..];
    assert d[..6] == d;
    assert Groups(d, [6]) == Hex(d) + "" == Hex(d);
    assert Groups(c, [2, 6]) == Hex(u[8..10]) + (['-'] + Hex(d));
    assert Groups(b, [2, 2, 6]) == Hex(u[6..8]) + (['-'] + Groups(c, [2, 6]));
    assert Groups(a, [2, 2, 2, 6]) == Hex(u[4..6]) + (['-'] + Groups(b, [2, 2, 6]));
    HexIsTwoDigits(u[..4]);
    HexIsTwoDigits(u[4..6]);
    HexIsTwoDigits(u[6..8]);
    HexIsTwoDigits(u[8..10]);
    HexIsTwoDigits(u[10..]);
  }

  lemma HexDigits(n: int)
    requires 0 <= n < 16
    ensures HexDigit(n) == "0123456789abcdef"[n]
  {
  }

  /** The operator < of Go on strings. */
  predicate TextLess(a: string, b: string) {
    b != "" && (a == "" || a[0] < b[0] || (a[0] == b[0] && TextLess(a[1..], b[1..])))
  }

  predicate BytesLess(a: seq<Byte>, b: seq<Byte>) {
    b != [] && (a == [] || a[0] < b[0] || (a[0] == b[0] && BytesLess(a[1..], b[1..])))
  }

  /** The first byte in which they differ decides. */
  lemma {:induction false} FirstDifferenceDecides(a: seq<Byte>, b: seq<Byte>)
    requires |a| == |b|
    ensures BytesLess(a, b) <==> exists k :: 0 <= k < |a| && a[..k] == b[..k] && a[k] < b[k]
  {
    if a != [] {
      FirstDifferenceDecides(a[1..], b[1..]);
      if BytesLess(a, b) {
        if a[0] < b[0] {
          assert a[..0] == b[..0];
        } else {
          var k :| 0 <= k < |a[1..]| && a[1..][..k] == b[1..][..k] && a[1..][k] < b[1..][k];
          assert a[..k + 1] == [a[0]] + a[1..][..k] && b[..k + 1] == [b[0]] + b[1..][..k];
          assert a[k + 1] < b[k + 1];
        }
      }
      if k :| 0 <= k < |a| && a[..k] == b[..k] && a[k] < b[k] {
        if k > 0 {
          assert a[0] == a[..k][0] == b[..k][0] == b[0];
          assert a[1..][..k - 1] == a[..k][1..] && b[1..][..k - 1] == b[..k][1..];
          assert a[1..][k - 1] < b[1..][k - 1];
        }
      }
    }
  }

  lemma HeadDecides(c: char, d: char, s: string, t: string)
    ensures TextLess([c] + s, [d] + t) <==> c < d || (c == d && TextLess(s, t))
  {
    assert ([c] + s)[1..] == s && ([d] + t)[1..] == t;
  }

  lemma DigitOrder(m: int, n: int)
    requires 0 <= m < 16 && 0 <= n < 16
    ensures HexDigit(m) < HexDigit(n) <==> m < n
    ensures HexDigit(m) == HexDigit(n) <==> m == n
  {
  }

  lemma {:induction false} HexPrefixOrder(a: seq<Byte>, b: seq<Byte>, x: string, y: string)
    requires |a| == |b|
    ensures TextLess(Hex(a) + x, Hex(b) + y) <==> BytesLess(a, b) || (a == b && TextLess(x, y))
  {
    if a == [] {
      assert Hex(a) + x == x && Hex(b) + y == y;
    } else {
      var a0, b0, a', b' := a[0], b[0], a[1..], b[1..];
      var s, t := Hex(a') + x, Hex(b') + y;
      assert Hex(a) + x == [HexDigit(a0 / 16)] + ([HexDigit(a0 % 16)] + s);
      assert Hex(b) + y == [HexDigit(b0 / 16)] + ([HexDigit(b0 % 16)] + t);
      HeadDecides(HexDigit(a0 / 16), HexDigit(b0 / 16), [HexDigit(a0 % 16)] + s, [HexDigit(b0 % 16)] + t);
      HeadDecides(HexDigit(a0 % 16), HexDigit(b0 % 16), s, t);
      DigitOrder(a0 / 16, b0 / 16);
      DigitOrder(a0 % 16, b0 % 16);
      HexPrefixOrder(a', b', x, y);
      assert a == [a0] + a' && b == [b0] + b';
    }
  }

  lemma {:induction false} BytesPrefixOrder(a: seq<Byte>, b: seq<Byte>, x: seq<Byte>, y: seq<Byte>)
    requires |a| == |b|
    ensures BytesLess(a + x, b + y) <==> BytesLess(a, b) || (a == b && BytesLess(x, y))
  {
    if a == [] {
      assert a + x == x && b + y == y;
    } else {
      BytesPrefixOrder(a[1..], b[1..], x, y);
      assert a == [a[0]] + a[1..] && b == [b[0]] + b[1..];
      assert (a + x)[1..] == a[1..] + x && (b + y)[1..] == b[1..] + y;
    }
  }

  lemma {:induction false} GroupOrder(u: seq<Byte>, v: seq<Byte>, sizes: seq<nat>)
    requires Total(sizes) == |u| == |v|
    ensures TextLess(Groups(u, sizes), Groups(v, sizes)) <==> BytesLess(u, v)
    decreases |sizes|
  {
    if |sizes| == 1 {
      assert sizes[1..] == [] && u[..sizes[0]] == u && v[..sizes[0]] == v;
      HexPrefixOrder(u, v, "", "");
    } else if sizes != [] {
      var n := sizes[0];
      var x, y := Groups(u[n..], sizes[1..]), Groups(v[n..], sizes[1..]);
      HexPrefixOrder(u[..n], v[..n], ['-'] + x, ['-'] + y);
      HeadDecides('-', '-', x, y);
      GroupOrder(u[n..], v[n..], sizes[1..]);
      BytesPrefixOrder(u[..n], v[..n], u[n..], v[n..]);
      assert u == u[..n] + u[n..] && v == v[..n] + v[n..];
    }
  }

  /** The order of the method Less of a slice, on its elements. */
  predicate Less(u: Uuid, v: Uuid) {
    TextLess(Text(u), Text(v))
  }

  /** Comparing canonical texts is comparing the sixteen bytes. */
  lemma LessIsByteOrder(u: Uuid, v: Uuid)
    ensures Less(u, v) <==> BytesLess(u, v)
  {
    LayoutHasSixteenBytes();
    GroupOrder(u, v, LAYOUT);
  }

  lemma {:induction false} BytesLessIsTotal(a: seq<Byte>, b: seq<Byte>)
    requires |a| == |b|
    ensures BytesLess(a, b) || a == b || BytesLess(b, a)
    ensures !(BytesLess(a, b) && BytesLess(b, a)) && !(BytesLess(a, b) && a == b)
    decreases |a|
  {
    if a != [] {
      BytesLessIsTotal(a[1..], b[1..]);
      assert a == [a[0]] + a[1..] && b == [b[0]] + b[1..];
    }
  }

  lemma {:induction false} BytesLessIsTransitive(a: seq<Byte>, b: seq<Byte>, c: seq<Byte>)
    requires BytesLess(a, b) && BytesLess(b, c)
    ensures BytesLess(a, c)
    decreases |a|
  {
    if a != [] && a[0] == b[0] && b[0] == c[0] {
      BytesLessIsTransitive(a[1..], b[1..], c[1..]);
    }
  }

  /** Less is a strict total order. */
  lemma LessIsStrictTotalOrder(u: Uuid, v: Uuid, w: Uuid)
    ensures !Less(u, u)
    ensures u != v ==> Less(u, v) != Less(v, u)
    ensures Less(u, v) && Less(v, w) ==> Less(u, w)
  {
    LessIsByteOrder(u, u);
    LessIsByteOrder(u, v);
    LessIsByteOrder(v, u);
    LessIsByteOrder(v, w);
    LessIsByteOrder(u, w);
    BytesLessIsTotal(u, u);
    BytesLessIsTotal(u, v);
    if BytesLess(u, v) && BytesLess(v, w) {
      BytesLessIsTransitive(u, v, w);
    }
  }

  /** What sort.IsSorted tests. */
  predicate Sorted(s: seq<Uuid>) {
    forall i | 0 < i < |s| :: !Less(s[i], s[i - 1])
  }

  predicate AtMost(u: Uuid, v: Uuid) {
    u == v || BytesLess(u, v)
  }

  lemma AtMostIsTransitive(u: Uuid, v: Uuid, w: Uuid)
    requires AtMost(u, v) && AtMost(v, w)
    ensures AtMost(u, w)
  {
    if u != v && v != w {
      BytesLessIsTransitive(u, v, w);
    }
  }

  lemma {:induction false} SortedHeadIsLeast(s: seq<Uuid>, k: nat)
    requires Sorted(s) && k < |s|
    ensures AtMost(s[0], s[k])
    decreases k
  {
    if k > 0 {
      SortedHeadIsLeast(s, k - 1);
      LessIsByteOrder(s[k], s[k - 1]);
      BytesLessIsTotal(s[k], s[k - 1]);
      AtMostIsTransitive(s[0], s[k - 1], s[k]);
    }
  }

  lemma SortedTail(s: seq<Uuid>)
    requires Sorted(s) && s != []
    ensures Sorted(s[1..])
  {
    forall i | 0 < i < |s[1..]| ensures !Less(s[1..][i], s[1..][i - 1]) {
      assert s[1..][i] == s[i + 1] && s[1..][i - 1] == s[i];
      assert !Less(s[i + 1], s[i + 1 - 1]);
    }
  }

  lemma SortedHeadsAgree(s: seq<Uuid>, t: seq<Uuid>)
    requires Sorted(s) && Sorted(t) && s != [] && t != [] && s[0] in t && t[0] in s
    ensures s[0] == t[0]
  {
    var i :| 0 <= i < |t| && t[i] == s[0];
    var j :| 0 <= j < |s| && s[j] == t[0];
    SortedHeadIsLeast(t, i);
    SortedHeadIsLeast(s, j);
    BytesLessIsTotal(s[0], t[0]);
  }

  /** Sorting has one answer: permutations of each other that are both sorted
      are equal. */
  lemma {:induction false} SortedPermutationIsUnique(s: seq<Uuid>, t: seq<Uuid>)
    requires Sorted(s) && Sorted(t) && multiset(s) == multiset(t)
    ensures s == t
    decreases |s|
  {
    SameLength(s, t);
    if s != [] {
      assert s[0] in multiset(s) && t[0] in multiset(t);
      SortedHeadsAgree(s, t);
      SortedTail(s);
      SortedTail(t);
      TailMultiset(s);
      TailMultiset(t);
      SortedPermutationIsUnique(s[1..], t[1..]);
      SameHeadAndTail(s, t);
    }
  }

  lemma SameLength(s: seq<Uuid>, t: seq<Uuid>)
    requires multiset(s) == multiset(t)
    ensures |s| == |t|
  {
    assert |s| == |multiset(s)| == |multiset(t)| == |t|;
  }

  lemma SameHeadAndTail(s: seq<Uuid>, t: seq<Uuid>)
    requires s != [] && t != [] && s[0] == t[0] && s[1..] == t[1..]
    ensures s == t
  {
    assert s == [s[0]] + s[1..] && t == [t[0]] + t[1..];
  }

  lemma TailMultiset(s: seq<Uuid>)
    requires s != []
    ensures multiset(s[1..]) == multiset(s) - multiset{s[0]}
  {
    assert s == [s[0]] + s[1..];
  }

  function DigitValue(c: char): Option<int> {
    if '0' <= c <= '9' then Some(c as int - '0' as int)
    else if 'a' <= c <= 'f' then Some(c as int - 'a' as int + 10)
    else None
  }

  datatype Read = Read(bytes: seq<Byte>, rest: string)

  /** Reads n bytes of hex; returns them with the rest of the text. */
  function ReadHex(text: string, n: nat): Option<Read> {
    if n == 0 then Some(Read([], text))
    else if |text| < 2 || DigitValue(text[0]).None? || DigitValue(text[1]).None? then None
    else
      match ReadHex(text[2..], n - 1)
      case None => None
      case Some(r) => Some(r.(bytes := [DigitValue(text[0]).value * 16 + DigitValue(text[1]).value] + r.bytes))
  }

  /** Reads groups of the given sizes; returns the bytes with the rest. */
  function ReadGroups(text: string, sizes: seq<nat>): Option<Read>
    decreases |sizes|
  {
    if sizes == [] then Some(Read([], text))
    else
      match ReadHex(text, sizes[0])
      case None => None
      case Some(first) =>
        if |sizes| == 1 then Some(first)
        else if first.rest == "" || first.rest[0] != '-' then None
        else
          match ReadGroups(first.rest[1..], sizes[1..])
          case None => None
          case Some(more) => Some(more.(bytes := first.bytes + more.bytes))
  }

  lemma DigitValueInverts(n: int)
    requires 0 <= n < 16
    ensures DigitValue(HexDigit(n)) == Some(n)
  {
  }

  lemma ReadsOneByte(b: Byte, tail: string, n: nat)
    ensures ReadHex([HexDigit(b / 16)] + ([HexDigit(b % 16)] + tail), n + 1) ==
            match ReadHex(tail, n)
            case None => None
            case Some(r) => Some(r.(bytes := [b] + r.bytes))
  {
    var text := [HexDigit(b / 16)] + ([HexDigit(b % 16)] + tail);
    assert text[2..] == tail;
    DigitValueInverts(b / 16);
    DigitValueInverts(b % 16);
  }

  lemma AppendBehindTwo(a: char, b: char, c: string, d: string)
    ensures ([a] + ([b] + c)) + d == [a] + ([b] + (c + d))
  {
  }

  lemma {:induction false} ReadHexInverts(bytes: seq<Byte>, rest: string)
    ensures ReadHex(Hex(bytes) + rest, |bytes|) == Some(Read(bytes, rest))
  {
    if bytes == [] {
      assert Hex(bytes) + rest == rest;
    } else {
      var tail := Hex(bytes[1..]) + rest;
      ReadHexInverts(bytes[1..], rest);
      ReadsOneByte(bytes[0], tail, |bytes| - 1);
      AppendBehindTwo(HexDigit(bytes[0] / 16), HexDigit(bytes[0] % 16), Hex(bytes[1..]), rest);
      assert bytes == [bytes[0]] + bytes[1..];
    }
  }

  lemma ReadsOneGroup(first: seq<Byte>, sizes: seq<nat>, rest: string)
    requires |sizes| == 1 && |first| == sizes[0]
    ensures ReadGroups(Hex(first) + rest, sizes) == Some(Read(first, rest))
  {
    ReadHexInverts(first, rest);
  }

  lemma ReadsFirstGroup(first: seq<Byte>, sizes: seq<nat>, tail: string)
    requires |sizes| > 1 && |first| == sizes[0]
    ensures ReadGroups(Hex(first) + (['-'] + tail), sizes) ==
            match ReadGroups(tail, sizes[1..])
            case None => None
            case Some(more) => Some(more.(bytes := first + more.bytes))
  {
    ReadHexInverts(first, ['-'] + tail);
    assert (['-'] + tail)[1..] == tail;
  }

  lemma {:induction false} ReadGroupsInverts(bytes: seq<Byte>, sizes: seq<nat>, rest: string)
    requires Total(sizes) == |bytes|
    ensures ReadGroups(Groups(bytes, sizes) + rest, sizes) == Some(Read(bytes, rest))
    decreases |sizes|
  {
    if sizes == [] {
      assert Groups(bytes, sizes) + rest == rest;
    } else {
      var n := sizes[0];
      var first, more := bytes[..n], bytes[n..];
      assert first + more == bytes;
      if |sizes| == 1 {
        assert sizes[1..] == [] && more == [];
        assert first == bytes && Groups(bytes, sizes) == Hex(first) + "" == Hex(first);
        ReadsOneGroup(first, sizes, rest);
      } else {
        var tail := Groups(more, sizes[1..]) + rest;
        assert Groups(bytes, sizes) + rest == Hex(first) + (['-'] + tail);
        ReadGroupsInverts(more, sizes[1..], rest);
        ReadsFirstGroup(first, sizes, tail);
      }
    }
  }

  /** Reading a canonical text gives back the UUID, and stops right after it. */
  lemma ReadTextInverts(u: Uuid, rest: string)
    ensures ReadGroups(Text(u) + rest, LAYOUT) == Some(Read(u, rest))
  {
    LayoutHasSixteenBytes();
    ReadGroupsInverts(u, LAYOUT, rest);
  }
}

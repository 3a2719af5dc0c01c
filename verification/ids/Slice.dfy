/** `id.Slice` and `id.Map`: slices as windows on arrays, which appending may
    share or leave, and sets of UUIDs whose iteration order is arbitrary. */
module Slices {
  import opened Wrappers
  import opened Uuids

  /** A Go slice: cells off, ..., off + len - 1 of `arr`, and room up to
      off + cap. */
  datatype Slice = Slice(arr: array<Uuid>, off: nat, len: nat, cap: nat) {
    ghost predicate Valid() {
      len <= cap && off + cap <= arr.Length
    }

    function Contents(): seq<Uuid>
      requires off + len <= arr.Length
      reads arr
    {
      arr[off..off + len]
    }
  }

  /** A slice variable, which Add changes through its pointer. */
  class SliceVar {
    var v: Slice

    constructor (v: Slice)
      ensures this.v == v
    {
      this.v := v;
    }

    method Add(b: Slice)
      requires v.Valid() && b.Valid()
      modifies this, v.arr
      ensures v.Valid() && v.Contents() == old(v.Contents()) + old(b.Contents())
      ensures v.arr == old(v.arr) || fresh(v.arr)
      ensures OnlySpareCellsChanged(old(v), old(v.arr[..]), old(v).arr[..])
    {
      v := Append(v, b);
    }
  }

  /** The cells of the array outside the room behind s are as before. */
  ghost predicate OnlySpareCellsChanged(s: Slice, before: seq<Uuid>, after: seq<Uuid>)
    requires s.Valid()
  {
    && |before| == |after| == s.arr.Length
    && after[..s.off + s.len] == before[..s.off + s.len]
    && after[s.off + s.cap..] == before[s.off + s.cap..]
  }

  // copy(s[len(s):], b), with room for b; b may overlap the cells written.
  method CopyBehind(s: Slice, b: Slice)
    requires s.Valid() && b.Valid() && s.len + b.len <= s.cap
    modifies s.arr
    ensures forall k :: 0 <= k < s.arr.Length && !(s.off + s.len <= k < s.off + s.len + b.len) ==> s.arr[k] == old(s.arr[k])
    ensures s.arr[s.off + s.len..s.off + s.len + b.len] == old(b.Contents())
  {
    forall i | 0 <= i < b.len {
      s.arr[s.off + s.len + i] := b.arr[b.off + i];
    }
  }

  // A larger array that starts with the contents of s and then of b.
  method Grow(s: Slice, b: Slice) returns (a: array<Uuid>)
    requires s.Valid() && b.Valid()
    ensures fresh(a) && a.Length >= s.len + b.len && a[..s.len + b.len] == s.Contents() + b.Contents()
  {
    var zero: Uuid := seq(16, _ => 0);
    var all := s.Contents() + b.Contents();
    a := new Uuid[2 * |all|](i requires 0 <= i < 2 * |all| => if i < |all| then all[i] else zero);
  }

  /** append(s, b...): in the room behind s if there is enough of it, else in a
      new array. The two slices may overlap: all of b is read first. */
  method Append(s: Slice, b: Slice) returns (r: Slice)
    requires s.Valid() && b.Valid()
    modifies s.arr
    ensures r.Valid() && r.Contents() == old(s.Contents()) + old(b.Contents())
    ensures s.Contents() == old(s.Contents())
    ensures OnlySpareCellsChanged(s, old(s.arr[..]), s.arr[..])
    ensures if s.len + b.len <= s.cap
            then r == s.(len := s.len + b.len)
            else fresh(r.arr) && s.arr[..] == old(s.arr[..])
  {
    if s.len + b.len <= s.cap {
      CopyBehind(s, b);
      r := s.(len := s.len + b.len);
      assert r.Contents() == s.arr[s.off..s.off + s.len] + s.arr[s.off + s.len..s.off + s.len + b.len];
    } else {
      var a := Grow(s, b);
      r := Slice(a, 0, s.len + b.len, a.Length);
    }
  }

  /** The elements of `part` that occur once in `all`, in order. */
  function Once(all: multiset<Uuid>, part: seq<Uuid>): seq<Uuid> {
    if part == [] then []
    else
      var last := part[|part| - 1];
      Once(all, part[..|part| - 1]) + if all[last] == 1 then [last] else []
  }

  /** The elements of s that are not in `lut`, in order. */
  function Outside(s: seq<Uuid>, lut: set<Uuid>): seq<Uuid> {
    if s == [] then []
    else
      var last := s[|s| - 1];
      Outside(s[..|s| - 1], lut) + if last !in lut then [last] else []
  }

  function ToSet(s: seq<Uuid>): set<Uuid> {
    set u | u in s
  }

  function DiffOf(a: seq<Uuid>, b: seq<Uuid>): seq<Uuid> {
    Once(multiset(a + b), a + b)
  }

  // The first loop of Diff: how often each element occurs.
  method Encountered(slice: Slice) returns (encountered: map<Uuid, int>)
    requires slice.Valid()
    ensures forall u :: u in encountered <==> u in slice.Contents()
    ensures forall u :: u in encountered ==> encountered[u] == multiset(slice.Contents())[u]
  {
    var all := slice.Contents();
    encountered := map[];
    for i := 0 to slice.len
      invariant forall u :: u in encountered <==> u in all[..i]
      invariant forall u :: u in encountered ==> encountered[u] == multiset(all[..i])[u]
    {
      var v := slice.arr[slice.off + i];
      assert v == all[i] && all[..i + 1] == all[..i] + [v];
      encountered := encountered[v := (if v in encountered then encountered[v] else 0) + 1];
    }
    assert all[..slice.len] == all;
  }

  // The second loop: the elements with one occurrence.
  method Selected(slice: Slice, encountered: map<Uuid, int>) returns (diff: seq<Uuid>)
    requires slice.Valid()
    requires forall u :: u in slice.Contents() ==> u in encountered && encountered[u] == multiset(slice.Contents())[u]
    ensures diff == Once(multiset(slice.Contents()), slice.Contents())
  {
    var all := slice.Contents();
    diff := [];
    for i := 0 to slice.len
      invariant diff == Once(multiset(all), all[..i])
    {
      var v := slice.arr[slice.off + i];
      assert v == all[i] && v in all;
      assert all[..i + 1][..i] == all[..i];
      if encountered[v] == 1 {
        diff := diff + [v];
      }
    }
    assert all[..slice.len] == all;
  }

  /** The elements that occur once in the concatenation as it was at the call,
      even if the slices share an array; of that array only the room behind s
      may change. */
  method Diff(s: Slice, b: Slice) returns (diff: seq<Uuid>)
    requires s.Valid() && b.Valid()
    modifies s.arr
    ensures diff == DiffOf(old(s.Contents()), old(b.Contents()))
    ensures s.Contents() == old(s.Contents())
    ensures OnlySpareCellsChanged(s, old(s.arr[..]), s.arr[..])
    ensures s.len + b.len > s.cap ==> s.arr[..] == old(s.arr[..])
  {
    var slice := Append(s, b);
    var encountered := Encountered(slice);
    diff := Selected(slice, encountered);
  }

  method Sub(s: Slice, b: Slice) returns (sub: seq<Uuid>)
    requires s.Valid() && b.Valid()
    ensures sub == Outside(s.Contents(), ToSet(b.Contents()))
  {
    var lut: set<Uuid> := {};
    for i := 0 to b.len
      invariant lut == ToSet(b.Contents()[..i])
    {
      assert b.Contents()[..i + 1] == b.Contents()[..i] + [b.arr[b.off + i]];
      lut := lut + {b.arr[b.off + i]};
    }
    assert b.Contents()[..b.len] == b.Contents();
    sub := [];
    for i := 0 to s.len
      invariant sub == Outside(s.Contents()[..i], lut)
    {
      var v := s.arr[s.off + i];
      assert s.Contents()[..i + 1][..i] == s.Contents()[..i];
      assert s.Contents()[..i + 1][i] == v;
      if v !in lut {
        sub := sub + [v];
      }
    }
    assert s.Contents()[..s.len] == s.Contents();
  }

  method Contains(s: Slice, v: Uuid) returns (found: bool)
    requires s.Valid()
    ensures found <==> v in s.Contents()
  {
    for i := 0 to s.len
      invariant v !in s.Contents()[..i]
    {
      assert s.Contents()[..i + 1] == s.Contents()[..i] + [s.arr[s.off + i]];
      if s.arr[s.off + i] == v {
        assert s.Contents()[i] == v;
        return true;
      }
    }
    assert s.Contents()[..s.len] == s.Contents();
    return false;
  }

  function Swapped(s: seq<Uuid>, i: nat, j: nat): seq<Uuid>
    requires i < |s| && j < |s|
  {
    s[i := s[j]][j := s[i]]
  }

  lemma SwappedAt(s: seq<Uuid>, i: nat, j: nat, k: nat)
    requires i < |s| && j < |s| && k < |s|
    ensures |Swapped(s, i, j)| == |s|
    ensures Swapped(s, i, j)[k] == if k == i then s[j] else if k == j then s[i] else s[k]
  {
  }

  lemma SwappedIsPermutation(s: seq<Uuid>, i: nat, j: nat)
    requires i < |s| && j < |s|
    ensures multiset(Swapped(s, i, j)) == multiset(s)
  {
    assert multiset(s[i := s[j]]) == multiset(s) - multiset{s[i]} + multiset{s[j]};
  }

  method Swap(s: Slice, i: nat, j: nat)
    requires s.Valid() && i < s.len && j < s.len
    modifies s.arr
    ensures s.Contents() == Swapped(old(s.Contents()), i, j)
    ensures s.Contents()[i] == old(s.Contents())[j] && s.Contents()[j] == old(s.Contents())[i]
    ensures forall k :: 0 <= k < s.len && k != i && k != j ==> s.Contents()[k] == old(s.Contents())[k]
    ensures forall k :: 0 <= k < s.arr.Length && !(s.off <= k < s.off + s.len) ==> s.arr[k] == old(s.arr[k])
  {
    ghost var was := s.Contents();
    var p, q := s.off + i, s.off + j;
    s.arr[p], s.arr[q] := s.arr[q], s.arr[p];
    forall k | 0 <= k < s.len ensures s.arr[s.off + k] == Swapped(was, i, j)[k] {
      assert was[k] == old(s.arr[s.off + k]);
    }
  }

  /** What a run of swaps does, as sort.Sort makes them. */
  function AfterSwaps(s: seq<Uuid>, swaps: seq<(nat, nat)>): seq<Uuid>
    requires forall x :: x in swaps ==> x.0 < |s| && x.1 < |s|
    decreases |swaps|
  {
    if swaps == [] then s else AfterSwaps(Swapped(s, swaps[0].0, swaps[0].1), swaps[1..])
  }

  lemma {:induction false} SwapsPermute(s: seq<Uuid>, swaps: seq<(nat, nat)>)
    requires forall x :: x in swaps ==> x.0 < |s| && x.1 < |s|
    ensures multiset(AfterSwaps(s, swaps)) == multiset(s)
    decreases |swaps|
  {
    if swaps != [] {
      SwappedIsPermutation(s, swaps[0].0, swaps[0].1);
      SwapsPermute(Swapped(s, swaps[0].0, swaps[0].1), swaps[1..]);
    }
  }

  /** Any two runs of swaps that end sorted end in the same list. */
  lemma SortingHasOneResult(s: seq<Uuid>, one: seq<(nat, nat)>, two: seq<(nat, nat)>)
    requires forall x :: x in one || x in two ==> x.0 < |s| && x.1 < |s|
    requires Sorted(AfterSwaps(s, one)) && Sorted(AfterSwaps(s, two))
    ensures AfterSwaps(s, one) == AfterSwaps(s, two)
  {
    SwapsPermute(s, one);
    SwapsPermute(s, two);
    SortedPermutationIsUnique(AfterSwaps(s, one), AfterSwaps(s, two));
  }

  method MapFromSlice(s: seq<Uuid>) returns (m: set<Uuid>)
    ensures m == ToSet(s)
  {
    m := {};
    for i := 0 to |s|
      invariant m == ToSet(s[..i])
    {
      assert s[..i + 1] == s[..i] + [s[i]];
      m := m + {s[i]};
    }
    assert s[..|s|] == s;
  }

  ghost predicate NoDuplicates(s: seq<Uuid>) {
    forall i, j :: 0 <= i < j < |s| ==> s[i] != s[j]
  }

  /** The keys of a map, in whatever order the runtime visits them. */
  method ToSlice(m: set<Uuid>) returns (s: seq<Uuid>)
    ensures NoDuplicates(s) && ToSet(s) == m && |s| == |m|
  {
    s := [];
    var rest := m;
    while rest != {}
      invariant rest <= m && NoDuplicates(s) && ToSet(s) == m - rest && |s| + |rest| == |m|
      decreases |rest|
    {
      var k :| k in rest;
      assert k !in ToSet(s);
      assert ToSet(s + [k]) == ToSet(s) + {k};
      s := s + [k];
      rest := rest - {k};
    }
  }

  method Unique(s: seq<Uuid>) returns (r: seq<Uuid>)
    ensures NoDuplicates(r) && ToSet(r) == ToSet(s)
  {
    var m := MapFromSlice(s);
    r := ToSlice(m);
  }

  lemma {:induction false} OnceSplits(all: multiset<Uuid>, a: seq<Uuid>, b: seq<Uuid>)
    ensures Once(all, a + b) == Once(all, a) + Once(all, b)
    decreases |b|
  {
    if b == [] {
      assert a + b == a;
    } else {
      assert (a + b)[..|a + b| - 1] == a + b[..|b| - 1];
      OnceSplits(all, a, b[..|b| - 1]);
    }
  }

  /** Subtraction goes element by element, in order. */
  lemma {:induction false} OutsideOfParts(a: seq<Uuid>, b: seq<Uuid>, lut: set<Uuid>)
    ensures Outside(a + b, lut) == Outside(a, lut) + Outside(b, lut)
    decreases |b|
  {
    if b == [] {
      assert a + b == a;
    } else {
      assert (a + b)[..|a + b| - 1] == a + b[..|b| - 1];
      OutsideOfParts(a, b[..|b| - 1], lut);
    }
  }

  lemma SelectionOfOne(u: Uuid, all: multiset<Uuid>, lut: set<Uuid>)
    ensures Outside([u], lut) == if u in lut then [] else [u]
    ensures Once(all, [u]) == if all[u] == 1 then [u] else []
  {
    assert [u][..0] == [];
  }

  lemma {:induction false} OutsideMembers(s: seq<Uuid>, lut: set<Uuid>)
    ensures forall u :: u in Outside(s, lut) <==> u in s && u !in lut
  {
    if s != [] {
      OutsideMembers(s[..|s| - 1], lut);
      assert s == s[..|s| - 1] + [s[|s| - 1]];
    }
  }

  // Each element of s is counted as in `lut`-free lists: once, or more often.
  lemma {:induction false} OnceIsOutside(all: multiset<Uuid>, s: seq<Uuid>, lut: set<Uuid>)
    requires forall u :: u in s ==> (all[u] == 1 <==> u !in lut)
    ensures Once(all, s) == Outside(s, lut)
  {
    if s != [] {
      assert s == s[..|s| - 1] + [s[|s| - 1]];
      OnceIsOutside(all, s[..|s| - 1], lut);
    }
  }

  lemma {:induction false} CountOfDistinct(s: seq<Uuid>, u: Uuid)
    requires NoDuplicates(s)
    ensures multiset(s)[u] == if u in s then 1 else 0
  {
    if s != [] {
      var init, last := s[..|s| - 1], s[|s| - 1];
      assert s == init + [last];
      CountOfDistinct(init, u);
      assert last !in init;
    }
  }

  /** For lists without duplicates the difference is the part of a outside b,
      then the part of b outside a; the other way round it is a permutation. */
  lemma DiffIsSymmetricDifference(a: seq<Uuid>, b: seq<Uuid>)
    requires NoDuplicates(a) && NoDuplicates(b)
    ensures DiffOf(a, b) == Outside(a, ToSet(b)) + Outside(b, ToSet(a))
    ensures multiset(DiffOf(a, b)) == multiset(DiffOf(b, a))
  {
    DiffIsTwoSubs(a, b);
    DiffIsTwoSubs(b, a);
  }

  lemma DiffIsTwoSubs(a: seq<Uuid>, b: seq<Uuid>)
    requires NoDuplicates(a) && NoDuplicates(b)
    ensures DiffOf(a, b) == Outside(a, ToSet(b)) + Outside(b, ToSet(a))
  {
    var all := multiset(a + b);
    forall u ensures all[u] == (if u in a then 1 else 0) + (if u in b then 1 else 0) {
      CountOfDistinct(a, u);
      CountOfDistinct(b, u);
      assert all == multiset(a) + multiset(b);
    }
    OnceSplits(all, a, b);
    OnceIsOutside(all, a, ToSet(b));
    OnceIsOutside(all, b, ToSet(a));
  }

  /** The difference of any two lists has no duplicates, and holds exactly the
      elements with one occurrence in both together. */
  lemma {:induction false} DiffMembers(all: multiset<Uuid>, part: seq<Uuid>)
    ensures forall u :: u in Once(all, part) <==> u in part && all[u] == 1
    ensures multiset(part) <= all ==> NoDuplicates(Once(all, part))
    decreases |part|
  {
    if part != [] {
      var init, last := part[..|part| - 1], part[|part| - 1];
      assert part == init + [last];
      assert multiset(part) == multiset(init) + multiset{last};
      DiffMembers(all, init);
      if multiset(part) <= all && all[last] == 1 {
        assert multiset(part)[last] <= 1;
        assert multiset(init)[last] == 0;
        assert last !in init;
      }
    }
  }

  /** Removing b and then c is removing both at once. */
  lemma {:induction false} SubTwiceIsSubOfBoth(a: seq<Uuid>, b: seq<Uuid>, c: seq<Uuid>)
    ensures Outside(Outside(a, ToSet(b)), ToSet(c)) == Outside(a, ToSet(b + c))
    decreases |a|
  {
    if a != [] {
      var init, last := a[..|a| - 1], a[|a| - 1];
      SubTwiceIsSubOfBoth(init, b, c);
      assert last in ToSet(b + c) <==> last in b || last in c;
      var inner := Outside(init, ToSet(b));
      assert (inner + [last])[..|inner|] == inner;
      assert Outside(inner + [last], ToSet(c)) == Outside(inner, ToSet(c)) + if last !in c then [last] else [];
      assert inner + [] == inner;
    }
  }

  /** The optional callback of ToString. */
  type Callback = Option<Uuid -> string>

  function Shown(u: Uuid, fn: Callback): string {
    match fn
    case None => Text(u)
    case Some(f) => f(u)
  }

  /** strings.Join of what is shown of each element. */
  function Join(s: seq<Uuid>, sep: string, fn: Callback): string {
    if s == [] then ""
    else if |s| == 1 then Shown(s[0], fn)
    else Shown(s[0], fn) + (sep + Join(s[1..], sep, fn))
  }

  method ToString(s: Slice, sep: string, fn: Callback) returns (text: string)
    requires s.Valid()
    ensures text == Join(s.Contents(), sep, fn)
  {
    var res: seq<string> := [];
    for i := 0 to s.len
      invariant |res| == i && forall k :: 0 <= k < i ==> res[k] == Shown(s.Contents()[k], fn)
    {
      if fn.Some? {
        res := res + [fn.value(s.arr[s.off + i])];
      } else {
        res := res + [Text(s.arr[s.off + i])];
      }
    }
    text := "";
    for i := s.len downto 0
      invariant text == Join(s.Contents()[i..], sep, fn)
    {
      assert s.Contents()[i..][1..] == s.Contents()[i + 1..];
      text := if i + 1 == s.len then res[i] else res[i] + (sep + text);
    }
    assert s.Contents()[0..] == s.Contents();
  }

  /** The keys of a map, joined in the order of some iteration. */
  method MapToString(m: set<Uuid>, sep: string, fn: Callback) returns (text: string)
    ensures exists order :: NoDuplicates(order) && ToSet(order) == m && text == Join(order, sep, fn)
  {
    var order := ToSlice(m);
    var arr := new Uuid[|order|](i requires 0 <= i < |order| => order[i]);
    assert arr[..] == order;
    text := ToString(Slice(arr, 0, |order|, |order|), sep, fn);
  }

  /** A single element is shown by the callback, if there is one. */
  lemma JoinOfOne(u: Uuid, sep: string, fn: Callback)
    ensures fn.None? ==> Join([u], sep, fn) == Text(u)
    ensures fn.Some? ==> Join([u], sep, fn) == fn.value(u)
    ensures Join([], sep, fn) == ""
  {
  }

  /** Joining parts with the separator joins the whole, whatever the callback. */
  lemma {:induction false} JoinOfParts(a: seq<Uuid>, b: seq<Uuid>, sep: string, fn: Callback)
    requires a != [] && b != []
    ensures Join(a + b, sep, fn) == Join(a, sep, fn) + (sep + Join(b, sep, fn))
  {
    if |a| == 1 {
      assert (a + b)[1..] == b;
    } else {
      var rest := a[1..] + b;
      assert (a + b)[1..] == rest;
      JoinOfParts(a[1..], b, sep, fn);
      assert Join(a + b, sep, fn) == Shown(a[0], fn) + (sep + Join(rest, sep, fn));
      Reassociate(Shown(a[0], fn), sep, Join(a[1..], sep, fn), sep + Join(b, sep, fn));
    }
  }

  lemma Reassociate(first: string, sep: string, rest: string, last: string)
    ensures first + (sep + (rest + last)) == (first + (sep + rest)) + last
  {
  }

  /** Reads a list of canonical texts back. */
  function ReadList(text: string, sep: string): Option<seq<Uuid>>
    decreases |text|
  {
    if text == "" then Some([])
    else
      match ReadGroups(text, LAYOUT)
      case None => None
      case Some(first) =>
        if |first.bytes| != 16 then None
        else
          var u: Uuid := first.bytes;
          if first.rest == "" then Some([u])
          else if |first.rest| >= |text| || !(sep <= first.rest) || first.rest == sep then None
          else
            match ReadList(first.rest[|sep|..], sep)
            case None => None
            case Some(more) => Some([u] + more)
  }

  lemma TextIsLong(u: Uuid)
    ensures |Text(u)| > 0
  {
    LayoutHasSixteenBytes();
  }

  /** The text of a list can be read back, with any separator, even with none. */
  lemma {:induction false} ReadListInvertsJoin(s: seq<Uuid>, sep: string)
    ensures ReadList(Join(s, sep, None), sep) == Some(s)
  {
    if s != [] {
      var tail := if |s| == 1 then "" else sep + Join(s[1..], sep, None);
      assert s == [s[0]] + s[1..];
      assert Join(s, sep, None) == Text(s[0]) + tail;
      TextIsLong(s[0]);
      ReadTextInverts(s[0], tail);
      ReadListInvertsJoin(s[1..], sep);
      if |s| == 1 {
        assert s == [s[0]];
      } else {
        TextIsLong(s[1]);
        assert |tail| == |sep| + |Join(s[1..], sep, None)|;
        assert tail[|sep|..] == Join(s[1..], sep, None);
        assert Join(s[1..], sep, None) != "";
      }
    }
  }

  /** ToString without a callback, and so String: different lists have different
      texts. */
  lemma StringIsInjective(s: seq<Uuid>, t: seq<Uuid>)
    ensures forall sep :: Join(s, sep, None) == Join(t, sep, None) ==> s == t
  {
    forall sep | Join(s, sep, None) == Join(t, sep, None) ensures s == t {
      ReadListInvertsJoin(s, sep);
      ReadListInvertsJoin(t, sep);
    }
  }
}

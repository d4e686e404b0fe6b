/** The areas taken off the list while a range is unmapped, and what they still stand for. */
module VmaUnmap {
  import opened Lists
  import opened RbShape
  import opened RbSpin
  import opened RbOrder
  import opened VmaAreas
  import opened VmaLists
  import opened VmaSearch

  /** Some area taken off the list holds the address. */
  ghost predicate Held(m: Memory, free: seq<Ptr>, x: nat) {
    exists i :: 0 <= i < |free| && free[i] in m && Covers(m[free[i]].vma, x)
  }

  ghost predicate InRanges(ranges: seq<(nat, nat)>, x: nat) {
    exists i :: 0 <= i < |ranges| && ranges[i].0 <= x < ranges[i].1
  }

  /** The nodes taken off: each meets the range and sticks out on one side at most; no two are the same or overlap. */
  ghost predicate Loose(m: Memory, nil: Ptr, list: seq<Ptr>, free: seq<Ptr>, start: nat, end: nat) {
    && (forall i :: 0 <= i < |free| ==> free[i] in m && free[i] != nil && free[i] !in list && Good(m[free[i]].vma))
    && (forall i :: 0 <= i < |free| ==>
          m[free[i]].vma.start < end && start < m[free[i]].vma.end && (start <= m[free[i]].vma.start || m[free[i]].vma.end <= end))
    && (forall i, j :: 0 <= i < j < |free| ==> free[i] != free[j] && Clear(m[free[i]].vma, m[free[j]].vma))
  }

  ghost predicate Clear(u: Vma, v: Vma) {
    u.end <= v.start || v.end <= u.start
  }

  /** List and loose nodes together still say what the old map said, outside what has been given up. */
  ghost predicate Split(m: Memory, list: seq<Ptr>, free: seq<Ptr>, was: seq<Vma>, gone: iset<nat>)
    requires forall i :: 0 <= i < |list| ==> list[i] in m
    requires forall i :: 0 <= i < |free| ==> free[i] in m
  {
    && (forall i, x :: 0 <= i < |free| && Covers(m[free[i]].vma, x) ==>
          Lookup(was, x) == Some(m[free[i]].vma.flags) && Lookup(Areas(m, list), x) == None)
    && (forall x :: Lookup(Areas(m, list), x) != None ==> Lookup(Areas(m, list), x) == Lookup(was, x))
    && (forall x :: Lookup(was, x) != None && x !in gone ==> Lookup(Areas(m, list), x) != None || Held(m, free, x))
  }

  lemma SplitStart(m: Memory, nil: Ptr, list: seq<Ptr>, start: nat, end: nat)
    requires ListOk(m, nil, list)
    ensures Loose(m, nil, list, [], start, end) && Split(m, list, [], Areas(m, list), iset{})
  {}

  /** Taking off one more area. */
  lemma LoosePush(m: Memory, nil: Ptr, list: seq<Ptr>, free: seq<Ptr>, p: Ptr, start: nat, end: nat)
    requires ListOk(m, nil, list) && Loose(m, nil, list, free, start, end) && p in list && p in m
    requires m[p].vma.start < end && start < m[p].vma.end && (start <= m[p].vma.start || m[p].vma.end <= end)
    requires forall i :: 0 <= i < |free| ==> Clear(m[p].vma, m[free[i]].vma)
    ensures Loose(m, nil, Without(list, p), [p] + free, start, end)
  {
    WithoutOf(m, nil, list, p);
    NothingNew(list, p);
  }

  lemma {:induction false} NothingNew(s: seq<Ptr>, p: Ptr)
    ensures forall q :: q in Without(s, p) ==> q in s
  {
    if s != [] && s[0] != p {
      NothingNew(s[1..], p);
    }
  }

  lemma SplitPush(m: Memory, nil: Ptr, list: seq<Ptr>, free: seq<Ptr>, p: Ptr, was: seq<Vma>, start: nat, end: nat)
    requires ListOk(m, nil, list) && Loose(m, nil, list, free, start, end) && p in list && p in m
    requires Split(m, list, free, was, iset{})
    ensures ListOk(m, nil, Without(list, p)) && Split(m, Without(list, p), [p] + free, was, iset{})
    ensures forall i :: 0 <= i < |free| ==> Clear(m[p].vma, m[free[i]].vma)
  {
    WithoutOf(m, nil, list, p);
    var k, free' := IndexOf(list, p), [p] + free;
    forall x | Covers(m[p].vma, x) ensures Lookup(Areas(m, list), x) == Some(m[p].vma.flags) {
      LookupAt(Areas(m, list), k, x);
    }
    forall i | 0 <= i < |free| ensures Clear(m[p].vma, m[free[i]].vma) {
      Clash(m[p].vma, m[free[i]].vma, Areas(m, list));
    }
    forall x | Held(m, free, x) ensures Held(m, free', x) {
      var i :| 0 <= i < |free| && free[i] in m && Covers(m[free[i]].vma, x);
      assert free'[i + 1] == free[i];
    }
    forall x | Covers(m[p].vma, x) ensures Held(m, free', x) {
      assert free'[0] == p;
    }
  }

  lemma Clash(u: Vma, v: Vma, a: seq<Vma>)
    requires Good(u) && Good(v)
    requires forall x :: Covers(u, x) ==> Lookup(a, x) != None
    requires forall x :: Covers(v, x) ==> Lookup(a, x) == None
    ensures Clear(u, v)
  {
    var x := if u.start < v.start then v.start else u.start;
    if !Clear(u, v) {
      assert Covers(u, x) && Covers(v, x);
    }
  }

  /** From position `k` on, areas reach past `start` and stick out of the range on one side at most; before it they end below. */
  ghost predicate Lined(m: Memory, list: seq<Ptr>, k: nat, start: nat, end: nat) {
    && k <= |list| && (forall i :: 0 <= i < |list| ==> list[i] in m)
    && (forall i :: 0 <= i < k ==> m[list[i]].vma.end <= start)
    && (forall i :: k <= i < |list| ==>
          start < m[list[i]].vma.end && (start <= m[list[i]].vma.start || m[list[i]].vma.end <= end))
  }

  lemma LinedStart(m: Memory, nil: Ptr, list: seq<Ptr>, start: nat, end: nat)
    requires ListOk(m, nil, list)
    requires var k := Above(Areas(m, list), start); k < |list| && (start <= m[list[k]].vma.start || m[list[k]].vma.end <= end)
    ensures Lined(m, list, Above(Areas(m, list), start), start, end)
  {
    var a := Areas(m, list);
    var k := Above(a, start);
    forall i | k < i < |list| ensures start <= m[list[i]].vma.start && start < m[list[i]].vma.end {
      assert a[k].end <= a[i].start && Good(a[i]);
    }
  }

  lemma LinedPush(m: Memory, nil: Ptr, list: seq<Ptr>, k: nat, start: nat, end: nat)
    requires ListOk(m, nil, list) && Lined(m, list, k, start, end) && k < |list|
    ensures Without(list, list[k]) == list[..k] + list[k + 1..]
    ensures Lined(m, Without(list, list[k]), k, start, end)
  {
    WithoutOk(m, nil, list, k);
  }

  lemma LinedEnd(m: Memory, nil: Ptr, list: seq<Ptr>, k: nat, start: nat, end: nat)
    requires ListOk(m, nil, list) && Lined(m, list, k, start, end) && (k < |list| ==> end <= m[list[k]].vma.start)
    ensures Misses(Areas(m, list), start, end)
  {
    var a := Areas(m, list);
    forall i | 0 <= i < |a| ensures a[i].end <= start || end <= a[i].start {
      if i > k {
        assert a[k].end <= a[i].start && Good(a[k]);
      }
    }
  }

  /** The state of the second loop depends only on what the areas hold. */
  lemma LooseSame(m: Memory, m': Memory, nil: Ptr, list: seq<Ptr>, free: seq<Ptr>, was: seq<Vma>, gone: iset<nat>, start: nat, end: nat)
    requires SameData(m, m') && Present(m, nil, list) && Loose(m, nil, list, free, start, end) && Split(m, list, free, was, gone)
    ensures Present(m', nil, list) && Loose(m', nil, list, free, start, end) && Split(m', list, free, was, gone)
  {
    AreasSame(m, m', nil, list);
    assert forall x :: Held(m, free, x) ==> Held(m', free, x);
  }

  ghost function Gone(ranges: seq<(nat, nat)>): iset<nat> {
    iset x: nat | InRanges(ranges, x)
  }

  predicate Between(a: nat, x: nat, b: nat) {
    a <= x < b
  }

  ghost function Span(a: nat, b: nat): iset<nat> {
    iset x: nat | Between(a, x, b)
  }

  /** Only mapped addresses of the range have been given up. */
  ghost predicate GoneOk(ranges: seq<(nat, nat)>, was: seq<Vma>, start: nat, end: nat) {
    && (forall i :: 0 <= i < |ranges| ==> UserAccess(ranges[i].0, ranges[i].1))
    && (forall x: nat :: InRanges(ranges, x) ==> start <= x < end && Lookup(was, x) != None)
  }

  lemma GonePush(ranges: seq<(nat, nat)>, r: (nat, nat), was: seq<Vma>, start: nat, end: nat)
    requires GoneOk(ranges, was, start, end) && UserAccess(r.0, r.1) && start <= r.0 && r.1 <= end
    requires forall x: nat :: r.0 <= x < r.1 ==> Lookup(was, x) != None
    ensures GoneOk(ranges + [r], was, start, end)
    ensures forall x :: x in Gone(ranges) || r.0 <= x < r.1 ==> x in Gone(ranges + [r])
  {
    var s := ranges + [r];
    forall x: nat | InRanges(s, x) ensures start <= x < end && Lookup(was, x) != None {
      var i :| 0 <= i < |s| && s[i].0 <= x < s[i].1;
      if i < |ranges| {
        assert ranges[i] == s[i];
        assert InRanges(ranges, x);
      }
    }
    forall x: nat | InRanges(ranges, x) ensures InRanges(s, x) {
      var i :| 0 <= i < |ranges| && ranges[i].0 <= x < ranges[i].1;
      assert s[i] == ranges[i];
    }
    assert s[|ranges|] == r;
  }

  /** One loose area is done with: `keep` of it is back in the list, `cut` of it is given up. */
  lemma SplitPop(m: Memory, m': Memory, list: seq<Ptr>, list': seq<Ptr>, p: Ptr, rest: seq<Ptr>,
                 was: seq<Vma>, gone: iset<nat>, keep: iset<nat>, cut: iset<nat>)
    requires (forall i :: 0 <= i < |list| ==> list[i] in m) && (forall i :: 0 <= i < |list'| ==> list'[i] in m')
    requires p in m && (forall i :: 0 <= i < |rest| ==> rest[i] in m && rest[i] in m' && m'[rest[i]].vma == m[rest[i]].vma)
    requires (forall i :: 0 <= i < |[p] + rest| ==> ([p] + rest)[i] in m) && Split(m, list, [p] + rest, was, gone)
    requires forall i :: 0 <= i < |rest| ==> Clear(m[p].vma, m[rest[i]].vma)
    requires forall x :: x in keep || x in cut <==> Covers(m[p].vma, x)
    requires forall x :: Lookup(Areas(m', list'), x) == if x in keep then Some(m[p].vma.flags) else Lookup(Areas(m, list), x)
    ensures Split(m', list', rest, was, gone + cut)
  {
    var free := [p] + rest;
    assert free[0] == p;
    assert forall i :: 0 <= i < |rest| ==> free[i + 1] == rest[i];
    forall x | Held(m, free, x) && x !in keep && x !in cut ensures Held(m', rest, x) {
      var i :| 0 <= i < |free| && free[i] in m && Covers(m[free[i]].vma, x);
      assert i > 0 && rest[i - 1] == free[i];
    }
  }

  lemma LooseTail(m: Memory, nil: Ptr, list: seq<Ptr>, p: Ptr, rest: seq<Ptr>, start: nat, end: nat)
    requires Loose(m, nil, list, [p] + rest, start, end)
    ensures Loose(m, nil, list, rest, start, end)
    ensures p in m && p != nil && p !in list && Good(m[p].vma) && m[p].vma.start < end && start < m[p].vma.end
    ensures start <= m[p].vma.start || m[p].vma.end <= end
    ensures forall i :: 0 <= i < |rest| ==> rest[i] != p && Clear(m[p].vma, m[rest[i]].vma)
  {
    var free := [p] + rest;
    assert free[0] == p;
    forall i | 0 <= i < |rest| ensures rest[i] in m && rest[i] == free[i + 1] {
      assert free[i + 1] in m;
    }
  }

  lemma LooseMove(m: Memory, m': Memory, nil: Ptr, list: seq<Ptr>, list': seq<Ptr>, p: Ptr, rest: seq<Ptr>, start: nat, end: nat)
    requires Loose(m, nil, list, rest, start, end) && (forall i :: 0 <= i < |rest| ==> rest[i] != p)
    requires forall i :: 0 <= i < |rest| ==> rest[i] in m' && m'[rest[i]].vma == m[rest[i]].vma
    requires forall q :: q in list' ==> q in list || q == p
    ensures Loose(m', nil, list', rest, start, end)
  {}

  lemma AllDone(m: Memory, nil: Ptr, list: seq<Ptr>, was: seq<Vma>, ranges: seq<(nat, nat)>, start: nat, end: nat)
    requires ListOk(m, nil, list) && Split(m, list, [], was, Gone(ranges)) && GoneOk(ranges, was, start, end)
    requires start < end && Misses(Areas(m, list), start, end)
    ensures forall x: nat :: Lookup(Areas(m, list), x) == if start <= x < end then None else Lookup(was, x)
    ensures forall x: nat :: InRanges(ranges, x) <==> start <= x < end && Lookup(was, x) != None
  {
    FreeIsMisses(Areas(m, list), start, end);
    assert forall x :: !Held(m, [], x);
  }

  lemma PlacedMembers(m: Memory, s: seq<Ptr>, p: Ptr)
    requires p in m
    ensures p in Placed(m, s, p) && forall q :: q in Placed(m, s, p) ==> q in s || q == p
  {
    var r := Rank(m, s, m[p].vma.start);
    assert Placed(m, s, p)[r] == p;
  }

  lemma FirstHeld(m: Memory, list: seq<Ptr>, p: Ptr, rest: seq<Ptr>, was: seq<Vma>, gone: iset<nat>)
    requires forall i :: 0 <= i < |list| ==> list[i] in m
    requires (forall i :: 0 <= i < |[p] + rest| ==> ([p] + rest)[i] in m) && Split(m, list, [p] + rest, was, gone)
    ensures p in m && forall x :: Covers(m[p].vma, x) ==> Lookup(was, x) == Some(m[p].vma.flags) && Lookup(Areas(m, list), x) == None
  {
    assert ([p] + rest)[0] == p;
  }

  lemma MoreGone(m: Memory, list: seq<Ptr>, free: seq<Ptr>, was: seq<Vma>, gone: iset<nat>, gone': iset<nat>)
    requires (forall i :: 0 <= i < |list| ==> list[i] in m) && (forall i :: 0 <= i < |free| ==> free[i] in m)
    requires Split(m, list, free, was, gone) && gone <= gone'
    ensures Split(m, list, free, was, gone')
  {}

  /** The range lies strictly inside one area. */
  ghost predicate Inside(a: seq<Vma>, start: nat, end: nat) {
    exists i :: 0 <= i < |a| && a[i].start < start && end < a[i].end
  }

  lemma InsideIs(a: seq<Vma>, start: nat, end: nat)
    requires Disjoint(a) && start < end
    ensures var k := Above(a, start); Inside(a, start, end) <==> k < |a| && a[k].start < start && end < a[k].end
  {
    if Inside(a, start, end) {
      var i :| 0 <= i < |a| && a[i].start < start && end < a[i].end;
      if i > 0 {
        assert a[i - 1].end <= a[i].start;
      }
      AboveIs(a, start, i);
    }
  }

  lemma AllInside(a: seq<Vma>, k: nat, start: nat, end: nat)
    requires Disjoint(a) && k < |a| && a[k].start < start && end < a[k].end
    ensures forall x: nat :: start <= x < end ==> Lookup(a, x) != None
  {
    forall x: nat | start <= x < end ensures Lookup(a, x) != None {
      LookupAt(a, k, x);
    }
  }

  lemma AllCovered(a: seq<Vma>, k: nat)
    requires Disjoint(a) && k < |a|
    ensures forall x :: Covers(a[k], x) ==> Lookup(a, x) == Some(a[k].flags)
  {
    forall x | Covers(a[k], x) ensures Lookup(a, x) == Some(a[k].flags) {
      LookupAt(a, k, x);
    }
  }

  lemma OneRange(start: nat, end: nat)
    ensures forall x: nat :: InRanges([(start, end)], x) <==> start <= x < end
  {
    assert [(start, end)][0] == (start, end);
  }

  lemma ShrinkOk(a: seq<Vma>, k: nat, start: nat)
    requires Disjoint(a) && k < |a| && a[k].start <= start < a[k].end && start % PAGE_SIZE == 0
    ensures Disjoint(a[k := a[k].(start := start)])
  {}

  lemma GrowOk(a: seq<Vma>, k: nat, end: nat)
    requires Disjoint(a) && k < |a| && Misses(a, a[k].end, end) && a[k].end < end <= USER_TOP && end % PAGE_SIZE == 0
    ensures Disjoint(a[k := a[k].(end := end)])
  {
    forall j | k < j < |a| ensures end <= a[j].start {
      assert Good(a[j]) && a[k].end <= a[j].start;
    }
  }

  /** With `start` unmapped, the area that ends there is the one the address below it belongs to. */
  lemma Neighbour(a: seq<Vma>, start: nat)
    requires Disjoint(a) && start > 0 && Lookup(a, start) == None
    ensures var k := Above(a, start - 1);
      forall f :: Lookup(a, start - 1) == Some(f) <==> k < |a| && a[k].end == start && a[k].flags == f
  {
    var k := Above(a, start - 1);
    if k < |a| {
      assert Good(a[k]);
      if a[k].end == start {
        LookupAt(a, k, start - 1);
      } else if Covers(a[k], start) {
        LookupAt(a, k, start);
      }
    }
    if Lookup(a, start - 1) != None {
      var i := LookupSome(a, start - 1);
      if i > 0 {
        assert a[i - 1].end <= a[i].start;
      }
      AboveIs(a, start - 1, i);
    }
  }
}

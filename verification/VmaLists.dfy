/** A list of area nodes in memory and the ranges it stands for; the lemmas behind each list operation. */
module VmaLists {
  import opened Lists
  import opened RbShape
  import opened RbSpin
  import opened RbOrder
  import opened VmaAreas

  ghost predicate Present(m: Memory, nil: Ptr, s: seq<Ptr>) {
    forall i :: 0 <= i < |s| ==> s[i] in m && s[i] != nil
  }

  ghost function Areas(m: Memory, s: seq<Ptr>): (a: seq<Vma>)
    requires forall i :: 0 <= i < |s| ==> s[i] in m
    ensures |a| == |s| && forall i :: 0 <= i < |s| ==> a[i] == m[s[i]].vma
  {
    seq(|s|, i requires 0 <= i < |s| => m[s[i]].vma)
  }

  /** The mmap list: area nodes, sorted and disjoint. */
  ghost predicate ListOk(m: Memory, nil: Ptr, s: seq<Ptr>) {
    Present(m, nil, s) && Disjoint(Areas(m, s))
  }

  lemma AreasSame(m: Memory, m': Memory, nil: Ptr, s: seq<Ptr>)
    requires Present(m, nil, s) && SameData(m, m')
    ensures Present(m', nil, s) && Areas(m', s) == Areas(m, s)
  {}

  lemma AreasConcat(m: Memory, nil: Ptr, s: seq<Ptr>, t: seq<Ptr>)
    requires Present(m, nil, s + t)
    ensures Present(m, nil, s) && Present(m, nil, t) && Areas(m, s + t) == Areas(m, s) + Areas(m, t)
  {
    assert forall i :: 0 <= i < |s| ==> (s + t)[i] == s[i];
    assert forall i :: 0 <= i < |t| ==> (s + t)[|s| + i] == t[i];
  }

  lemma AreasThree(m: Memory, nil: Ptr, s: seq<Ptr>, p: Ptr, t: seq<Ptr>)
    requires Present(m, nil, s + [p] + t)
    ensures Present(m, nil, s) && Present(m, nil, t) && p in m && p != nil
    ensures Areas(m, s + [p] + t) == Areas(m, s) + [m[p].vma] + Areas(m, t)
    ensures Present(m, nil, s + t) && Areas(m, s + t) == Areas(m, s) + Areas(m, t)
  {
    AreasConcat(m, nil, s + [p], t);
    AreasConcat(m, nil, s, [p]);
    assert [p][0] == p;
    assert Areas(m, [p]) == [m[p].vma];
    assert Present(m, nil, s + t);
    AreasConcat(m, nil, s, t);
  }

  lemma ListSorted(m: Memory, nil: Ptr, s: seq<Ptr>)
    requires ListOk(m, nil, s)
    ensures Sorted(m, s)
  {
    var a := Areas(m, s);
    forall i, j | 0 <= i < j < |s| ensures m[s[i]].vma.start <= m[s[j]].vma.start {
      assert a[i].end <= a[j].start && Good(a[i]);
    }
  }

  lemma ListDistinct(m: Memory, nil: Ptr, s: seq<Ptr>, i: nat, j: nat)
    requires ListOk(m, nil, s) && i < |s| && j < |s| && s[i] == s[j]
    ensures i == j
  {
    var a := Areas(m, s);
    assert Good(a[i]) && Good(a[j]);
  }

  // ---- insertion

  /** Where a new area that meets no other one goes: the ranges stay sorted and disjoint. */
  lemma PlacedOk(m: Memory, nil: Ptr, s: seq<Ptr>, p: Ptr)
    requires ListOk(m, nil, s) && p in m && p != nil && Good(m[p].vma) && Misses(Areas(m, s), m[p].vma.start, m[p].vma.end)
    ensures ListOk(m, nil, Placed(m, s, p))
    ensures forall x :: Lookup(Areas(m, Placed(m, s, p)), x) ==
                        if Covers(m[p].vma, x) then Some(m[p].vma.flags) else Lookup(Areas(m, s), x)
  {
    var v := m[p].vma;
    var a, b := PlacedSplit(m, nil, s, p);
    AreasThree(m, nil, a, p, b);
    DisjointJoin(Areas(m, a), v, Areas(m, b));
    forall x ensures Lookup(Areas(m, Placed(m, s, p)), x) == if Covers(v, x) then Some(v.flags) else Lookup(Areas(m, s), x) {
      LookupInsert(Areas(m, a), v, Areas(m, b), x);
    }
  }

  lemma PlacedSplit(m: Memory, nil: Ptr, s: seq<Ptr>, p: Ptr) returns (a: seq<Ptr>, b: seq<Ptr>)
    requires ListOk(m, nil, s) && p in m && p != nil && Good(m[p].vma) && Misses(Areas(m, s), m[p].vma.start, m[p].vma.end)
    ensures s == a + b && Placed(m, s, p) == a + [p] + b && Present(m, nil, a + [p] + b) && Present(m, nil, a) && Present(m, nil, b)
    ensures forall i :: 0 <= i < |a| ==> Areas(m, a)[i].end <= m[p].vma.start
    ensures forall i :: 0 <= i < |b| ==> m[p].vma.end <= Areas(m, b)[i].start
  {
    var v := m[p].vma;
    var r := Rank(m, s, v.start);
    ListSorted(m, nil, s);
    RankBounds(m, s, v.start);
    a, b := s[..r], s[r..];
    assert s == a + b;
    AreasConcat(m, nil, a, b);
    Sides(Areas(m, a), Areas(m, b), v);
  }

  lemma Sides(a: seq<Vma>, b: seq<Vma>, v: Vma)
    requires Disjoint(a + b) && Good(v) && Misses(a + b, v.start, v.end)
    requires forall i :: 0 <= i < |a| ==> a[i].start <= v.start
    requires forall i :: 0 <= i < |b| ==> v.start < b[i].start
    ensures forall i :: 0 <= i < |a| ==> a[i].end <= v.start
    ensures forall i :: 0 <= i < |b| ==> v.end <= b[i].start
  {
    forall i | 0 <= i < |a| ensures a[i].end <= v.start {
      assert (a + b)[i] == a[i] && Good((a + b)[i]);
    }
    forall i | 0 <= i < |b| ensures v.end <= b[i].start {
      assert (a + b)[|a| + i] == b[i] && Good((a + b)[|a| + i]);
    }
  }

  /** Building a tree from the list: the next node of the list always belongs at the end. */
  lemma PlacedLast(m: Memory, nil: Ptr, s: seq<Ptr>, i: nat)
    requires ListOk(m, nil, s) && i < |s|
    ensures Placed(m, s[..i], s[i]) == s[..i + 1]
  {
    ListSorted(m, nil, s);
    RankSplit(m, s[..i], [], m[s[i]].vma.start);
    assert s[..i] + [] == s[..i];
  }

  // ---- removal

  lemma WithoutOk(m: Memory, nil: Ptr, s: seq<Ptr>, i: nat)
    requires ListOk(m, nil, s) && i < |s|
    ensures Without(s, s[i]) == s[..i] + s[i + 1..] && ListOk(m, nil, Without(s, s[i]))
    ensures Good(m[s[i]].vma) && Misses(Areas(m, Without(s, s[i])), m[s[i]].vma.start, m[s[i]].vma.end)
    ensures forall x :: Lookup(Areas(m, Without(s, s[i])), x) == if Covers(m[s[i]].vma, x) then None else Lookup(Areas(m, s), x)
  {
    var a, p, b := s[..i], s[i], s[i + 1..];
    assert s == a + [p] + b;
    forall j | 0 <= j < |a| ensures a[j] != p {
      if a[j] == p {
        ListDistinct(m, nil, s, i, j);
      }
    }
    WithoutMid(a, p, b);
    AreasThree(m, nil, a, p, b);
    DisjointParts(Areas(m, a), m[p].vma, Areas(m, b));
    WithoutLookup(m, nil, s, a, p, b);
  }

  lemma WithoutLookup(m: Memory, nil: Ptr, s: seq<Ptr>, a: seq<Ptr>, p: Ptr, b: seq<Ptr>)
    requires ListOk(m, nil, s) && s == a + [p] + b && Present(m, nil, a + b) && p in m
    ensures Misses(Areas(m, a + b), m[p].vma.start, m[p].vma.end)
    ensures forall x :: Lookup(Areas(m, a + b), x) == if Covers(m[p].vma, x) then None else Lookup(Areas(m, s), x)
  {
    AreasThree(m, nil, a, p, b);
    forall x ensures Lookup(Areas(m, a + b), x) == if Covers(m[p].vma, x) then None else Lookup(Areas(m, s), x) {
      LookupRemove(Areas(m, a), m[p].vma, Areas(m, b), x);
    }
    LookupRemove(Areas(m, a), m[p].vma, Areas(m, b), 0);
  }
}

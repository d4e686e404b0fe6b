/** Searching a sorted list of areas, and a tree that holds the same list, for the first one that ends above an address. */
module VmaSearch {
  import opened Lists
  import opened RbShape
  import opened RbSpin
  import opened RbSteps
  import opened RbOrder
  import opened VmaAreas
  import opened VmaLists

  function Pick(s: seq<Ptr>, k: nat): Option<Ptr> {
    if k < |s| then Some(s[k]) else None
  }

  ghost predicate Below(m: Memory, s: seq<Ptr>, addr: nat) {
    forall i :: 0 <= i < |s| ==> s[i] in m && m[s[i]].vma.end <= addr
  }

  /** A search has excluded what stands before the focus; what stands after it begins with the best find so far. */
  ghost predicate Seeking(m: Memory, root: Ptr, nil: Ptr, s: seq<Ptr>, c: Ctx, t: Shape, addr: nat) {
    && At(m, root, nil, c, t) && Line(c, t) == s && Below(m, Before(c), addr)
    && (After(c) != [] ==> After(c)[0] in m && addr < m[After(c)[0]].vma.end)
  }

  lemma SeekStart(m: Memory, root: Ptr, nil: Ptr, s: seq<Ptr>, t: Shape, addr: nat)
    requires At(m, root, nil, Top, t) && Inorder(t) == s
    ensures Seeking(m, root, nil, s, Top, t, addr)
  {}

  lemma SeekLeft(m: Memory, root: Ptr, nil: Ptr, s: seq<Ptr>, c: Ctx, t: Shape, addr: nat)
    requires Seeking(m, root, nil, s, c, t, addr) && t.Bin? && t.n in m && addr < m[t.n].vma.end
    ensures Seeking(m, root, nil, s, InL(t.n, t.red, t.r, c), t.l, addr)
    ensures Pick(After(InL(t.n, t.red, t.r, c)), 0) == Some(t.n)
  {
    Rise(m, root, nil, true, t.n, t.red, t.r, c, t.l);
  }

  lemma SeekRight(m: Memory, root: Ptr, nil: Ptr, s: seq<Ptr>, c: Ctx, t: Shape, addr: nat)
    requires Seeking(m, root, nil, s, c, t, addr) && ListOk(m, nil, s) && t.Bin? && t.n in m && m[t.n].vma.end <= addr
    ensures Seeking(m, root, nil, s, InR(t.l, t.n, t.red, c), t.r, addr)
  {
    Rise(m, root, nil, false, t.n, t.red, t.l, c, t.r);
    assert s == Before(c) + Inorder(t.l) + [t.n] + (Inorder(t.r) + After(c));
    LowerSide(m, nil, s, Before(c), Inorder(t.l), t.n, Inorder(t.r) + After(c), addr);
  }

  lemma SeekEnd(m: Memory, root: Ptr, nil: Ptr, s: seq<Ptr>, c: Ctx, t: Shape, addr: nat)
    requires Seeking(m, root, nil, s, c, t, addr) && ListOk(m, nil, s) && t.Leaf?
    ensures Pick(s, Above(Areas(m, s), addr)) == Pick(After(c), 0)
  {
    SeekSplit(m, nil, s, Before(c), After(c), addr);
  }

  lemma SeekSplit(m: Memory, nil: Ptr, s: seq<Ptr>, a: seq<Ptr>, b: seq<Ptr>, addr: nat)
    requires ListOk(m, nil, s) && s == a + b && Below(m, a, addr) && (b != [] ==> b[0] in m && addr < m[b[0]].vma.end)
    ensures Pick(s, Above(Areas(m, s), addr)) == Pick(b, 0)
  {
    var v := Areas(m, s);
    assert |a| > 0 ==> s[|a| - 1] == a[|a| - 1];
    if b != [] {
      assert s[|a|] == b[0];
      AboveIs(v, addr, |a|);
    } else {
      AboveNone(v, addr);
    }
  }

  /** An area that contains the address is the lowest one to end above it. */
  lemma Hit(m: Memory, root: Ptr, nil: Ptr, s: seq<Ptr>, c: Ctx, t: Shape, addr: nat)
    requires Seeking(m, root, nil, s, c, t, addr) && ListOk(m, nil, s) && t.Bin? && t.n in m && Covers(m[t.n].vma, addr)
    ensures Pick(s, Above(Areas(m, s), addr)) == Some(t.n)
  {
    var i := |Before(c)| + |Inorder(t.l)|;
    assert s[i] == t.n;
    HitAt(m, nil, s, i, addr);
  }

  lemma HitAt(m: Memory, nil: Ptr, s: seq<Ptr>, i: nat, addr: nat)
    requires ListOk(m, nil, s) && i < |s| && Covers(m[s[i]].vma, addr)
    ensures Above(Areas(m, s), addr) == i
  {
    var v := Areas(m, s);
    if i > 0 {
      assert v[i - 1].end <= v[i].start;
    }
    AboveIs(v, addr, i);
  }

  lemma LowerSide(m: Memory, nil: Ptr, s: seq<Ptr>, a: seq<Ptr>, l: seq<Ptr>, p: Ptr, b: seq<Ptr>, addr: nat)
    requires ListOk(m, nil, s) && s == a + l + [p] + b && Below(m, a, addr) && p in m && m[p].vma.end <= addr
    ensures Below(m, a + l + [p], addr)
  {
    var v := Areas(m, s);
    assert s[|a| + |l|] == p;
    forall i | 0 <= i < |l| ensures l[i] in m && m[l[i]].vma.end <= addr {
      assert s[|a| + i] == l[i] && v[|a| + i].end <= v[|a| + |l|].start && Good(v[|a| + |l|]);
    }
  }

  lemma ListHit(m: Memory, nil: Ptr, s: seq<Ptr>, i: nat, addr: nat)
    requires ListOk(m, nil, s) && i < |s| && Below(m, s[..i], addr) && addr < m[s[i]].vma.end
    ensures Above(Areas(m, s), addr) == i
  {
    assert i > 0 ==> s[..i][i - 1] == s[i - 1];
    AboveIs(Areas(m, s), addr, i);
  }

  lemma ListMiss(m: Memory, nil: Ptr, s: seq<Ptr>, addr: nat)
    requires ListOk(m, nil, s) && Below(m, s, addr)
    ensures Above(Areas(m, s), addr) == |s|
  {
    AboveNone(Areas(m, s), addr);
  }

  lemma InList(s: seq<Ptr>, p: Ptr) returns (i: nat)
    requires p in s
    ensures i < |s| && s[i] == p
  {
    i :| 0 <= i < |s| && s[i] == p;
  }

  /** The place of a node in a list without repetitions. */
  function IndexOf(s: seq<Ptr>, p: Ptr): (i: nat)
    requires p in s
    ensures i < |s| && s[i] == p
  {
    if s[0] == p then 0 else 1 + IndexOf(s[1..], p)
  }

  /** Scanning up to the first area that starts later finds the rank. */
  lemma RankFrom(m: Memory, nil: Ptr, s: seq<Ptr>, k: nat, start: nat)
    requires ListOk(m, nil, s) && k <= |s| && UpTo(m, s[..k], start) && (k < |s| ==> start < m[s[k]].vma.start)
    ensures Rank(m, s, start) == k
  {
    ListSorted(m, nil, s);
    assert s == s[..k] + s[k..];
    RankSplit(m, s[..k], s[k..], start);
  }

  lemma NotYet(m: Memory, nil: Ptr, s: seq<Ptr>, i: nat, t: Shape)
    requires ListOk(m, nil, s) && i < |s| && Inorder(t) == s[..i]
    ensures s[i] !in Nodes(t)
  {
    InorderNodes(t);
    if s[i] in Nodes(t) {
      var j := InList(s[..i], s[i]);
      ListDistinct(m, nil, s, i, j);
    }
  }

  lemma {:induction false} StillThere(s: seq<Ptr>, p: Ptr, q: Option<Ptr>)
    requires q.Some? ==> q.value in s && q.value != p
    ensures q.Some? ==> q.value in Without(s, p)
  {
    if q.Some? && s[0] != p && s[0] != q.value {
      StillThere(s[1..], p, q);
    }
  }

  /** Writing to nodes of no area changes neither the list nor the tree. */
  lemma ElsewhereKeeps(m: Memory, m': Memory, root: Ptr, nil: Ptr, t: Shape, s: seq<Ptr>)
    requires At(m, root, nil, Top, t) && ListOk(m, nil, s) && Sorted(m, Inorder(t))
    requires nil in m' && m'[nil] == m[nil]
    requires forall p :: p in m && (p in s || p in Nodes(t)) ==> p in m' && m'[p] == m[p]
    ensures At(m', root, nil, Top, t) && ListOk(m', nil, s) && Areas(m', s) == Areas(m, s) && Sorted(m', Inorder(t))
  {
    LinkedFrame(m, m', nil, t, nil);
    InorderNodes(t);
    assert forall i :: 0 <= i < |s| ==> s[i] in s;
    assert Areas(m', s) == Areas(m, s);
  }

  lemma WithoutOf(m: Memory, nil: Ptr, s: seq<Ptr>, p: Ptr)
    requires ListOk(m, nil, s) && p in s
    ensures |Without(s, p)| == |s| - 1 && ListOk(m, nil, Without(s, p)) && p !in Without(s, p)
    ensures p in m && Good(m[p].vma) && Misses(Areas(m, Without(s, p)), m[p].vma.start, m[p].vma.end)
    ensures forall x :: Lookup(Areas(m, Without(s, p)), x) == if Covers(m[p].vma, x) then None else Lookup(Areas(m, s), x)
  {
    WithoutOk(m, nil, s, IndexOf(s, p));
    var r := Without(s, p);
    forall i | 0 <= i < |r| ensures r[i] != p {
      assert Areas(m, r)[i] == m[r[i]].vma;
    }
  }

  lemma ReshapeKeeps(m: Memory, root: Ptr, nil: Ptr, t: Shape, s: seq<Ptr>, p: Ptr, v: Vma)
    requires At(m, root, nil, Top, t) && ListOk(m, nil, s) && p in s && p in m
    requires Good(v) && Disjoint(Areas(m, s)[IndexOf(s, p) := v])
    ensures var m' := m[p := m[p].(vma := v)];
      && At(m', root, nil, Top, t) && ListOk(m', nil, s)
      && forall x :: Lookup(Areas(m', s), x) ==
                     if Covers(v, x) then Some(v.flags) else if Covers(m[p].vma, x) then None else Lookup(Areas(m, s), x)
  {
    var m' := m[p := m[p].(vma := v)];
    LinkedFrame(m, m', nil, t, nil);
    var i := IndexOf(s, p);
    forall j | 0 <= j < |s| && j != i ensures s[j] != p {
      if s[j] == p {
        ListDistinct(m, nil, s, i, j);
      }
    }
    assert Areas(m', s) == Areas(m, s)[i := v];
    forall x ensures Lookup(Areas(m', s), x) ==
                     if Covers(v, x) then Some(v.flags) else if Covers(m[p].vma, x) then None else Lookup(Areas(m, s), x)
    {
      LookupReplace(Areas(m, s), i, v, x);
    }
  }

  lemma GoodArea(m: Memory, nil: Ptr, s: seq<Ptr>, p: Ptr)
    requires ListOk(m, nil, s) && p in s
    ensures p in m && p != nil && Good(m[p].vma) && Areas(m, s)[IndexOf(s, p)] == m[p].vma
  {
    assert Good(Areas(m, s)[IndexOf(s, p)]);
  }
}

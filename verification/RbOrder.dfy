/** What insertion and deletion do to the order of the nodes, and the lemmas that carry a focus through them. */
module RbOrder {
  import opened Lists
  import opened RbShape
  import opened RbSpin
  import opened RbSteps
  import opened RbFall
  import opened RbGraft

  ghost predicate Sorted(m: Memory, s: seq<Ptr>) {
    && (forall i :: 0 <= i < |s| ==> s[i] in m)
    && (forall i, j :: 0 <= i < j < |s| ==> m[s[i]].vma.start <= m[s[j]].vma.start)
  }

  ghost function Depth(c: Ctx): nat {
    if c.Top? then 0 else 1 + Depth(c.up)
  }

  /** A red node at the top is painted black. */
  lemma RootBlack(m: Memory, root: Ptr, nil: Ptr, t: Shape, h: nat)
    requires Rising(m, root, nil, Top, t, h)
    ensures t.n in m
    ensures var m', t' := Painted(m, t.n, false), t.(red := false);
      At(m', root, nil, Top, t') && RedBlack(t') && Inorder(t') == Line(Top, t) && SameData(m, m')
  {
    PaintTop(m, root, nil, Top, t, false);
    assert Ok(t.(red := false), h + 1);
  }

  /** When the colours fit at the focus, the whole is a red-black tree. */
  lemma Settled(m: Memory, root: Ptr, nil: Ptr, c: Ctx, t: Shape, h: nat)
    requires Mended(m, root, nil, c, t, h)
    ensures At(m, root, nil, Top, Plug(c, t)) && RedBlack(Plug(c, t)) && Inorder(Plug(c, t)) == Line(c, t)
  {
    PlugOk(c, t, h);
    PlugInorder(c, t);
    AppendTop(c);
    AppendAt(m, root, nil, c, Top, t);
  }

  lemma {:induction false} AppendTop(c: Ctx)
    ensures Append(c, Top) == c
  {
    if !c.Top? {
      AppendTop(c.up);
    }
  }

  // ---- where a new node belongs

  ghost predicate UpTo(m: Memory, s: seq<Ptr>, k: nat) {
    forall i :: 0 <= i < |s| ==> s[i] in m && m[s[i]].vma.start <= k
  }

  ghost predicate Beyond(m: Memory, s: seq<Ptr>, k: nat) {
    forall i :: 0 <= i < |s| ==> s[i] in m && k < m[s[i]].vma.start
  }

  /** How many nodes at the front start at `k` or below. */
  ghost function Rank(m: Memory, s: seq<Ptr>, k: nat): (r: nat)
    ensures r <= |s|
  {
    if s == [] || s[0] !in m || k < m[s[0]].vma.start then 0 else 1 + Rank(m, s[1..], k)
  }

  /** `z` after the last node that starts no later. */
  ghost function Placed(m: Memory, s: seq<Ptr>, z: Ptr): seq<Ptr>
    requires z in m
  {
    var r := Rank(m, s, m[z].vma.start);
    s[..r] + [z] + s[r..]
  }

  lemma {:induction false} RankSplit(m: Memory, a: seq<Ptr>, b: seq<Ptr>, k: nat)
    requires UpTo(m, a, k) && Beyond(m, b, k)
    ensures Rank(m, a + b, k) == |a|
  {
    if a != [] {
      assert (a + b)[1..] == a[1..] + b;
      RankSplit(m, a[1..], b, k);
    }
  }

  lemma {:induction false} RankAt(m: Memory, s: seq<Ptr>, k: nat, i: nat)
    requires Sorted(m, s) && i < |s|
    ensures i < Rank(m, s, k) <==> m[s[i]].vma.start <= k
  {
    if m[s[0]].vma.start <= k && i > 0 {
      SortedTail(m, s);
      RankAt(m, s[1..], k, i - 1);
      assert s[1..][i - 1] == s[i];
    } else {
      assert m[s[0]].vma.start <= m[s[i]].vma.start;
    }
  }

  lemma SortedTail(m: Memory, s: seq<Ptr>)
    requires Sorted(m, s) && s != []
    ensures Sorted(m, s[1..])
  {}

  lemma RankBounds(m: Memory, s: seq<Ptr>, k: nat)
    requires Sorted(m, s)
    ensures var r := Rank(m, s, k); UpTo(m, s[..r], k) && Beyond(m, s[r..], k)
  {
    forall i | 0 <= i < |s| ensures i < Rank(m, s, k) <==> m[s[i]].vma.start <= k {
      RankAt(m, s, k, i);
    }
  }

  lemma PlacedSorted(m: Memory, s: seq<Ptr>, z: Ptr)
    requires Sorted(m, s) && z in m
    ensures Sorted(m, Placed(m, s, z))
  {
    RankBounds(m, s, m[z].vma.start);
  }

  lemma GoLeft(m: Memory, root: Ptr, nil: Ptr, c: Ctx, t: Shape, h: nat, k: nat)
    requires At(m, root, nil, c, t) && Fits(c, t, h) && t.Bin? && t.n in m && k < m[t.n].vma.start
    requires Sorted(m, Line(c, t)) && UpTo(m, Before(c), k) && Beyond(m, After(c), k)
    ensures t.red || h > 0
    ensures At(m, root, nil, InL(t.n, t.red, t.r, c), t.l) && Fits(InL(t.n, t.red, t.r, c), t.l, if t.red then h else h - 1)
    ensures Line(InL(t.n, t.red, t.r, c), t.l) == Line(c, t)
    ensures UpTo(m, Before(InL(t.n, t.red, t.r, c)), k) && Beyond(m, After(InL(t.n, t.red, t.r, c)), k)
  {
    Rise(m, root, nil, true, t.n, t.red, t.r, c, t.l);
    FitsBelow(true, t.l, t.n, t.red, t.r, c, h);
    assert Line(c, t) == Before(c) + Inorder(t.l) + [t.n] + Inorder(t.r) + After(c);
    SortedBeyond(m, Before(c) + Inorder(t.l), t.n, Inorder(t.r), After(c), k);
  }

  lemma GoRight(m: Memory, root: Ptr, nil: Ptr, c: Ctx, t: Shape, h: nat, k: nat)
    requires At(m, root, nil, c, t) && Fits(c, t, h) && t.Bin? && t.n in m && m[t.n].vma.start <= k
    requires Sorted(m, Line(c, t)) && UpTo(m, Before(c), k) && Beyond(m, After(c), k)
    ensures t.red || h > 0
    ensures At(m, root, nil, InR(t.l, t.n, t.red, c), t.r) && Fits(InR(t.l, t.n, t.red, c), t.r, if t.red then h else h - 1)
    ensures Line(InR(t.l, t.n, t.red, c), t.r) == Line(c, t)
    ensures UpTo(m, Before(InR(t.l, t.n, t.red, c)), k) && Beyond(m, After(InR(t.l, t.n, t.red, c)), k)
  {
    Rise(m, root, nil, false, t.n, t.red, t.l, c, t.r);
    FitsBelow(false, t.r, t.n, t.red, t.l, c, h);
    assert Line(c, t) == Before(c) + Inorder(t.l) + [t.n] + (Inorder(t.r) + After(c));
    SortedUpTo(m, Before(c), Inorder(t.l), t.n, Inorder(t.r) + After(c), k);
  }

  lemma SortedBeyond(m: Memory, a: seq<Ptr>, n: Ptr, b: seq<Ptr>, d: seq<Ptr>, k: nat)
    requires Sorted(m, a + [n] + b + d) && n in m && k < m[n].vma.start && Beyond(m, d, k)
    ensures Beyond(m, [n] + b + d, k)
  {
    var s := a + [n] + b + d;
    forall i | 0 <= i < |b| ensures b[i] in m && k < m[b[i]].vma.start {
      assert s[|a|] == n && s[|a| + 1 + i] == b[i];
    }
  }

  lemma SortedUpTo(m: Memory, a: seq<Ptr>, b: seq<Ptr>, n: Ptr, d: seq<Ptr>, k: nat)
    requires Sorted(m, a + b + [n] + d) && n in m && m[n].vma.start <= k && UpTo(m, a, k)
    ensures UpTo(m, a + b + [n], k)
  {
    var s := a + b + [n] + d;
    forall i | 0 <= i < |b| ensures b[i] in m && m[b[i]].vma.start <= k {
      assert s[|a| + |b|] == n && s[|a| + i] == b[i];
    }
  }

  /** Hanging `z` into the hole puts it at its rank. */
  lemma NewLine(m: Memory, c: Ctx, s: seq<Ptr>, z: Ptr)
    requires Line(c, Leaf) == s && z in m
    requires UpTo(m, Before(c), m[z].vma.start) && Beyond(m, After(c), m[z].vma.start)
    ensures Line(c, Bin(Leaf, z, true, Leaf)) == Placed(m, s, z)
  {
    assert s == Before(c) + After(c);
    RankSplit(m, Before(c), After(c), m[z].vma.start);
  }

  /** The hole is on the side of its parent that the comparison asks for. */
  lemma RightSide(m: Memory, c: Ctx, k: nat)
    requires UpTo(m, Before(c), k) && Beyond(m, After(c), k) && !c.Top?
    ensures c.n in m && (c.InL? <==> k < m[c.n].vma.start)
  {
    if c.InL? {
      assert After(c)[0] == c.n;
    } else {
      assert Before(c)[|Before(c)| - 1] == c.n;
    }
  }

  lemma NewNode(c: Ctx, t: Shape, z: Ptr)
    requires Line(c, Leaf) == Inorder(t) && z !in Nodes(t)
    ensures z !in CNodes(c)
  {
    CtxNodes(c);
    InorderNodes(t);
    assert Line(c, Leaf) == Before(c) + After(c);
  }

  lemma {:induction false} InorderNodes(t: Shape)
    ensures forall p :: p in Inorder(t) <==> p in Nodes(t)
  {
    if t.Bin? {
      InorderNodes(t.l);
      InorderNodes(t.r);
    }
  }

  lemma {:induction false} CtxNodes(c: Ctx)
    ensures forall p :: p in Before(c) + After(c) <==> p in CNodes(c)
  {
    if !c.Top? {
      CtxNodes(c.up);
      InorderNodes(Sib(c));
    }
  }

  /** How many more rounds the deletion repair can take: a red parent ends it in this one. */
  ghost function Rest(c: Ctx): nat {
    if CRed(c) then 0 else Depth(c) + 1
  }

  lemma NephewsSeen(m: Memory, root: Ptr, nil: Ptr, c: Ctx, t: Shape)
    requires At(m, root, nil, c, t) && !c.Top? && Sib(c).Bin?
    ensures var s := Sib(c);
      && s.n in m && m[s.n].left == Root(s.l, nil) && m[s.n].right == Root(s.r, nil)
      && Root(s.l, nil) in m && m[Root(s.l, nil)].red == IsRed(s.l)
      && Root(s.r, nil) in m && m[Root(s.r, nil)].red == IsRed(s.r)
  {
    var s := Sib(c);
    assert Linked(m, nil, s, c.n);
    assert Linked(m, nil, s.l, s.n) && Linked(m, nil, s.r, s.n);
  }

  /** In a tree every node has one place in the order. */
  lemma Position(m: Memory, root: Ptr, nil: Ptr, whole: Shape, c: Ctx, t: Shape)
    requires At(m, root, nil, Top, whole) && At(m, root, nil, c, t) && t.Bin? && Line(c, t) == Inorder(whole)
    ensures var s, i := Inorder(whole), |Before(c)| + |Inorder(t.l)|;
      i < |s| && s[i] == t.n && forall j :: 0 <= j < |s| && s[j] == t.n ==> j == i
  {
    var s, i := Inorder(whole), |Before(c)| + |Inorder(t.l)|;
    assert Line(c, t)[i] == t.n;
    forall j | 0 <= j < |s| && s[j] == t.n ensures j == i {
      OneIndex(whole, i, j);
    }
  }

  lemma InorderAt(t: Shape, i: nat)
    requires i < |Inorder(t)|
    ensures t.Bin?
    ensures var k := |Inorder(t.l)|;
      && (i < k ==> Inorder(t)[i] == Inorder(t.l)[i] && Inorder(t)[i] in Nodes(t.l))
      && (i == k ==> Inorder(t)[i] == t.n)
      && (i > k ==> i - k - 1 < |Inorder(t.r)| && Inorder(t)[i] == Inorder(t.r)[i - k - 1] && Inorder(t)[i] in Nodes(t.r))
  {
    InorderNodes(t.l);
    InorderNodes(t.r);
  }

  lemma {:induction false} OneIndex(t: Shape, i: nat, j: nat)
    requires Once(t) && i < |Inorder(t)| && j < |Inorder(t)| && Inorder(t)[i] == Inorder(t)[j]
    ensures i == j
  {
    var k := |Inorder(t.l)|;
    InorderAt(t, i);
    InorderAt(t, j);
    if i < k && j < k {
      OneIndex(t.l, i, j);
    } else if i > k && j > k {
      OneIndex(t.r, i - k - 1, j - k - 1);
    }
  }

  lemma NextInLine(c: Ctx, t: Shape)
    requires t.Bin?
    ensures var s, i := Line(c, t), |Before(c)| + |Inorder(t.l)|;
      && i < |s|
      && (Inorder(t.r) != [] ==> i + 1 < |s| && s[i + 1] == Inorder(t.r)[0])
      && (Inorder(t.r) == [] && After(c) != [] ==> i + 1 < |s| && s[i + 1] == After(c)[0])
      && (Inorder(t.r) == [] && After(c) == [] ==> i + 1 == |s|)
      && (Inorder(t.l) != [] ==> i > 0 && s[i - 1] == Inorder(t.l)[|Inorder(t.l)| - 1])
      && (Inorder(t.l) == [] && Before(c) != [] ==> i > 0 && s[i - 1] == Before(c)[|Before(c)| - 1])
      && (Inorder(t.l) == [] && Before(c) == [] ==> i == 0)
  {}

  lemma ChildApart(m: Memory, root: Ptr, nil: Ptr, c: Ctx, t: Shape, s: Shape)
    requires At(m, root, nil, c, t) && t.Bin? && (s == t.l || s == t.r)
    ensures Once(s) && Nodes(s) !! CNodes(c) && nil !in Nodes(s) && Linked(m, nil, s, t.n)
    ensures Root(s, nil) in m && Root(s, nil) !in CNodes(c)
  {}

  lemma NearReady(m: Memory, root: Ptr, nil: Ptr, c: Ctx, t: Shape)
    requires At(m, root, nil, c, t) && t.Bin? && t.l.Bin? && t.r.Bin? && t.r.l.Leaf?
    ensures Root(t.r.r, nil) in m
    ensures var x := Root(t.r.r, nil);
      Ready(m[x := m[x].(parent := t.r.n)], root, nil, c, t.l, t.n, t.red, t.r.n, t.r.r)
  {
    var x, y := Root(t.r.r, nil), t.r.n;
    ChildApart(m, root, nil, c, t, t.l);
    ChildApart(m, root, nil, c, t, t.r);
    assert Linked(m, nil, t.r.r, y);
    var m' := m[x := m[x].(parent := y)];
    LinkedFrame(m, m', nil, t.l, t.n);
    CLinkedFrame(m, m', nil, c, t.n);
    Reparent(m, m', nil, t.r.r, y, y);
  }

  lemma NearPromoted(m: Memory, root: Ptr, nil: Ptr, c: Ctx, t: Shape)
    requires At(m, root, nil, c, t) && t.Bin? && t.l.Bin? && t.r.Bin? && t.r.l.Leaf?
    ensures Root(t.r.r, nil) in m && t.n in m && t.r.n in m && t.r.n != nil
    ensures var x, y := Root(t.r.r, nil), t.r.n;
      var m1 := m[x := m[x].(parent := y)];
      && t.n in m1 && y in m1 && m1[t.n].parent in m1 && Transplanted(m1, nil, t.n, y)[t.n].left in m1
      && m1[t.n].parent == Parent(c, nil) && (Parent(c, nil) == nil <==> c.Top?)
      && var m2 := Promoted(m1, nil, t.n, y);
      && At(m2, if c.Top? then y else root, nil, InR(t.l, y, t.red, c), t.r.r)
      && m2[x].parent == y && SameData(m, m2)
  {
    var x, y := Root(t.r.r, nil), t.r.n;
    NearReady(m, root, nil, c, t);
    var m1 := m[x := m[x].(parent := y)];
    Promote(m1, root, nil, c, t.l, t.n, t.red, y, t.r.r);
    var m2, root' := Promoted(m1, nil, t.n, y), if c.Top? then y else root;
    Rise(m2, root', nil, false, y, t.red, t.l, c, t.r.r);
    Seen(m2, root', nil, InR(t.l, y, t.red, c), t.r.r);
  }

  lemma FarFocus(m: Memory, root: Ptr, nil: Ptr, c: Ctx, t: Shape, rel: Ctx, sub: Shape)
    requires At(m, root, nil, c, t) && t.Bin? && t.r == Plug(rel, sub) && sub.Bin?
    ensures At(m, root, nil, Append(rel, InR(t.l, t.n, t.red, c)), sub)
    ensures sub.n in m && sub.n != nil && sub.n !in CNodes(Append(rel, InR(t.l, t.n, t.red, c))) && sub.n !in Nodes(sub.r)
  {
    Rise(m, root, nil, false, t.n, t.red, t.l, c, t.r);
    AppendAt(m, root, nil, rel, InR(t.l, t.n, t.red, c), sub);
    Seen(m, root, nil, Append(rel, InR(t.l, t.n, t.red, c)), sub);
    assert sub.n in Nodes(sub);
  }

  lemma {:induction false} AppendNodes(a: Ctx, b: Ctx)
    ensures CNodes(Append(a, b)) == CNodes(a) + CNodes(b)
  {
    if !a.Top? {
      AppendNodes(a.up, b);
    }
  }

  ghost predicate Adopted(m: Memory, m': Memory, y: Ptr, r: Ptr) {
    && SameData(m, m') && y in m && r in m && y != r
    && (forall q :: q in m && q != y && q != r ==> m'[q] == m[q])
    && m'[y] == m[y].(right := r) && m'[r] == m[r].(parent := y)
  }

  /** With y out of the tree and z still in it, y is made ready to take z's place. */
  lemma FarReady(m: Memory, m': Memory, root: Ptr, nil: Ptr, c: Ctx, l: Shape, z: Ptr, red: bool, y: Ptr, r: Shape)
    requires At(m, root, nil, c, Bin(l, z, red, r)) && l.Bin? && r.Bin? && Adopted(m, m', y, r.n)
    requires y != nil && y != z && y !in Nodes(l) && y !in Nodes(r) && y !in CNodes(c)
    ensures Ready(m', root, nil, c, l, z, red, y, r)
  {
    ChildApart(m, root, nil, c, Bin(l, z, red, r), l);
    ChildApart(m, root, nil, c, Bin(l, z, red, r), r);
    assert r.n in Nodes(r);
    LinkedFrame(m, m', nil, l, z);
    CLinkedFrame(m, m', nil, c, z);
    FarRight(m, m', nil, z, y, r);
  }

  lemma FarRight(m: Memory, m': Memory, nil: Ptr, z: Ptr, y: Ptr, r: Shape)
    requires Linked(m, nil, r, z) && r.Bin? && Once(r) && Adopted(m, m', y, r.n) && y !in Nodes(r)
    ensures Linked(m', nil, r, y)
  {
    Reparent(m, m', nil, r, z, y);
  }

  lemma FarPromoted(m: Memory, m': Memory, root: Ptr, nil: Ptr, c: Ctx, l: Shape, z: Ptr, red: bool, y: Ptr, rel: Ctx, xs: Shape)
    requires At(m, root, nil, c, Bin(l, z, red, Plug(rel, xs))) && l.Bin? && !rel.Top?
    requires Plug(rel, xs).Bin? && Adopted(m, m', y, Plug(rel, xs).n)
    requires y != nil && y != z && y !in Nodes(l) && y !in Nodes(Plug(rel, xs)) && y !in CNodes(c)
    ensures z in m' && m'[z].parent in m' && Transplanted(m', nil, z, y)[z].left in m'
    ensures var m2 := Promoted(m', nil, z, y);
      && At(m2, if c.Top? then y else root, nil, Append(rel, InR(l, y, red, c)), xs)
      && SameData(m, m2) && m2[nil] == m'[nil]
  {
    FarReady(m, m', root, nil, c, l, z, red, y, Plug(rel, xs));
    Promote(m', root, nil, c, l, z, red, y, Plug(rel, xs));
    FarLands(Promoted(m', nil, z, y), if c.Top? then y else root, nil, c, l, y, red, rel, xs);
  }

  lemma FarApart(m: Memory, root: Ptr, nil: Ptr, c: Ctx, l: Shape, z: Ptr, red: bool, y: Ptr, rel: Ctx, xs: Shape)
    requires At(m, root, nil, Append(rel, InR(l, z, red, c)), xs) && l.Bin? && !rel.Top?
    requires y != nil && y !in CNodes(Append(rel, InR(l, z, red, c))) && y !in Nodes(xs)
    ensures var r := Plug(rel, xs);
      && At(m, root, nil, c, Bin(l, z, red, r)) && r.Bin?
      && z in m && m[z].right == r.n && r.n in m && r.n in Nodes(r) && m[z].parent == Parent(c, nil) && Parent(c, nil) in m
      && y != z && y !in Nodes(l) && y !in Nodes(r) && y !in CNodes(c) && (Parent(c, nil) == nil <==> c.Top?)
  {
    var r := Plug(rel, xs);
    AppendAt(m, root, nil, rel, InR(l, z, red, c), xs);
    Rise(m, root, nil, false, z, red, l, c, r);
    PlugBin(rel, xs);
    PlugNodes(rel, xs);
    AppendNodes(rel, InR(l, z, red, c));
    OnlyChild(m, root, nil, c, Bin(l, z, red, r));
    assert Linked(m, nil, r, z);
  }

  lemma FarLands(m: Memory, root: Ptr, nil: Ptr, c: Ctx, l: Shape, y: Ptr, red: bool, rel: Ctx, xs: Shape)
    requires At(m, root, nil, c, Bin(l, y, red, Plug(rel, xs)))
    ensures At(m, root, nil, Append(rel, InR(l, y, red, c)), xs)
  {
    Rise(m, root, nil, false, y, red, l, c, Plug(rel, xs));
    AppendAt(m, root, nil, rel, InR(l, y, red, c), xs);
  }

  lemma {:induction false} PlugBin(c: Ctx, t: Shape)
    requires !c.Top? || t.Bin?
    ensures Plug(c, t).Bin?
    decreases c
  {
    match c
    case Top =>
    case InL(n, red, r, up) => PlugBin(up, Bin(t, n, red, r));
    case InR(l, n, red, up) => PlugBin(up, Bin(l, n, red, t));
  }

  /** The colours around what is left after taking out one node: short of a black node unless that node was red. */
  ghost predicate Left(c: Ctx, t: Shape, red: bool, h: nat) {
    if red then Fits(c, t, h) else COk(c, h + 1) && Ok(t, h)
  }

  /** The order without the node at the focus. */
  ghost function Remaining(c: Ctx, t: Shape): seq<Ptr>
    requires t.Bin?
  {
    Before(c) + Inorder(t.l) + Inorder(t.r) + After(c)
  }

  lemma OuterColours(c: Ctx, t: Shape, s: Shape, h: nat) returns (h': nat)
    requires Fits(c, t, h) && t.Bin? && ((t.l.Leaf? && s == t.r) || (t.r.Leaf? && s == t.l))
    ensures Left(c, s, t.red, h')
  {
    h' := if t.red then h else h - 1;
  }

  lemma InnerColours(c: Ctx, t: Shape, h: nat) returns (h': nat)
    requires Fits(c, t, h) && t.Bin? && t.r.Bin?
    ensures Left(Append(SpineFrom(Top, t.r), InR(t.l, Leftmost(t.r).n, t.red, c)), Leftmost(t.r).r, Leftmost(t.r).red, h')
  {
    var rel, sub := SpineFrom(Top, t.r), Leftmost(t.r);
    var b, b' := InR(t.l, t.n, t.red, c), InR(t.l, sub.n, t.red, c);
    SpineIs(Top, t.r);
    FitsBelow(false, t.r, t.n, t.red, t.l, c, h);
    var k := SpineFits(Top, t.r, b, if t.red then h else h - 1);
    SameColours(rel, b, b', k);
    h' := SpineEnd(Append(rel, b), Append(rel, b'), sub, k);
  }

  lemma SpineEnd(c: Ctx, c': Ctx, sub: Shape, k: nat) returns (h': nat)
    requires Fits(c, sub, k) && sub.Bin? && sub.l.Leaf? && COk(c', k)
    ensures Left(c', sub.r, sub.red, h')
  {
    h' := if sub.red then k else k - 1;
  }

  lemma InnerOrder(c: Ctx, t: Shape)
    requires t.Bin? && t.r.Bin?
    ensures Line(Append(SpineFrom(Top, t.r), InR(t.l, Leftmost(t.r).n, t.red, c)), Leftmost(t.r).r) == Remaining(c, t)
  {
    var rel, sub := SpineFrom(Top, t.r), Leftmost(t.r);
    AppendLine(rel, InR(t.l, sub.n, t.red, c), sub.r);
    SpineOrder(t.r);
    Regroup(Before(c), Inorder(t.l), sub.n, Inorder(Plug(rel, sub.r)), After(c));
  }

  lemma Regroup(a: seq<Ptr>, l: seq<Ptr>, n: Ptr, r: seq<Ptr>, b: seq<Ptr>)
    ensures a + l + [n] + r + b == a + l + ([n] + r) + b
  {}

  lemma SpineOrder(t: Shape)
    requires t.Bin?
    ensures Inorder(t) == [Leftmost(t).n] + Inorder(Plug(SpineFrom(Top, t), Leftmost(t).r))
  {
    var rel, sub := SpineFrom(Top, t), Leftmost(t);
    SpineIs(Top, t);
    PlugInorder(rel, sub);
    PlugInorder(rel, sub.r);
    LeftOnlyBefore(rel, Top);
    AppendTop(rel);
    LeftmostOrder(sub);
    FrontOf(sub.n, Inorder(sub.r), After(rel));
  }

  lemma LeftmostOrder(t: Shape)
    requires t.Bin? && t.l.Leaf?
    ensures Inorder(t) == [t.n] + Inorder(t.r)
  {}

  lemma FrontOf(n: Ptr, r: seq<Ptr>, a: seq<Ptr>)
    ensures [] + ([n] + r) + a == [n] + ([] + r + a)
  {}

  lemma {:induction false} AppendLine(a: Ctx, b: Ctx, t: Shape)
    ensures Line(Append(a, b), t) == Line(b, Plug(a, t))
    decreases a
  {
    match a
    case Top =>
    case InL(n, red, r, up) =>
      RiseLine(true, n, red, r, Append(up, b), t);
      AppendLine(up, b, Bin(t, n, red, r));
    case InR(l, n, red, up) =>
      RiseLine(false, n, red, l, Append(up, b), t);
      AppendLine(up, b, Bin(l, n, red, t));
  }

  /** What the code sees of the successor: it is the right child exactly if the path down is empty. */
  lemma SpineSeen(m: Memory, root: Ptr, nil: Ptr, c: Ctx, t: Shape)
    requires At(m, root, nil, c, t) && t.Bin? && t.r.Bin?
    ensures var rel, sub := SpineFrom(Top, t.r), Leftmost(t.r);
      && sub.Bin? && sub.l.Leaf? && t.r == Plug(rel, sub)
      && sub.n in m && m[sub.n].red == sub.red && m[sub.n].right == Root(sub.r, nil)
      && (rel.Top? <==> m[sub.n].parent == t.n)
      && (rel.Top? ==> sub == t.r)
      && forall y: Ptr :: Parent(Append(rel, InR(t.l, y, t.red, c)), nil) == if rel.Top? then y else rel.n
  {
    var rel, sub := SpineFrom(Top, t.r), Leftmost(t.r);
    SpineIs(Top, t.r);
    FarFocus(m, root, nil, c, t, rel, sub);
    Seen(m, root, nil, Append(rel, InR(t.l, t.n, t.red, c)), sub);
    PlugNodes(rel, sub);
    assert !rel.Top? ==> rel.n in CNodes(rel);
  }

  lemma SortedWithout(m: Memory, a: seq<Ptr>, z: Ptr, b: seq<Ptr>)
    requires Sorted(m, a + [z] + b)
    ensures Sorted(m, a + b)
  {
    var s, r := a + [z] + b, a + b;
    forall i | 0 <= i < |r| ensures r[i] in m {
      assert r[i] == s[if i < |a| then i else i + 1];
    }
    forall i, j | 0 <= i < j < |r| ensures m[r[i]].vma.start <= m[r[j]].vma.start {
      assert r[i] == s[if i < |a| then i else i + 1] && r[j] == s[if j < |a| then j else j + 1];
    }
  }

  lemma Taken(m: Memory, root: Ptr, nil: Ptr, whole: Shape, c: Ctx, t: Shape)
    requires At(m, root, nil, Top, whole) && At(m, root, nil, c, t) && t.Bin? && Line(c, t) == Inorder(whole)
    requires Sorted(m, Inorder(whole))
    ensures Remaining(c, t) == Without(Inorder(whole), t.n) && Sorted(m, Remaining(c, t))
  {
    Position(m, root, nil, whole, c, t);
    TakenOut(m, Inorder(whole), Before(c), Inorder(t.l), t.n, Inorder(t.r), After(c));
  }

  lemma TakenOut(m: Memory, s: seq<Ptr>, p: seq<Ptr>, l: seq<Ptr>, z: Ptr, r: seq<Ptr>, q: seq<Ptr>)
    requires s == p + (l + [z] + r) + q && Sorted(m, s)
    requires forall j :: 0 <= j < |s| && s[j] == z ==> j == |p| + |l|
    ensures p + l + r + q == Without(s, z) && Sorted(m, p + l + r + q)
  {
    Reassociate(p, l, z, r, q);
    TakenMid(m, s, p + l, z, r + q);
  }

  lemma Reassociate(p: seq<Ptr>, l: seq<Ptr>, z: Ptr, r: seq<Ptr>, q: seq<Ptr>)
    ensures p + (l + [z] + r) + q == (p + l) + [z] + (r + q)
    ensures p + l + r + q == (p + l) + (r + q)
  {}

  lemma TakenMid(m: Memory, s: seq<Ptr>, a: seq<Ptr>, z: Ptr, b: seq<Ptr>)
    requires s == a + [z] + b && Sorted(m, s) && forall j :: 0 <= j < |s| && s[j] == z ==> j == |a|
    ensures a + b == Without(s, z) && Sorted(m, a + b)
  {
    forall j | 0 <= j < |a| ensures a[j] != z {
      assert s[j] == a[j];
    }
    WithoutMid(a, z, b);
    SortedWithout(m, a, z, b);
  }
}

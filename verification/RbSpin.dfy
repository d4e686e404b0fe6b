/** Rotations of a tree spelled out in memory, and why they keep the links of every other node. */
module RbSpin {
  import opened RbShape
  import opened RbMirror

  /** Subtree `t` in context `c` is what memory holds below `root`. */
  ghost predicate At(m: Memory, root: Ptr, nil: Ptr, c: Ctx, t: Shape) {
    && nil in m && !m[nil].red && nil !in Nodes(t) && nil !in CNodes(c)
    && COnce(c) && Once(t) && Nodes(t) !! CNodes(c)
    && Linked(m, nil, t, Parent(c, nil)) && CLinked(m, nil, c, Root(t, nil))
    && root == RootOf(c, Root(t, nil))
  }

  // ---- single writes

  /** Point whatever points down at `u` to `v`: the parent's link, or the root. */
  function Redirect(m: Memory, nil: Ptr, p: Ptr, u: Ptr, v: Ptr): Memory
    requires p in m
  {
    if p == nil then m
    else if m[p].left == u then m[p := m[p].(left := v)]
    else m[p := m[p].(right := v)]
  }

  function SetParent(m: Memory, nil: Ptr, v: Ptr, p: Ptr): Memory
    requires v in m
  {
    if v == nil then m else m[v := m[v].(parent := p)]
  }

  // ---- rotations

  predicate CanRotL(m: Memory, nil: Ptr, x: Ptr) {
    nil in m && x in m && m[x].parent in m && m[x].right in m && m[m[x].right].left in m
  }

  function RotL(m: Memory, nil: Ptr, x: Ptr): Memory
    requires CanRotL(m, nil, x)
  {
    var y, p := m[x].right, m[x].parent;
    var b := m[y].left;
    var m1 := m[y := m[y].(parent := p)];
    var m2 := Redirect(m1, nil, p, x, y);
    var m3 := m2[y := m2[y].(left := x)];
    var m4 := m3[x := m3[x].(parent := y)];
    var m5 := m4[x := m4[x].(right := b)];
    SetParent(m5, nil, b, x)
  }

  /** What a left rotation writes, when the nodes involved are different ones. */
  ghost predicate SpunL(m: Memory, m': Memory, nil: Ptr, x: Ptr, y: Ptr, p: Ptr, b: Ptr) {
    && m'.Keys == m.Keys && x in m && y in m && b in m && p in m
    && (forall q :: q in m && q != x && q != y && (q != b || b == nil) && (q != p || p == nil) ==> m'[q] == m[q])
    && m'[x] == m[x].(parent := y, right := b)
    && m'[y] == m[y].(parent := p, left := x)
    && (b != nil ==> m'[b] == m[b].(parent := x))
    && (p != nil ==> m'[p] == if m[p].left == x then m[p].(left := y) else m[p].(right := y))
  }

  lemma RotLEffect(m: Memory, nil: Ptr, x: Ptr, y: Ptr, p: Ptr, b: Ptr)
    requires CanRotL(m, nil, x) && y == m[x].right && p == m[x].parent && b == m[y].left
    requires x != y && x != nil && y != nil && b != x && b != y && p != x && p != y && (b == p ==> b == nil)
    ensures SpunL(m, RotL(m, nil, x), nil, x, y, p, b)
  {}

  lemma RotLTree(m: Memory, m': Memory, nil: Ptr, up: Ptr, a: Shape, x: Ptr, rx: bool, b: Shape, y: Ptr, ry: bool, d: Shape)
    requires Linked(m, nil, Bin(a, x, rx, Bin(b, y, ry, d)), up) && Once(b)
    requires Agree(m, m', Nodes(a)) && Agree(m, m', Nodes(d))
    requires b.Bin? ==> Agree(m, m', Nodes(b) - {b.n}) && b.n in m && b.n in m' && m'[b.n] == m[b.n].(parent := x)
    requires x in m' && m'[x] == m[x].(parent := y, right := Root(b, nil))
    requires y in m && y in m' && m'[y] == m[y].(parent := up, left := x)
    ensures Linked(m', nil, Bin(Bin(a, x, rx, b), y, ry, d), up)
  {
    assert Linked(m, nil, Bin(b, y, ry, d), x);
    LinkedFrame(m, m', nil, a, x);
    LinkedFrame(m, m', nil, d, y);
    Reparent(m, m', nil, b, y, x);
    assert Linked(m', nil, Bin(a, x, rx, b), y);
  }

  lemma RotLCtx(m: Memory, m': Memory, nil: Ptr, c: Ctx, x: Ptr, y: Ptr)
    requires CLinked(m, nil, c, x) && COnce(c) && x !in CNodes(c) && nil !in CNodes(c) && x != nil
    requires forall q :: q in CNodes(c) && q in m && q != Parent(c, nil) ==> q in m' && m'[q] == m[q]
    requires !c.Top? ==> c.n in m' && m'[c.n] == if m[c.n].left == x then m[c.n].(left := y) else m[c.n].(right := y)
    ensures CLinked(m', nil, c, y)
  {
    Rehang(m, m', nil, c, x, y);
  }

  /** The parts of a rotation do not overlap. */
  lemma Apart(c: Ctx, a: Shape, x: Ptr, rx: bool, b: Shape, y: Ptr, ry: bool, d: Shape)
    requires Once(Bin(a, x, rx, Bin(b, y, ry, d))) && Nodes(Bin(a, x, rx, Bin(b, y, ry, d))) !! CNodes(c)
    ensures Once(a) && Once(b) && Once(d) && x != y
    ensures Nodes(a) !! Nodes(b) !! Nodes(d) !! {x} !! {y} !! CNodes(c)
    ensures Nodes(Bin(a, x, rx, Bin(b, y, ry, d))) == Nodes(a) + Nodes(b) + Nodes(d) + {x, y}
    ensures Nodes(Bin(Bin(a, x, rx, b), y, ry, d)) == Nodes(a) + Nodes(b) + Nodes(d) + {x, y}
    ensures Once(Bin(Bin(a, x, rx, b), y, ry, d))
  {
    assert Once(Bin(b, y, ry, d));
    assert Nodes(Bin(a, x, rx, b)) == Nodes(a) + Nodes(b) + {x};
  }

  lemma RotLFacts(m: Memory, root: Ptr, nil: Ptr, c: Ctx, a: Shape, x: Ptr, rx: bool, b: Shape, y: Ptr, ry: bool, d: Shape)
    requires At(m, root, nil, c, Bin(a, x, rx, Bin(b, y, ry, d)))
    ensures CanRotL(m, nil, x) && m[x].right == y && m[x].parent == Parent(c, nil) && m[y].left == Root(b, nil)
    ensures x != nil && y != nil && Root(b, nil) != x && Root(b, nil) != y && Parent(c, nil) != x && Parent(c, nil) != y
    ensures Root(b, nil) == Parent(c, nil) ==> Root(b, nil) == nil
    ensures b.Bin? ==> b.n in m && b.n in Nodes(b)
    ensures !c.Top? ==> c.n in m && c.n in CNodes(c)
  {
    Apart(c, a, x, rx, b, y, ry, d);
    assert Linked(m, nil, Bin(b, y, ry, d), x);
    assert Linked(m, nil, b, y);
  }

  lemma RotLDown(m: Memory, root: Ptr, m': Memory, nil: Ptr, c: Ctx,
                 a: Shape, x: Ptr, rx: bool, b: Shape, y: Ptr, ry: bool, d: Shape)
    requires At(m, root, nil, c, Bin(a, x, rx, Bin(b, y, ry, d)))
    requires SpunL(m, m', nil, x, y, Parent(c, nil), Root(b, nil))
    ensures Linked(m', nil, Bin(Bin(a, x, rx, b), y, ry, d), Parent(c, nil))
  {
    Apart(c, a, x, rx, b, y, ry, d);
    RotLFacts(m, root, nil, c, a, x, rx, b, y, ry, d);
    RotLTree(m, m', nil, Parent(c, nil), a, x, rx, b, y, ry, d);
  }

  lemma RotLUp(m: Memory, root: Ptr, m': Memory, nil: Ptr, c: Ctx,
               a: Shape, x: Ptr, rx: bool, b: Shape, y: Ptr, ry: bool, d: Shape)
    requires At(m, root, nil, c, Bin(a, x, rx, Bin(b, y, ry, d)))
    requires SpunL(m, m', nil, x, y, Parent(c, nil), Root(b, nil))
    ensures CLinked(m', nil, c, y) && nil in m' && m'[nil].red == m[nil].red
  {
    Apart(c, a, x, rx, b, y, ry, d);
    RotLFacts(m, root, nil, c, a, x, rx, b, y, ry, d);
    RotLCtx(m, m', nil, c, x, y);
  }

  lemma RotLAt(m: Memory, root: Ptr, m': Memory, root': Ptr, nil: Ptr, c: Ctx,
               a: Shape, x: Ptr, rx: bool, b: Shape, y: Ptr, ry: bool, d: Shape)
    requires At(m, root, nil, c, Bin(a, x, rx, Bin(b, y, ry, d)))
    requires SpunL(m, m', nil, x, y, Parent(c, nil), Root(b, nil)) && root' == if c.Top? then y else root
    ensures At(m', root', nil, c, Bin(Bin(a, x, rx, b), y, ry, d))
  {
    Apart(c, a, x, rx, b, y, ry, d);
    RotLUp(m, root, m', nil, c, a, x, rx, b, y, ry, d);
    RotLDown(m, root, m', nil, c, a, x, rx, b, y, ry, d);
  }

  lemma RotLKeeps(m: Memory, root: Ptr, nil: Ptr, c: Ctx, a: Shape, x: Ptr, rx: bool, b: Shape, y: Ptr, ry: bool, d: Shape)
    requires At(m, root, nil, c, Bin(a, x, rx, Bin(b, y, ry, d)))
    ensures CanRotL(m, nil, x)
    ensures At(RotL(m, nil, x), if c.Top? then y else root, nil, c, Bin(Bin(a, x, rx, b), y, ry, d))
  {
    RotLFacts(m, root, nil, c, a, x, rx, b, y, ry, d);
    RotLEffect(m, nil, x, y, Parent(c, nil), Root(b, nil));
    RotLAt(m, root, RotL(m, nil, x), if c.Top? then y else root, nil, c, a, x, rx, b, y, ry, d);
  }

  predicate CanRotR(m: Memory, nil: Ptr, x: Ptr) {
    nil in m && x in m && m[x].parent in m && m[x].left in m && m[m[x].left].right in m
  }

  function RotR(m: Memory, nil: Ptr, x: Ptr): Memory
    requires CanRotR(m, nil, x)
  {
    var y, p := m[x].left, m[x].parent;
    var b := m[y].right;
    var m1 := m[y := m[y].(parent := p)];
    var m2 := Redirect(m1, nil, p, x, y);
    var m3 := m2[y := m2[y].(right := x)];
    var m4 := m3[x := m3[x].(parent := y)];
    var m5 := m4[x := m4[x].(left := b)];
    SetParent(m5, nil, b, x)
  }

  lemma MirrorPut(m: Memory, p: Ptr, n: Node)
    ensures MirrorMem(m[p := n]) == MirrorMem(m)[p := MirrorNode(n)]
  {}

  lemma MirrorRedirect(m: Memory, nil: Ptr, p: Ptr, u: Ptr, v: Ptr)
    requires p in m && (p != nil ==> (m[p].left == u <==> m[p].right != u))
    ensures MirrorMem(Redirect(m, nil, p, u, v)) == Redirect(MirrorMem(m), nil, p, u, v)
  {
    MirrorPut(m, p, m[p].(left := v));
    MirrorPut(m, p, m[p].(right := v));
  }

  lemma MirrorSetParent(m: Memory, nil: Ptr, v: Ptr, p: Ptr)
    requires v in m
    ensures MirrorMem(SetParent(m, nil, v, p)) == SetParent(MirrorMem(m), nil, v, p)
  {
    MirrorPut(m, v, m[v].(parent := p));
  }

  lemma RotRMirrors(m: Memory, nil: Ptr, x: Ptr)
    requires CanRotR(m, nil, x)
    requires m[x].parent != nil ==> (m[m[x].parent].left == x <==> m[m[x].parent].right != x)
    requires m[x].parent != m[x].left
    ensures CanRotL(MirrorMem(m), nil, x) && MirrorMem(RotR(m, nil, x)) == RotL(MirrorMem(m), nil, x)
  {
    var y, p := m[x].left, m[x].parent;
    var b := m[y].right;
    var m1 := m[y := m[y].(parent := p)];
    MirrorPut(m, y, m[y].(parent := p));
    var m2 := Redirect(m1, nil, p, x, y);
    MirrorRedirect(m1, nil, p, x, y);
    var m3 := m2[y := m2[y].(right := x)];
    MirrorPut(m2, y, m2[y].(right := x));
    var m4 := m3[x := m3[x].(parent := y)];
    MirrorPut(m3, x, m3[x].(parent := y));
    var m5 := m4[x := m4[x].(left := b)];
    MirrorPut(m4, x, m4[x].(left := b));
    MirrorSetParent(m5, nil, b, x);
  }

  lemma MirrorAt(m: Memory, root: Ptr, nil: Ptr, c: Ctx, t: Shape)
    ensures At(MirrorMem(m), root, nil, MirrorCtx(c), Mirror(t)) <==> At(m, root, nil, c, t)
  {
    MirrorShape(t);
    MirrorContext(c);
    MirrorLinked(m, nil, t, Parent(c, nil));
    MirrorCLinked(m, nil, c, Root(t, nil));
    MirrorRootOf(c, Root(t, nil));
  }

  lemma OnlyChild(m: Memory, root: Ptr, nil: Ptr, c: Ctx, t: Shape)
    requires At(m, root, nil, c, t) && t.Bin?
    ensures t.n in m && m[t.n].parent == Parent(c, nil) && Parent(c, nil) in m
    ensures !c.Top? ==> (m[c.n].left == t.n <==> m[c.n].right != t.n)
    ensures c.InL? ==> m[c.n].left == t.n
  {
    assert t.n in Nodes(t);
    if c.InL? {
      assert c.r.Bin? ==> c.r.n in Nodes(c.r);
    } else if c.InR? {
      assert c.l.Bin? ==> c.l.n in Nodes(c.l);
    }
  }

  lemma RotRKeeps(m: Memory, root: Ptr, nil: Ptr, c: Ctx, a: Shape, x: Ptr, rx: bool, b: Shape, y: Ptr, ry: bool, d: Shape)
    requires At(m, root, nil, c, Bin(Bin(a, x, rx, b), y, ry, d))
    ensures CanRotR(m, nil, y)
    ensures At(RotR(m, nil, y), if c.Top? then x else root, nil, c, Bin(a, x, rx, Bin(b, y, ry, d)))
  {
    var t, t' := Bin(Bin(a, x, rx, b), y, ry, d), Bin(a, x, rx, Bin(b, y, ry, d));
    var mm, mc := MirrorMem(m), MirrorCtx(c);
    MirrorAt(m, root, nil, c, t);
    MirrorContext(c);
    OnlyChild(m, root, nil, c, t);
    assert Mirror(t) == Bin(Mirror(d), y, ry, Bin(Mirror(b), x, rx, Mirror(a)));
    RotLKeeps(mm, root, nil, mc, Mirror(d), y, ry, Mirror(b), x, rx, Mirror(a));
    RotRMirrors(m, nil, y);
    MirrorAt(RotR(m, nil, y), if c.Top? then x else root, nil, c, t');
  }

  // ---- both sides at once

  /** What an area holds is not touched; only links and colours may be. */
  ghost predicate SameData(m: Memory, m': Memory) {
    m'.Keys == m.Keys && forall p :: p in m ==> m'[p].vma == m[p].vma
  }

  lemma PutData(m: Memory, m': Memory, p: Ptr, n: Node)
    requires SameData(m, m') && p in m' && n.vma == m'[p].vma
    ensures SameData(m, m'[p := n])
  {}

  /** A subtree with `t` on the left if `left`, on the right otherwise. */
  function Mk(left: bool, t: Shape, n: Ptr, red: bool, sib: Shape): Shape {
    if left then Bin(t, n, red, sib) else Bin(sib, n, red, t)
  }

  function In(left: bool, n: Ptr, red: bool, sib: Shape, up: Ctx): Ctx {
    if left then InL(n, red, sib, up) else InR(sib, n, red, up)
  }

  predicate CanSpin(m: Memory, nil: Ptr, left: bool, x: Ptr) {
    if left then CanRotL(m, nil, x) else CanRotR(m, nil, x)
  }

  function Spin(m: Memory, nil: Ptr, left: bool, x: Ptr): Memory
    requires CanSpin(m, nil, left, x)
  {
    if left then RotL(m, nil, x) else RotR(m, nil, x)
  }

  lemma RotLData(m: Memory, nil: Ptr, x: Ptr)
    requires CanRotL(m, nil, x)
    ensures SameData(m, RotL(m, nil, x))
  {
    var y, p := m[x].right, m[x].parent;
    var b := m[y].left;
    var m1 := m[y := m[y].(parent := p)];
    PutData(m, m, y, m[y].(parent := p));
    var m2 := Redirect(m1, nil, p, x, y);
    PutData(m, m1, p, m1[p].(left := y));
    PutData(m, m1, p, m1[p].(right := y));
    var m3 := m2[y := m2[y].(left := x)];
    PutData(m, m2, y, m2[y].(left := x));
    var m4 := m3[x := m3[x].(parent := y)];
    PutData(m, m3, x, m3[x].(parent := y));
    var m5 := m4[x := m4[x].(right := b)];
    PutData(m, m4, x, m4[x].(right := b));
    PutData(m, m5, b, m5[b].(parent := x));
  }

  lemma RotRData(m: Memory, nil: Ptr, x: Ptr)
    requires CanRotR(m, nil, x)
    ensures SameData(m, RotR(m, nil, x))
  {
    var y, p := m[x].left, m[x].parent;
    var b := m[y].right;
    var m1 := m[y := m[y].(parent := p)];
    PutData(m, m, y, m[y].(parent := p));
    var m2 := Redirect(m1, nil, p, x, y);
    PutData(m, m1, p, m1[p].(left := y));
    PutData(m, m1, p, m1[p].(right := y));
    var m3 := m2[y := m2[y].(right := x)];
    PutData(m, m2, y, m2[y].(right := x));
    var m4 := m3[x := m3[x].(parent := y)];
    PutData(m, m3, x, m3[x].(parent := y));
    var m5 := m4[x := m4[x].(left := b)];
    PutData(m, m4, x, m4[x].(left := b));
    PutData(m, m5, b, m5[b].(parent := x));
  }

  lemma SpinNil(m: Memory, nil: Ptr, left: bool, x: Ptr)
    requires CanSpin(m, nil, left, x) && x != nil && (if left then m[x].right else m[x].left) != nil
    ensures Spin(m, nil, left, x)[nil] == m[nil]
  {}

  /** Turning x towards the side of `t` lifts its other child y above it. */
  lemma SpinKeeps(m: Memory, root: Ptr, nil: Ptr, c: Ctx, left: bool,
                  t: Shape, x: Ptr, rx: bool, a: Shape, y: Ptr, ry: bool, b: Shape)
    requires At(m, root, nil, c, Mk(left, t, x, rx, Mk(left, a, y, ry, b)))
    ensures CanSpin(m, nil, left, x) && x in m && m[x].parent == Parent(c, nil)
    ensures y == if left then m[x].right else m[x].left
    ensures At(Spin(m, nil, left, x), if c.Top? then y else root, nil, c, Mk(left, Mk(left, t, x, rx, a), y, ry, b))
    ensures SameData(m, Spin(m, nil, left, x)) && nil in m && Spin(m, nil, left, x)[nil] == m[nil]
  {
    if left {
      RotLKeeps(m, root, nil, c, t, x, rx, a, y, ry, b);
      RotLData(m, nil, x);
    } else {
      RotRKeeps(m, root, nil, c, b, y, ry, a, x, rx, t);
      RotRData(m, nil, x);
    }
    SpinNil(m, nil, left, x);
  }
}

/** The steps of the insertion and deletion repairs: moving the focus, painting, and each case of the two fixups. */
module RbSteps {
  import opened RbShape
  import opened RbSpin

  function Sib(c: Ctx): Shape
    requires !c.Top?
  {
    if c.InL? then c.r else c.l
  }

  /** The nodes of a tree in order, seen from a focus. */
  function Line(c: Ctx, t: Shape): seq<Ptr> {
    Before(c) + Inorder(t) + After(c)
  }

  // ---- moving the focus

  lemma Rise(m: Memory, root: Ptr, nil: Ptr, left: bool, n: Ptr, red: bool, sib: Shape, up: Ctx, t: Shape)
    ensures At(m, root, nil, In(left, n, red, sib, up), t) <==> At(m, root, nil, up, Mk(left, t, n, red, sib))
    ensures Line(In(left, n, red, sib, up), t) == Line(up, Mk(left, t, n, red, sib))
  {
    RiseLine(left, n, red, sib, up, t);
    RiseOnce(left, n, red, sib, up, t);
  }

  lemma RiseLine(left: bool, n: Ptr, red: bool, sib: Shape, up: Ctx, t: Shape)
    ensures Line(In(left, n, red, sib, up), t) == Line(up, Mk(left, t, n, red, sib))
  {}

  lemma RiseOnce(left: bool, n: Ptr, red: bool, sib: Shape, up: Ctx, t: Shape)
    ensures var c, t' := In(left, n, red, sib, up), Mk(left, t, n, red, sib);
      && (COnce(c) && Once(t) && Nodes(t) !! CNodes(c) <==> COnce(up) && Once(t') && Nodes(t') !! CNodes(up))
      && Nodes(t) + CNodes(c) == Nodes(t') + CNodes(up)
  {}

  // ---- what the code can see from a focus

  lemma Seen(m: Memory, root: Ptr, nil: Ptr, c: Ctx, t: Shape)
    requires At(m, root, nil, c, t)
    ensures Root(t, nil) in m && m[Root(t, nil)].red == IsRed(t)
    ensures t.Bin? ==> m[t.n].parent == Parent(c, nil) && m[t.n].left == Root(t.l, nil) && m[t.n].right == Root(t.r, nil)
    ensures t.Bin? ==> t.n != nil
    ensures root == Root(t, nil) <==> c.Top?
  {
    if !c.Top? {
      RootInside(c, Root(t, nil));
    }
  }

  lemma {:induction false} RootInside(c: Ctx, t: Ptr)
    requires !c.Top?
    ensures RootOf(c, t) in CNodes(c)
    decreases c
  {
    if !c.up.Top? {
      RootInside(c.up, c.n);
    }
  }

  lemma SeenAbove(m: Memory, root: Ptr, nil: Ptr, c: Ctx, t: Shape)
    requires At(m, root, nil, c, t) && !c.Top?
    ensures c.n in m && c.n != nil && m[c.n].red == c.red && m[c.n].parent == Parent(c.up, nil)
    ensures c.InL? ==> m[c.n].left == Root(t, nil) && m[c.n].right == Root(Sib(c), nil)
    ensures c.InR? ==> m[c.n].right == Root(t, nil) && m[c.n].left == Root(Sib(c), nil)
    ensures Root(Sib(c), nil) in m && m[Root(Sib(c), nil)].red == IsRed(Sib(c))
    ensures Root(t, nil) == Root(Sib(c), nil) ==> t.Leaf? && Sib(c).Leaf?
  {}

  // ---- painting

  function Painted(m: Memory, n: Ptr, red: bool): Memory
    requires n in m
  {
    m[n := m[n].(red := red)]
  }

  lemma PaintTop(m: Memory, root: Ptr, nil: Ptr, c: Ctx, t: Shape, red: bool)
    requires At(m, root, nil, c, t) && t.Bin?
    ensures t.n in m && t.n != nil
    ensures At(Painted(m, t.n, red), root, nil, c, t.(red := red))
    ensures SameData(m, Painted(m, t.n, red)) && Painted(m, t.n, red)[nil] == m[nil]
  {
    var m' := Painted(m, t.n, red);
    LinkedFrame(m, m', nil, t.l, t.n);
    LinkedFrame(m, m', nil, t.r, t.n);
    CLinkedFrame(m, m', nil, c, t.n);
  }

  lemma PaintAbove(m: Memory, root: Ptr, nil: Ptr, left: bool, n: Ptr, was: bool, sib: Shape, up: Ctx, t: Shape, red: bool)
    requires At(m, root, nil, In(left, n, was, sib, up), t)
    ensures n in m && n != nil
    ensures At(Painted(m, n, red), root, nil, In(left, n, red, sib, up), t)
    ensures SameData(m, Painted(m, n, red)) && nil in m && Painted(m, n, red)[nil] == m[nil]
  {
    Rise(m, root, nil, left, n, was, sib, up, t);
    PaintTop(m, root, nil, up, Mk(left, t, n, was, sib), red);
    Rise(Painted(m, n, red), root, nil, left, n, red, sib, up, t);
  }

  lemma PaintSib(m: Memory, root: Ptr, nil: Ptr, left: bool, n: Ptr, rn: bool, sib: Shape, up: Ctx, t: Shape, red: bool)
    requires At(m, root, nil, In(left, n, rn, sib, up), t) && sib.Bin?
    ensures sib.n in m && sib.n != nil
    ensures At(Painted(m, sib.n, red), root, nil, In(left, n, rn, sib.(red := red), up), t)
    ensures SameData(m, Painted(m, sib.n, red)) && nil in m && Painted(m, sib.n, red)[nil] == m[nil]
  {
    Rise(m, root, nil, left, n, rn, sib, up, t);
    Rise(m, root, nil, !left, n, rn, t, up, sib);
    PaintTop(m, root, nil, In(!left, n, rn, t, up), sib, red);
    Rise(Painted(m, sib.n, red), root, nil, !left, n, rn, t, up, sib.(red := red));
    Rise(Painted(m, sib.n, red), root, nil, left, n, rn, sib.(red := red), up, t);
  }

  // ---- insertion: a red subtree whose parent may be red too

  ghost predicate Rising(m: Memory, root: Ptr, nil: Ptr, c: Ctx, t: Shape, h: nat) {
    At(m, root, nil, c, t) && IsRed(t) && Ok(t, h) && COk(c, h)
  }

  /** A red parent has a black parent of its own. */
  lemma Grandparent(m: Memory, root: Ptr, nil: Ptr, c: Ctx, t: Shape, h: nat)
    requires Rising(m, root, nil, c, t, h) && CRed(c)
    ensures !c.up.Top? && !c.up.red
    ensures m[t.n].parent == c.n && c.n in m && m[c.n].parent == c.up.n && c.up.n in m
    ensures m[c.up.n].left == c.n <==> c.up.InL?
    ensures Root(Sib(c.up), nil) in m && m[Root(Sib(c.up), nil)].red == IsRed(Sib(c.up))
    ensures m[c.up.n].right == if c.up.InL? then Root(Sib(c.up), nil) else c.n
    ensures m[c.up.n].left == if c.up.InL? then c.n else Root(Sib(c.up), nil)
  {
    Seen(m, root, nil, c, t);
    SeenAbove(m, root, nil, c, t);
    var left := c.InL?;
    Rise(m, root, nil, left, c.n, c.red, Sib(c), c.up, t);
    SeenAbove(m, root, nil, c.up, Mk(left, t, c.n, c.red, Sib(c)));
  }

  /** The red uncle: three paints move the trouble two levels up. */
  lemma RedUncle(m: Memory, root: Ptr, nil: Ptr, side: bool, p: Ptr, s: Shape, left: bool, g: Ptr, u: Shape, up: Ctx, t: Shape, h: nat)
    requires Rising(m, root, nil, In(side, p, true, s, In(left, g, false, u, up)), t, h) && IsRed(u)
    ensures g in m && u.n in m && p in m
    ensures var m' := Painted(Painted(Painted(m, g, true), u.n, false), p, false);
      var t' := Mk(left, Mk(side, t, p, false, s), g, true, u.(red := false));
      && Rising(m', root, nil, up, t', h + 1)
      && Line(up, t') == Line(In(side, p, true, s, In(left, g, false, u, up)), t)
      && SameData(m, m')
  {
    RedUncleAt(m, root, nil, side, p, s, left, g, u, up, t);
    RedUncleOk(side, p, s, left, g, u, up, t, h);
    RiseLine(side, p, true, s, In(left, g, false, u, up), t);
    RiseLine(left, g, false, u, up, Mk(side, t, p, true, s));
    assert Inorder(u.(red := false)) == Inorder(u);
    assert Inorder(Mk(side, t, p, false, s)) == Inorder(Mk(side, t, p, true, s));
  }

  lemma RedUncleAt(m: Memory, root: Ptr, nil: Ptr, side: bool, p: Ptr, s: Shape, left: bool, g: Ptr, u: Shape, up: Ctx, t: Shape)
    requires At(m, root, nil, In(side, p, true, s, In(left, g, false, u, up)), t) && u.Bin?
    ensures g in m && u.n in m && p in m
    ensures var m' := Painted(Painted(Painted(m, g, true), u.n, false), p, false);
      && At(m', root, nil, up, Mk(left, Mk(side, t, p, false, s), g, true, u.(red := false)))
      && SameData(m, m')
  {
    var q := Mk(side, t, p, true, s);
    Rise(m, root, nil, side, p, true, s, In(left, g, false, u, up), t);
    PaintAbove(m, root, nil, left, g, false, u, up, q, true);
    var m1 := Painted(m, g, true);
    PaintSib(m1, root, nil, left, g, true, u, up, q, false);
    var m2 := Painted(m1, u.n, false);
    PaintTop(m2, root, nil, In(left, g, true, u.(red := false), up), q, false);
    Rise(Painted(m2, p, false), root, nil, left, g, true, u.(red := false), up, q.(red := false));
  }

  lemma RedUncleOk(side: bool, p: Ptr, s: Shape, left: bool, g: Ptr, u: Shape, up: Ctx, t: Shape, h: nat)
    requires COk(In(side, p, true, s, In(left, g, false, u, up)), h) && Ok(t, h) && IsRed(u)
    ensures Ok(Mk(left, Mk(side, t, p, false, s), g, true, u.(red := false)), h + 1) && COk(up, h + 1)
  {
    assert COk(In(left, g, false, u, up), h);
    assert Ok(u.(red := false), h + 1);
    assert Ok(Mk(side, t, p, false, s), h + 1);
  }

  /** The black uncle, once the red pair lies on the outer side: one rotation and two paints end the repair. */
  lemma BlackUncle(m: Memory, root: Ptr, nil: Ptr, left: bool, p: Ptr, s: Shape, g: Ptr, u: Shape, up: Ctx, t: Shape, h: nat)
    requires Rising(m, root, nil, In(left, p, true, s, In(left, g, false, u, up)), t, h) && !IsRed(u)
    ensures CanSpin(m, nil, !left, g) && g in Spin(m, nil, !left, g) && p in Spin(m, nil, !left, g)
    ensures g in m && m[g].parent == Parent(up, nil) && p == if left then m[g].left else m[g].right
    ensures var m' := Painted(Painted(Spin(m, nil, !left, g), g, true), p, false);
      var c' := In(left, p, false, Mk(left, s, g, true, u), up);
      && Rising(m', if up.Top? then p else root, nil, c', t, h)
      && Line(c', t) == Line(In(left, p, true, s, In(left, g, false, u, up)), t)
      && SameData(m, m')
  {
    BlackUncleAt(m, root, nil, left, p, s, g, u, up, t);
    BlackUncleOk(left, p, s, g, u, up, t, h);
    RiseLine(left, p, true, s, In(left, g, false, u, up), t);
    RiseLine(left, g, false, u, up, Mk(left, t, p, true, s));
    BlackUncleLine(left, p, s, g, u, up, t);
  }

  lemma BlackUncleAt(m: Memory, root: Ptr, nil: Ptr, left: bool, p: Ptr, s: Shape, g: Ptr, u: Shape, up: Ctx, t: Shape)
    requires At(m, root, nil, In(left, p, true, s, In(left, g, false, u, up)), t)
    ensures CanSpin(m, nil, !left, g) && g in Spin(m, nil, !left, g) && p in Spin(m, nil, !left, g)
    ensures g in m && m[g].parent == Parent(up, nil) && p == if left then m[g].left else m[g].right
    ensures var m' := Painted(Painted(Spin(m, nil, !left, g), g, true), p, false);
      && At(m', if up.Top? then p else root, nil, In(left, p, false, Mk(left, s, g, true, u), up), t)
      && SameData(m, m')
  {
    var root' := if up.Top? then p else root;
    Rise(m, root, nil, left, p, true, s, In(left, g, false, u, up), t);
    Rise(m, root, nil, left, g, false, u, up, Mk(left, t, p, true, s));
    assert Mk(left, Mk(left, t, p, true, s), g, false, u) == Mk(!left, u, g, false, Mk(!left, s, p, true, t));
    SpinKeeps(m, root, nil, up, !left, u, g, false, s, p, true, t);
    var m1 := Spin(m, nil, !left, g);
    assert Mk(!left, Mk(!left, u, g, false, s), p, true, t) == Mk(left, t, p, true, Mk(left, s, g, false, u));
    Rise(m1, root', nil, left, p, true, Mk(left, s, g, false, u), up, t);
    PaintSib(m1, root', nil, left, p, true, Mk(left, s, g, false, u), up, t, true);
    PaintAbove(Painted(m1, g, true), root', nil, left, p, true, Mk(left, s, g, true, u), up, t, false);
  }

  lemma BlackUncleOk(left: bool, p: Ptr, s: Shape, g: Ptr, u: Shape, up: Ctx, t: Shape, h: nat)
    requires COk(In(left, p, true, s, In(left, g, false, u, up)), h) && !IsRed(u)
    ensures COk(In(left, p, false, Mk(left, s, g, true, u), up), h)
  {
    assert COk(In(left, g, false, u, up), h);
  }

  lemma BlackUncleLine(left: bool, p: Ptr, s: Shape, g: Ptr, u: Shape, up: Ctx, t: Shape)
    ensures Line(In(left, p, false, Mk(left, s, g, true, u), up), t) == Line(up, Mk(left, Mk(left, t, p, true, s), g, false, u))
  {
    RiseLine(left, p, false, Mk(left, s, g, true, u), up, t);
    assert Inorder(Mk(left, t, p, false, Mk(left, s, g, true, u))) == Inorder(Mk(left, Mk(left, t, p, true, s), g, false, u));
  }

  /** The red pair on the inner side is turned to the outer side first. */
  lemma InnerChild(m: Memory, root: Ptr, nil: Ptr, left: bool, p: Ptr, s: Shape, g: Ptr, u: Shape, up: Ctx, a: Shape, z: Ptr, b: Shape, h: nat)
    requires Rising(m, root, nil, In(!left, p, true, s, In(left, g, false, u, up)), Mk(left, a, z, true, b), h)
    ensures CanSpin(m, nil, left, p) && p in m && m[p].parent == g && g != nil
    ensures var m', c' := Spin(m, nil, left, p), In(left, z, true, b, In(left, g, false, u, up));
      && p in m' && m'[p].parent == z
      && Rising(m', root, nil, c', Mk(left, s, p, true, a), h)
      && Line(c', Mk(left, s, p, true, a)) == Line(In(!left, p, true, s, In(left, g, false, u, up)), Mk(left, a, z, true, b))
      && SameData(m, m')
  {
    var up1 := In(left, g, false, u, up);
    InnerAt(m, root, nil, left, p, s, up1, a, z, b);
    InnerLine(left, p, s, up1, a, z, b);
    InnerOk(left, p, s, up1, a, z, b, h);
  }

  lemma InnerAt(m: Memory, root: Ptr, nil: Ptr, left: bool, p: Ptr, s: Shape, up: Ctx, a: Shape, z: Ptr, b: Shape)
    requires At(m, root, nil, In(!left, p, true, s, up), Mk(left, a, z, true, b)) && !up.Top?
    ensures CanSpin(m, nil, left, p) && p in m && m[p].parent == up.n && up.n != nil
    ensures var m' := Spin(m, nil, left, p);
      && p in m' && m'[p].parent == z
      && At(m', root, nil, In(left, z, true, b, up), Mk(left, s, p, true, a))
      && SameData(m, m')
  {
    var t := Mk(left, a, z, true, b);
    Rise(m, root, nil, !left, p, true, s, up, t);
    assert Mk(!left, t, p, true, s) == Mk(left, s, p, true, t);
    SpinKeeps(m, root, nil, up, left, s, p, true, a, z, true, b);
    var m' := Spin(m, nil, left, p);
    Rise(m', root, nil, left, z, true, b, up, Mk(left, s, p, true, a));
    Seen(m', root, nil, In(left, z, true, b, up), Mk(left, s, p, true, a));
  }

  lemma InnerLine(left: bool, p: Ptr, s: Shape, up: Ctx, a: Shape, z: Ptr, b: Shape)
    ensures Line(In(left, z, true, b, up), Mk(left, s, p, true, a)) == Line(In(!left, p, true, s, up), Mk(left, a, z, true, b))
  {
    RiseLine(left, z, true, b, up, Mk(left, s, p, true, a));
    RiseLine(!left, p, true, s, up, Mk(left, a, z, true, b));
    assert Inorder(Mk(!left, Mk(left, a, z, true, b), p, true, s)) == Inorder(Mk(left, Mk(left, s, p, true, a), z, true, b));
  }

  lemma InnerOk(left: bool, p: Ptr, s: Shape, up: Ctx, a: Shape, z: Ptr, b: Shape, h: nat)
    requires COk(In(!left, p, true, s, up), h) && Ok(Mk(left, a, z, true, b), h)
    ensures COk(In(left, z, true, b, up), h) && Ok(Mk(left, s, p, true, a), h)
  {}
}

/** The cases of the deletion repair: a subtree one black node short is moved up or made good. */
module RbFall {
  import opened RbShape
  import opened RbSpin
  import opened RbSteps

  /** Subtree `t` is one black node short, and its root, the sentinel too, knows its parent. */
  ghost predicate Falling(m: Memory, root: Ptr, nil: Ptr, c: Ctx, t: Shape, h: nat) {
    && At(m, root, nil, c, t) && Ok(t, h) && COk(c, h + 1)
    && Root(t, nil) in m && m[Root(t, nil)].parent == Parent(c, nil)
  }

  /** Nothing is left to repair. */
  ghost predicate Mended(m: Memory, root: Ptr, nil: Ptr, c: Ctx, t: Shape, h: nat) {
    At(m, root, nil, c, t) && Ok(t, h) && COk(c, h) && (IsRed(t) ==> !CRed(c) && !c.Top?)
  }

  /** Around the hole of a short subtree there is a sibling. */
  lemma SiblingThere(c: Ctx, h: nat)
    requires COk(c, h + 1) && !c.Top?
    ensures Sib(c).Bin?
  {}

  // ---- the sibling is red

  lemma RedSibling(m: Memory, root: Ptr, nil: Ptr, left: bool, p: Ptr, a: Shape, s: Ptr, b: Shape, up: Ctx, t: Shape, h: nat)
    requires Falling(m, root, nil, In(left, p, false, Mk(left, a, s, true, b), up), t, h)
    ensures CanSpin(m, nil, left, p) && p in Spin(m, nil, left, p) && s in Spin(m, nil, left, p)
    ensures p in m && m[p].parent == Parent(up, nil) && s == if left then m[p].right else m[p].left
    ensures var m' := Painted(Painted(Spin(m, nil, left, p), p, true), s, false);
      var c' := In(left, p, true, a, In(left, s, false, b, up));
      && Falling(m', if up.Top? then s else root, nil, c', t, h)
      && Line(c', t) == Line(In(left, p, false, Mk(left, a, s, true, b), up), t)
      && SameData(m, m')
  {
    RedSiblingAt(m, root, nil, left, p, a, s, b, up, t);
    RedSiblingOk(left, p, a, s, b, up, h);
    RedSiblingLine(left, p, a, s, b, up, t);
    var m', c' := Painted(Painted(Spin(m, nil, left, p), p, true), s, false), In(left, p, true, a, In(left, s, false, b, up));
    Seen(m', if up.Top? then s else root, nil, c', t);
  }

  lemma RedSiblingAt(m: Memory, root: Ptr, nil: Ptr, left: bool, p: Ptr, a: Shape, s: Ptr, b: Shape, up: Ctx, t: Shape)
    requires At(m, root, nil, In(left, p, false, Mk(left, a, s, true, b), up), t)
    ensures CanSpin(m, nil, left, p) && p in Spin(m, nil, left, p) && s in Spin(m, nil, left, p)
    ensures p in m && m[p].parent == Parent(up, nil) && s == if left then m[p].right else m[p].left
    ensures var m' := Painted(Painted(Spin(m, nil, left, p), p, true), s, false);
      && At(m', if up.Top? then s else root, nil, In(left, p, true, a, In(left, s, false, b, up)), t)
      && SameData(m, m') && nil in m && m'[nil] == m[nil]
  {
    var root' := if up.Top? then s else root;
    Rise(m, root, nil, left, p, false, Mk(left, a, s, true, b), up, t);
    SpinKeeps(m, root, nil, up, left, t, p, false, a, s, true, b);
    var m1 := Spin(m, nil, left, p);
    var q := Mk(left, t, p, false, a);
    Rise(m1, root', nil, left, s, true, b, up, q);
    PaintTop(m1, root', nil, In(left, s, true, b, up), q, true);
    var m2 := Painted(m1, p, true);
    PaintAbove(m2, root', nil, left, s, true, b, up, Mk(left, t, p, true, a), false);
    Rise(Painted(m2, s, false), root', nil, left, p, true, a, In(left, s, false, b, up), t);
  }

  lemma RedSiblingOk(left: bool, p: Ptr, a: Shape, s: Ptr, b: Shape, up: Ctx, h: nat)
    requires COk(In(left, p, false, Mk(left, a, s, true, b), up), h + 1)
    ensures COk(In(left, p, true, a, In(left, s, false, b, up)), h + 1)
  {
    assert Ok(Mk(left, a, s, true, b), h + 1);
    assert COk(In(left, s, false, b, up), h + 1);
  }

  lemma RedSiblingLine(left: bool, p: Ptr, a: Shape, s: Ptr, b: Shape, up: Ctx, t: Shape)
    ensures Line(In(left, p, true, a, In(left, s, false, b, up)), t) == Line(In(left, p, false, Mk(left, a, s, true, b), up), t)
  {
    RiseLine(left, p, true, a, In(left, s, false, b, up), t);
    RiseLine(left, s, false, b, up, Mk(left, t, p, true, a));
    RiseLine(left, p, false, Mk(left, a, s, true, b), up, t);
    assert Inorder(Mk(left, Mk(left, t, p, true, a), s, false, b)) == Inorder(Mk(left, t, p, false, Mk(left, a, s, true, b)));
  }

  // ---- the inner nephew is red and the outer one black

  lemma InnerNephew(m: Memory, root: Ptr, nil: Ptr, left: bool, p: Ptr, rp: bool,
                    a: Shape, n: Ptr, b: Shape, s: Ptr, d: Shape, up: Ctx, t: Shape, h: nat)
    requires Falling(m, root, nil, In(left, p, rp, Mk(left, Mk(left, a, n, true, b), s, false, d), up), t, h)
    requires !IsRed(d)
    ensures CanSpin(m, nil, !left, s) && s in Spin(m, nil, !left, s) && n in Spin(m, nil, !left, s)
    ensures s in m && m[s].parent == p && p != nil
    ensures var m' := Painted(Painted(Spin(m, nil, !left, s), s, true), n, false);
      var c' := In(left, p, rp, Mk(left, a, n, false, Mk(left, b, s, true, d)), up);
      && Falling(m', root, nil, c', t, h)
      && Line(c', t) == Line(In(left, p, rp, Mk(left, Mk(left, a, n, true, b), s, false, d), up), t)
      && SameData(m, m')
  {
    InnerNephewAt(m, root, nil, left, p, rp, a, n, b, s, d, up, t);
    InnerNephewOk(left, p, rp, a, n, b, s, d, up, h);
    InnerNephewLine(left, p, rp, a, n, b, s, d, up, t);
    var m' := Painted(Painted(Spin(m, nil, !left, s), s, true), n, false);
    Seen(m', root, nil, In(left, p, rp, Mk(left, a, n, false, Mk(left, b, s, true, d)), up), t);
  }

  lemma InnerNephewAt(m: Memory, root: Ptr, nil: Ptr, left: bool, p: Ptr, rp: bool,
                      a: Shape, n: Ptr, b: Shape, s: Ptr, d: Shape, up: Ctx, t: Shape)
    requires At(m, root, nil, In(left, p, rp, Mk(left, Mk(left, a, n, true, b), s, false, d), up), t)
    ensures CanSpin(m, nil, !left, s) && s in Spin(m, nil, !left, s) && n in Spin(m, nil, !left, s)
    ensures s in m && m[s].parent == p && p != nil
    ensures var m' := Painted(Painted(Spin(m, nil, !left, s), s, true), n, false);
      && At(m', root, nil, In(left, p, rp, Mk(left, a, n, false, Mk(left, b, s, true, d)), up), t)
      && SameData(m, m') && nil in m && m'[nil] == m[nil]
  {
    var c1 := In(!left, p, rp, t, up);
    Swap(m, root, nil, left, p, rp, Mk(left, Mk(left, a, n, true, b), s, false, d), up, t);
    assert Mk(left, Mk(left, a, n, true, b), s, false, d) == Mk(!left, d, s, false, Mk(!left, b, n, true, a));
    SpinKeeps(m, root, nil, c1, !left, d, s, false, b, n, true, a);
    var m1 := Spin(m, nil, !left, s);
    assert Mk(!left, Mk(!left, d, s, false, b), n, true, a) == Mk(left, a, n, true, Mk(left, b, s, false, d));
    Rise(m1, root, nil, !left, n, true, a, c1, Mk(left, b, s, false, d));
    PaintTop(m1, root, nil, In(!left, n, true, a, c1), Mk(left, b, s, false, d), true);
    var m2 := Painted(m1, s, true);
    Rise(m2, root, nil, !left, n, true, a, c1, Mk(left, b, s, true, d));
    PaintTop(m2, root, nil, c1, Mk(left, a, n, true, Mk(left, b, s, true, d)), false);
    Swap(Painted(m2, n, false), root, nil, left, p, rp, Mk(left, a, n, false, Mk(left, b, s, true, d)), up, t);
  }

  /** From a subtree to its sibling and back. */
  lemma Swap(m: Memory, root: Ptr, nil: Ptr, left: bool, n: Ptr, red: bool, sib: Shape, up: Ctx, t: Shape)
    ensures At(m, root, nil, In(left, n, red, sib, up), t) <==> At(m, root, nil, In(!left, n, red, t, up), sib)
    ensures Line(In(left, n, red, sib, up), t) == Line(In(!left, n, red, t, up), sib)
  {
    Rise(m, root, nil, left, n, red, sib, up, t);
    Rise(m, root, nil, !left, n, red, t, up, sib);
  }

  lemma InnerNephewOk(left: bool, p: Ptr, rp: bool, a: Shape, n: Ptr, b: Shape, s: Ptr, d: Shape, up: Ctx, h: nat)
    requires COk(In(left, p, rp, Mk(left, Mk(left, a, n, true, b), s, false, d), up), h + 1) && !IsRed(d)
    ensures COk(In(left, p, rp, Mk(left, a, n, false, Mk(left, b, s, true, d)), up), h + 1)
  {
    assert Ok(Mk(left, Mk(left, a, n, true, b), s, false, d), h + 1);
    assert Ok(Mk(left, a, n, true, b), h);
    assert Ok(Mk(left, b, s, true, d), h);
  }

  lemma InnerNephewLine(left: bool, p: Ptr, rp: bool, a: Shape, n: Ptr, b: Shape, s: Ptr, d: Shape, up: Ctx, t: Shape)
    ensures Line(In(left, p, rp, Mk(left, a, n, false, Mk(left, b, s, true, d)), up), t)
         == Line(In(left, p, rp, Mk(left, Mk(left, a, n, true, b), s, false, d), up), t)
  {
    assert Inorder(Mk(left, a, n, false, Mk(left, b, s, true, d))) == Inorder(Mk(left, Mk(left, a, n, true, b), s, false, d));
  }

  // ---- the outer nephew is red

  lemma OuterNephew(m: Memory, root: Ptr, nil: Ptr, left: bool, p: Ptr, rp: bool,
                    a: Shape, s: Ptr, d: Shape, up: Ctx, t: Shape, h: nat)
    requires Falling(m, root, nil, In(left, p, rp, Mk(left, a, s, false, d), up), t, h) && IsRed(d)
    ensures CanSpin(m, nil, left, p) && p in Spin(m, nil, left, p) && s in Spin(m, nil, left, p) && d.n in Spin(m, nil, left, p)
    ensures p in m && m[p].parent == Parent(up, nil) && s == if left then m[p].right else m[p].left
    ensures Spin(m, nil, left, p)[p].red == rp && !Spin(m, nil, left, p)[s].red
    ensures var m' := Painted(Painted(Painted(Spin(m, nil, left, p), p, false), s, rp), d.n, false);
      var t' := Mk(left, Mk(left, t, p, false, a), s, rp, d.(red := false));
      && Mended(m', if up.Top? then s else root, nil, up, t', if rp then h + 1 else h + 2)
      && Line(up, t') == Line(In(left, p, rp, Mk(left, a, s, false, d), up), t)
      && SameData(m, m')
  {
    OuterNephewAt(m, root, nil, left, p, rp, a, s, d, up, t);
    OuterNephewOk(left, p, rp, a, s, d, up, t, h);
    OuterNephewLine(left, p, rp, a, s, d, up, t);
  }

  lemma OuterNephewAt(m: Memory, root: Ptr, nil: Ptr, left: bool, p: Ptr, rp: bool, a: Shape, s: Ptr, d: Shape, up: Ctx, t: Shape)
    requires At(m, root, nil, In(left, p, rp, Mk(left, a, s, false, d), up), t) && d.Bin?
    ensures CanSpin(m, nil, left, p) && p in Spin(m, nil, left, p) && s in Spin(m, nil, left, p) && d.n in Spin(m, nil, left, p)
    ensures p in m && m[p].parent == Parent(up, nil) && s == if left then m[p].right else m[p].left
    ensures Spin(m, nil, left, p)[p].red == rp && !Spin(m, nil, left, p)[s].red
    ensures var m' := Painted(Painted(Painted(Spin(m, nil, left, p), p, false), s, rp), d.n, false);
      && At(m', if up.Top? then s else root, nil, up, Mk(left, Mk(left, t, p, false, a), s, rp, d.(red := false)))
      && SameData(m, m')
  {
    var root' := if up.Top? then s else root;
    Rise(m, root, nil, left, p, rp, Mk(left, a, s, false, d), up, t);
    SpinKeeps(m, root, nil, up, left, t, p, rp, a, s, false, d);
    var m1 := Spin(m, nil, left, p);
    var q := Mk(left, t, p, rp, a);
    Rise(m1, root', nil, left, s, false, d, up, q);
    Seen(m1, root', nil, In(left, s, false, d, up), q);
    SeenAbove(m1, root', nil, In(left, s, false, d, up), q);
    PaintTop(m1, root', nil, In(left, s, false, d, up), q, false);
    OuterPaints(Painted(m1, p, false), root', nil, left, q.(red := false), s, d, rp, up);
  }

  lemma OuterPaints(m: Memory, root: Ptr, nil: Ptr, left: bool, q: Shape, s: Ptr, d: Shape, rp: bool, up: Ctx)
    requires At(m, root, nil, In(left, s, false, d, up), q) && d.Bin?
    ensures s in m && d.n in m
    ensures var m' := Painted(Painted(m, s, rp), d.n, false);
      At(m', root, nil, up, Mk(left, q, s, rp, d.(red := false))) && SameData(m, m')
  {
    PaintAbove(m, root, nil, left, s, false, d, up, q, rp);
    var m3 := Painted(m, s, rp);
    PaintSib(m3, root, nil, left, s, rp, d, up, q, false);
    Rise(Painted(m3, d.n, false), root, nil, left, s, rp, d.(red := false), up, q);
  }

  lemma OuterNephewOk(left: bool, p: Ptr, rp: bool, a: Shape, s: Ptr, d: Shape, up: Ctx, t: Shape, h: nat)
    requires COk(In(left, p, rp, Mk(left, a, s, false, d), up), h + 1) && Ok(t, h) && IsRed(d)
    ensures var h', t' := if rp then h + 1 else h + 2, Mk(left, Mk(left, t, p, false, a), s, rp, d.(red := false));
      Ok(t', h') && COk(up, h') && (IsRed(t') ==> !CRed(up) && !up.Top?)
  {
    assert Ok(Mk(left, a, s, false, d), h + 1);
    assert Ok(d, h);
    assert Ok(d.(red := false), h + 1);
    assert Ok(Mk(left, t, p, false, a), h + 1);
  }

  lemma OuterNephewLine(left: bool, p: Ptr, rp: bool, a: Shape, s: Ptr, d: Shape, up: Ctx, t: Shape)
    requires d.Bin?
    ensures Line(up, Mk(left, Mk(left, t, p, false, a), s, rp, d.(red := false)))
         == Line(In(left, p, rp, Mk(left, a, s, false, d), up), t)
  {
    RiseLine(left, p, rp, Mk(left, a, s, false, d), up, t);
    assert Inorder(d.(red := false)) == Inorder(d);
    assert Inorder(Mk(left, Mk(left, t, p, false, a), s, rp, d.(red := false))) == Inorder(Mk(left, t, p, rp, Mk(left, a, s, false, d)));
  }

  // ---- both nephews are black

  lemma BlackNephews(m: Memory, root: Ptr, nil: Ptr, left: bool, p: Ptr, rp: bool, s: Shape, up: Ctx, t: Shape, h: nat)
    requires Falling(m, root, nil, In(left, p, rp, s, up), t, h)
    requires s.Bin? && !s.red && !IsRed(s.l) && !IsRed(s.r)
    ensures s.n in m && p in m
    ensures var m' := Painted(m, s.n, true);
      var t' := Mk(left, t, p, rp, s.(red := true));
      && Line(up, t') == Line(In(left, p, rp, s, up), t)
      && SameData(m, m') && At(m', root, nil, up, t')
      && (!rp ==> Falling(m', root, nil, up, t', h + 1))
  {
    Rise(m, root, nil, left, p, rp, s, up, t);
    PaintSib(m, root, nil, left, p, rp, s, up, t, true);
    var m', t' := Painted(m, s.n, true), Mk(left, t, p, rp, s.(red := true));
    Rise(m', root, nil, left, p, rp, s.(red := true), up, t);
    assert Inorder(s.(red := true)) == Inorder(s);
    Seen(m', root, nil, up, t');
  }

  /** With a red parent, painting the sibling red and the parent black, in either order, ends the repair. */
  lemma RedParent(m: Memory, root: Ptr, nil: Ptr, left: bool, p: Ptr, s: Shape, up: Ctx, t: Shape, h: nat)
    requires Falling(m, root, nil, In(left, p, true, s, up), t, h)
    requires s.Bin? && !s.red && !IsRed(s.l) && !IsRed(s.r)
    ensures s.n in m && p in m
    ensures var m' := Painted(Painted(m, s.n, true), p, false);
      var t' := Mk(left, t, p, false, s.(red := true));
      && m' == Painted(Painted(m, p, false), s.n, true)
      && Mended(m', root, nil, up, t', h + 1)
      && Line(up, t') == Line(In(left, p, true, s, up), t)
      && SameData(m, m')
  {
    BlackNephews(m, root, nil, left, p, true, s, up, t, h);
    PaintTop(Painted(m, s.n, true), root, nil, up, Mk(left, t, p, true, s.(red := true)), false);
    SeenAbove(m, root, nil, In(left, p, true, s, up), t);
    Distinct(m, root, nil, left, p, true, s, up, t);
    assert Inorder(s.(red := true)) == Inorder(s);
  }

  lemma Distinct(m: Memory, root: Ptr, nil: Ptr, left: bool, p: Ptr, rp: bool, s: Shape, up: Ctx, t: Shape)
    requires At(m, root, nil, In(left, p, rp, s, up), t) && s.Bin?
    ensures s.n != p
  {
    assert s.n in Nodes(s);
  }

  /** Painting the root of the short subtree black, when it is red or stands at the top, ends the repair. */
  lemma Blacken(m: Memory, root: Ptr, nil: Ptr, c: Ctx, t: Shape, h: nat)
    requires Falling(m, root, nil, c, t, h) && (c.Top? || IsRed(t))
    ensures var m', t' := Painted(m, Root(t, nil), false), if t.Bin? then t.(red := false) else t;
      && Mended(m', root, nil, c, t', if IsRed(t) then h + 1 else h)
      && Line(c, t') == Line(c, t) && SameData(m, m')
  {
    if t.Bin? {
      PaintTop(m, root, nil, c, t, false);
    } else {
      assert Painted(m, nil, false) == m;
    }
  }
}

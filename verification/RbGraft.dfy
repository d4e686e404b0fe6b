/** Hanging nodes into a tree and taking them out: what the first halves of insertion and deletion write. */
module RbGraft {
  import opened RbShape
  import opened RbSpin
  import opened RbSteps

  // ---- finding a node

  /** The colour rules, seen from a focus. */
  ghost predicate Fits(c: Ctx, t: Shape, h: nat) {
    COk(c, h) && Ok(t, h) && (IsRed(t) ==> !CRed(c) && !c.Top?)
  }

  lemma FitsBelow(left: bool, t: Shape, n: Ptr, red: bool, sib: Shape, up: Ctx, h: nat)
    requires Fits(up, Mk(left, t, n, red, sib), h)
    ensures red || h > 0
    ensures Fits(In(left, n, red, sib, up), t, if red then h else h - 1)
  {}

  /** Where node `z` stands below focus (c, t). */
  ghost function Context(c: Ctx, t: Shape, z: Ptr): Ctx
    requires z in Nodes(t)
    decreases t
  {
    if t.n == z then c
    else if z in Nodes(t.l) then Context(InL(t.n, t.red, t.r, c), t.l, z)
    else Context(InR(t.l, t.n, t.red, c), t.r, z)
  }

  ghost function Subtree(t: Shape, z: Ptr): Shape
    requires z in Nodes(t)
  {
    if t.n == z then t else if z in Nodes(t.l) then Subtree(t.l, z) else Subtree(t.r, z)
  }

  lemma {:induction false} Found(m: Memory, root: Ptr, nil: Ptr, c: Ctx, t: Shape, z: Ptr)
    requires At(m, root, nil, c, t) && z in Nodes(t)
    ensures Subtree(t, z).Bin? && Subtree(t, z).n == z
    ensures At(m, root, nil, Context(c, t, z), Subtree(t, z))
    ensures Line(Context(c, t, z), Subtree(t, z)) == Line(c, t)
    decreases t
  {
    if t.n != z {
      if z in Nodes(t.l) {
        Rise(m, root, nil, true, t.n, t.red, t.r, c, t.l);
        Found(m, root, nil, InL(t.n, t.red, t.r, c), t.l, z);
      } else {
        Rise(m, root, nil, false, t.n, t.red, t.l, c, t.r);
        Found(m, root, nil, InR(t.l, t.n, t.red, c), t.r, z);
      }
    }
  }

  lemma {:induction false} FoundFits(c: Ctx, t: Shape, z: Ptr, h: nat) returns (h': nat)
    requires Fits(c, t, h) && z in Nodes(t)
    ensures Fits(Context(c, t, z), Subtree(t, z), h')
    decreases t
  {
    h' := h;
    if t.n != z {
      if z in Nodes(t.l) {
        FitsBelow(true, t.l, t.n, t.red, t.r, c, h);
        h' := FoundFits(InL(t.n, t.red, t.r, c), t.l, z, if t.red then h else h - 1);
      } else {
        FitsBelow(false, t.r, t.n, t.red, t.l, c, h);
        h' := FoundFits(InR(t.l, t.n, t.red, c), t.r, z, if t.red then h else h - 1);
      }
    }
  }

  // ---- the leftmost node

  /** Context `a` hung into context `b`. */
  function Append(a: Ctx, b: Ctx): Ctx {
    match a
    case Top => b
    case InL(n, red, r, up) => InL(n, red, r, Append(up, b))
    case InR(l, n, red, up) => InR(l, n, red, Append(up, b))
  }

  ghost function SpineFrom(c: Ctx, t: Shape): Ctx
    requires t.Bin?
    decreases t
  {
    if t.l.Leaf? then c else SpineFrom(InL(t.n, t.red, t.r, c), t.l)
  }

  ghost function Leftmost(t: Shape): (r: Shape)
    requires t.Bin?
    ensures r.Bin? && r.l.Leaf?
  {
    if t.l.Leaf? then t else Leftmost(t.l)
  }

  /** A path that only goes left. */
  ghost predicate LeftOnly(c: Ctx) {
    c.Top? || (c.InL? && LeftOnly(c.up))
  }

  lemma {:induction false} SpineIs(c: Ctx, t: Shape)
    requires t.Bin? && LeftOnly(c)
    ensures LeftOnly(SpineFrom(c, t))
    ensures Plug(SpineFrom(c, t), Leftmost(t)) == Plug(c, t)
    ensures SpineFrom(c, t).Top? <==> c.Top? && t.l.Leaf?
    ensures Inorder(t) != [] && Leftmost(t).n == Inorder(t)[0]
    decreases t
  {
    if t.l.Bin? {
      SpineIs(InL(t.n, t.red, t.r, c), t.l);
    }
  }

  lemma {:induction false} LeftOnlyBefore(c: Ctx, b: Ctx)
    requires LeftOnly(c)
    ensures Before(Append(c, b)) == Before(b)
    decreases c
  {
    if c.InL? {
      LeftOnlyBefore(c.up, b);
    }
  }

  lemma {:induction false} AppendAt(m: Memory, root: Ptr, nil: Ptr, a: Ctx, b: Ctx, t: Shape)
    ensures At(m, root, nil, Append(a, b), t) <==> At(m, root, nil, b, Plug(a, t))
    ensures Line(Append(a, b), t) == Line(b, Plug(a, t))
    decreases a
  {
    match a
    case Top =>
    case InL(n, red, r, up) =>
      Rise(m, root, nil, true, n, red, r, Append(up, b), t);
      AppendAt(m, root, nil, up, b, Bin(t, n, red, r));
    case InR(l, n, red, up) =>
      Rise(m, root, nil, false, n, red, l, Append(up, b), t);
      AppendAt(m, root, nil, up, b, Bin(l, n, red, t));
  }

  lemma {:induction false} SpineFits(c: Ctx, t: Shape, b: Ctx, h: nat) returns (h': nat)
    requires t.Bin? && Fits(Append(c, b), t, h)
    ensures Fits(Append(SpineFrom(c, t), b), Leftmost(t), h')
    decreases t
  {
    h' := h;
    if t.l.Bin? {
      FitsBelow(true, t.l, t.n, t.red, t.r, Append(c, b), h);
      h' := SpineFits(InL(t.n, t.red, t.r, c), t.l, b, if t.red then h else h - 1);
    }
  }

  /** A context may carry another node where it carries `z`, if the colour is the same. */
  lemma {:induction false} SameColours(a: Ctx, b: Ctx, b': Ctx, h: nat)
    requires COk(Append(a, b), h) && CRed(b) == CRed(b') && b.Top? == b'.Top?
    requires forall k: nat :: COk(b, k) ==> COk(b', k)
    ensures COk(Append(a, b'), h) && CRed(Append(a, b)) == CRed(Append(a, b')) && Append(a, b).Top? == Append(a, b').Top?
    decreases a
  {
    match a
    case Top =>
    case InL(n, red, r, up) => SameColours(up, b, b', if red then h else h + 1);
    case InR(l, n, red, up) => SameColours(up, b, b', if red then h else h + 1);
  }

  // ---- transplant

  function Transplanted(m: Memory, nil: Ptr, u: Ptr, v: Ptr): Memory
    requires u in m && v in m && m[u].parent in m
  {
    var m1 := Redirect(m, nil, m[u].parent, u, v);
    m1[v := m1[v].(parent := m1[u].parent)]
  }

  ghost predicate Grafted(m: Memory, m': Memory, nil: Ptr, c: Ctx, v: Ptr) {
    && SameData(m, m') && v in m
    && (forall q :: q in m && q != v && (c.Top? || q != c.n) ==> m'[q] == m[q])
    && m'[v] == m[v].(parent := Parent(c, nil))
    && (c.InL? ==> c.n in m && m'[c.n] == m[c.n].(left := v))
    && (c.InR? ==> c.n in m && m'[c.n] == m[c.n].(right := v))
  }

  lemma TransplantEffect(m: Memory, root: Ptr, nil: Ptr, c: Ctx, t: Shape, v: Ptr)
    requires At(m, root, nil, c, t) && t.Bin? && v in m && v !in CNodes(c)
    ensures t.n in m && m[t.n].parent in m && m[t.n].parent == Parent(c, nil)
    ensures Grafted(m, Transplanted(m, nil, t.n, v), nil, c, v)
  {
    OnlyChild(m, root, nil, c, t);
    assert t.n in Nodes(t);
  }

  /** The subtree below `v` takes the place of `t`. */
  lemma Graft(m: Memory, root: Ptr, m': Memory, nil: Ptr, c: Ctx, t: Shape, s: Shape, was: Ptr)
    requires At(m, root, nil, c, t) && Grafted(m, m', nil, c, Root(s, nil))
    requires Once(s) && Nodes(s) !! CNodes(c) && nil !in Nodes(s) && Linked(m, nil, s, was)
    ensures At(m', if c.Top? then Root(s, nil) else root, nil, c, s)
    ensures m'[Root(s, nil)].parent == Parent(c, nil)
  {
    Reparent(m, m', nil, s, was, Parent(c, nil));
    Rehang(m, m', nil, c, Root(t, nil), Root(s, nil));
  }

  // ---- the successor takes the place of a node with two children

  /** What deletion writes from the second transplant on. */
  function Promoted(m: Memory, nil: Ptr, z: Ptr, y: Ptr): Memory
    requires z in m && y in m && m[z].parent in m
    requires Transplanted(m, nil, z, y)[z].left in m && y != nil
  {
    var m1 := Transplanted(m, nil, z, y);
    var m2 := m1[y := m1[y].(left := m1[z].left)];
    var m3 := m2[m2[y].left := m2[m2[y].left].(parent := y)];
    m3[y := m3[y].(red := m3[z].red)]
  }

  /** Before that: z is still hung in at the hole of `c`, y owns the right subtree. */
  ghost predicate Ready(m: Memory, root: Ptr, nil: Ptr, c: Ctx, l: Shape, z: Ptr, red: bool, y: Ptr, r: Shape) {
    && nil in m && !m[nil].red && l.Bin? && z in m && y in m && z != y && z != nil && y != nil
    && COnce(c) && Once(l) && Once(r) && Nodes(l) !! Nodes(r) && Nodes(l) !! CNodes(c) && Nodes(r) !! CNodes(c)
    && nil !in Nodes(l) && nil !in Nodes(r) && nil !in CNodes(c)
    && z !in Nodes(l) && z !in Nodes(r) && z !in CNodes(c)
    && y !in Nodes(l) && y !in Nodes(r) && y !in CNodes(c)
    && CLinked(m, nil, c, z) && root == RootOf(c, z)
    && m[z].parent == Parent(c, nil) && m[z].left == l.n && m[z].red == red
    && Linked(m, nil, l, z)
    && m[y].right == Root(r, nil) && Linked(m, nil, r, y)
  }

  ghost predicate PromotedBy(m: Memory, m': Memory, nil: Ptr, c: Ctx, l: Ptr, y: Ptr, red: bool) {
    && SameData(m, m') && y in m && l in m
    && (forall q :: q in m && q != y && q != l && (c.Top? || q != c.n) ==> m'[q] == m[q])
    && m'[y] == m[y].(parent := Parent(c, nil), left := l, red := red)
    && m'[l] == m[l].(parent := y)
    && (c.InL? ==> c.n in m && m'[c.n] == m[c.n].(left := y))
    && (c.InR? ==> c.n in m && m'[c.n] == m[c.n].(right := y))
  }

  lemma PromoteEffect(m: Memory, root: Ptr, nil: Ptr, c: Ctx, l: Shape, z: Ptr, red: bool, y: Ptr, r: Shape)
    requires Ready(m, root, nil, c, l, z, red, y, r)
    ensures m[z].parent in m && Transplanted(m, nil, z, y)[z].left in m
    ensures PromotedBy(m, Promoted(m, nil, z, y), nil, c, l.n, y, red)
  {
    ReadyFacts(m, root, nil, c, l, z, red, y, r);
    PromoteWrites(m, nil, c, z, y, l.n);
  }

  lemma ReadyFacts(m: Memory, root: Ptr, nil: Ptr, c: Ctx, l: Shape, z: Ptr, red: bool, y: Ptr, r: Shape)
    requires Ready(m, root, nil, c, l, z, red, y, r)
    ensures m[z].parent in m && l.n in m && l.n != z && l.n != y && l.n != nil
    ensures !c.Top? ==> c.n in m && c.n != z && c.n != y && c.n != l.n && c.n != nil
    ensures c.InL? ==> m[c.n].left == z
    ensures c.InR? ==> m[c.n].right == z && m[c.n].left != z
  {
    assert l.n in Nodes(l);
    if c.InR? {
      assert c.l.Bin? ==> c.l.n in Nodes(c.l);
    }
  }

  lemma PromoteWrites(m: Memory, nil: Ptr, c: Ctx, z: Ptr, y: Ptr, l: Ptr)
    requires z in m && y in m && z != y && z != nil && y != nil && nil in m
    requires m[z].parent == Parent(c, nil) && m[z].left == l
    requires m[z].parent in m && l in m && l != z && l != y && l != nil
    requires !c.Top? ==> c.n in m && c.n != z && c.n != y && c.n != l && c.n != nil
    requires c.InL? ==> m[c.n].left == z
    requires c.InR? ==> m[c.n].right == z && m[c.n].left != z
    ensures Transplanted(m, nil, z, y)[z].left in m
    ensures PromotedBy(m, Promoted(m, nil, z, y), nil, c, l, y, m[z].red)
  {
    PromoteLinks(m, Transplanted(m, nil, z, y), nil, c, z, y, l);
  }

  lemma PromoteLinks(m: Memory, m1: Memory, nil: Ptr, c: Ctx, z: Ptr, y: Ptr, l: Ptr)
    requires Grafted(m, m1, nil, c, y) && z in m && z != y && m[z].left == l && l in m && l != z && l != y
    requires !c.Top? ==> c.n != z && c.n != y && c.n != l
    ensures m1[z] == m[z] && y in m1 && l in m1
    ensures var m2 := m1[y := m1[y].(left := l)];
      var m3 := m2[l := m2[l].(parent := y)];
      PromotedBy(m, m3[y := m3[y].(red := m[z].red)], nil, c, l, y, m[z].red)
  {}

  lemma PromoteAt(m: Memory, root: Ptr, m': Memory, nil: Ptr, c: Ctx, l: Shape, z: Ptr, red: bool, y: Ptr, r: Shape)
    requires Ready(m, root, nil, c, l, z, red, y, r) && PromotedBy(m, m', nil, c, l.n, y, red)
    ensures Linked(m', nil, Bin(l, y, red, r), Parent(c, nil)) && CLinked(m', nil, c, y) && m'[nil] == m[nil]
  {
    ReadyFacts(m, root, nil, c, l, z, red, y, r);
    Reparent(m, m', nil, l, z, y);
    LinkedFrame(m, m', nil, r, y);
    Rehang(m, m', nil, c, z, y);
  }

  lemma Promote(m: Memory, root: Ptr, nil: Ptr, c: Ctx, l: Shape, z: Ptr, red: bool, y: Ptr, r: Shape)
    requires Ready(m, root, nil, c, l, z, red, y, r)
    ensures m[z].parent in m && Transplanted(m, nil, z, y)[z].left in m
    ensures At(Promoted(m, nil, z, y), if c.Top? then y else root, nil, c, Bin(l, y, red, r))
    ensures Promoted(m, nil, z, y)[nil] == m[nil] && SameData(m, Promoted(m, nil, z, y))
  {
    PromoteEffect(m, root, nil, c, l, z, red, y, r);
    PromoteAt(m, root, Promoted(m, nil, z, y), nil, c, l, z, red, y, r);
  }

  // ---- a new leaf

  ghost predicate Hung(m: Memory, m': Memory, nil: Ptr, c: Ctx, z: Ptr) {
    && SameData(m, m') && z in m
    && (forall q :: q in m && q != z && (c.Top? || q != c.n) ==> m'[q] == m[q])
    && m'[z] == m[z].(parent := Parent(c, nil), left := nil, right := nil, red := true)
    && (c.InL? ==> c.n in m && m'[c.n] == m[c.n].(left := z))
    && (c.InR? ==> c.n in m && m'[c.n] == m[c.n].(right := z))
  }

  lemma Hang(m: Memory, root: Ptr, m': Memory, nil: Ptr, c: Ctx, z: Ptr)
    requires At(m, root, nil, c, Leaf) && Hung(m, m', nil, c, z) && z !in CNodes(c) && z != nil
    ensures At(m', if c.Top? then z else root, nil, c, Bin(Leaf, z, true, Leaf))
  {
    Rehang(m, m', nil, c, nil, z);
  }
}

/** Left and right exchanged: what holds of a tree holds of its mirror image. */
module RbMirror {
  import opened RbShape

  function MirrorNode(n: Node): Node {
    n.(left := n.right, right := n.left)
  }

  function MirrorMem(m: Memory): Memory {
    map p | p in m :: MirrorNode(m[p])
  }

  function Mirror(t: Shape): Shape {
    match t
    case Leaf => Leaf
    case Bin(l, n, red, r) => Bin(Mirror(r), n, red, Mirror(l))
  }

  function MirrorCtx(c: Ctx): Ctx {
    match c
    case Top => Top
    case InL(n, red, r, up) => InR(Mirror(r), n, red, MirrorCtx(up))
    case InR(l, n, red, up) => InL(n, red, Mirror(l), MirrorCtx(up))
  }

  lemma {:induction false} MirrorShape(t: Shape)
    ensures Nodes(Mirror(t)) == Nodes(t) && (Once(Mirror(t)) <==> Once(t)) && Mirror(Mirror(t)) == t
  {
    match t
    case Leaf =>
    case Bin(l, n, red, r) =>
      MirrorShape(l);
      MirrorShape(r);
  }

  lemma {:induction false} MirrorContext(c: Ctx)
    ensures CNodes(MirrorCtx(c)) == CNodes(c) && (COnce(MirrorCtx(c)) <==> COnce(c)) && MirrorCtx(MirrorCtx(c)) == c
  {
    match c
    case Top =>
    case InL(n, red, r, up) =>
      MirrorShape(r);
      MirrorContext(up);
    case InR(l, n, red, up) =>
      MirrorShape(l);
      MirrorContext(up);
  }

  lemma {:induction false} MirrorLinked(m: Memory, nil: Ptr, t: Shape, up: Ptr)
    ensures Linked(MirrorMem(m), nil, Mirror(t), up) <==> Linked(m, nil, t, up)
  {
    match t
    case Leaf =>
    case Bin(l, n, red, r) =>
      MirrorLinked(m, nil, l, n);
      MirrorLinked(m, nil, r, n);
  }

  lemma {:induction false} MirrorCLinked(m: Memory, nil: Ptr, c: Ctx, hole: Ptr)
    ensures CLinked(MirrorMem(m), nil, MirrorCtx(c), hole) <==> CLinked(m, nil, c, hole)
  {
    match c
    case Top =>
    case InL(n, red, r, up) =>
      MirrorLinked(m, nil, r, n);
      MirrorCLinked(m, nil, up, n);
    case InR(l, n, red, up) =>
      MirrorLinked(m, nil, l, n);
      MirrorCLinked(m, nil, up, n);
  }

  lemma {:induction false} MirrorRootOf(c: Ctx, t: Ptr)
    ensures RootOf(MirrorCtx(c), t) == RootOf(c, t)
    decreases c
  {
    match c
    case Top =>
    case InL(n, red, r, up) => MirrorRootOf(up, n);
    case InR(l, n, red, up) => MirrorRootOf(up, n);
  }
}

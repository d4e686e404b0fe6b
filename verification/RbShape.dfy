/** Red-black trees as the nodes in memory spell them out: shapes, contexts with a hole, and the links between nodes. */
module RbShape {

  /** The address of a node. */
  type Ptr = nat

  /** The fields of a VmaStruct; `start` is what vma_compare compares. */
  datatype Vma = Vma(start: nat, end: nat, flags: bv32)

  /** rbtree_node_t and the VmaStruct it is embedded in. */
  datatype Node = Node(red: bool, parent: Ptr, left: Ptr, right: Ptr, vma: Vma)

  type Memory = map<Ptr, Node>

  /** A subtree: which node is where and what colour it has. The sentinel is Leaf. */
  datatype Shape = Leaf | Bin(l: Shape, n: Ptr, red: bool, r: Shape)

  /** The rest of the tree around a subtree. */
  datatype Ctx =
    | Top
    | InL(n: Ptr, red: bool, r: Shape, up: Ctx)   // the hole is the left child of n
    | InR(l: Shape, n: Ptr, red: bool, up: Ctx)   // the hole is the right child of n

  function Nodes(t: Shape): set<Ptr> {
    match t
    case Leaf => {}
    case Bin(l, n, _, r) => Nodes(l) + {n} + Nodes(r)
  }

  function CNodes(c: Ctx): set<Ptr> {
    match c
    case Top => {}
    case InL(n, _, r, up) => {n} + Nodes(r) + CNodes(up)
    case InR(l, n, _, up) => Nodes(l) + {n} + CNodes(up)
  }

  function Inorder(t: Shape): seq<Ptr> {
    match t
    case Leaf => []
    case Bin(l, n, _, r) => Inorder(l) + [n] + Inorder(r)
  }

  /** What stands before and after the hole. */
  function Before(c: Ctx): seq<Ptr> {
    match c
    case Top => []
    case InL(_, _, _, up) => Before(up)
    case InR(l, n, _, up) => Before(up) + Inorder(l) + [n]
  }

  function After(c: Ctx): seq<Ptr> {
    match c
    case Top => []
    case InL(n, _, r, up) => [n] + Inorder(r) + After(up)
    case InR(_, _, _, up) => After(up)
  }

  function Plug(c: Ctx, t: Shape): Shape
    decreases c
  {
    match c
    case Top => t
    case InL(n, red, r, up) => Plug(up, Bin(t, n, red, r))
    case InR(l, n, red, up) => Plug(up, Bin(l, n, red, t))
  }

  lemma {:induction false} PlugInorder(c: Ctx, t: Shape)
    ensures Inorder(Plug(c, t)) == Before(c) + Inorder(t) + After(c)
    decreases c
  {
    match c
    case Top =>
    case InL(n, red, r, up) => PlugInorder(up, Bin(t, n, red, r));
    case InR(l, n, red, up) => PlugInorder(up, Bin(l, n, red, t));
  }

  lemma {:induction false} PlugNodes(c: Ctx, t: Shape)
    ensures Nodes(Plug(c, t)) == CNodes(c) + Nodes(t)
    decreases c
  {
    match c
    case Top =>
    case InL(n, red, r, up) => PlugNodes(up, Bin(t, n, red, r));
    case InR(l, n, red, up) => PlugNodes(up, Bin(l, n, red, t));
  }

  // ---- every node occurs once

  predicate Once(t: Shape) {
    match t
    case Leaf => true
    case Bin(l, n, _, r) => Once(l) && Once(r) && n !in Nodes(l) && n !in Nodes(r) && Nodes(l) !! Nodes(r)
  }

  predicate COnce(c: Ctx) {
    match c
    case Top => true
    case InL(n, _, r, up) => Once(r) && COnce(up) && n !in Nodes(r) && n !in CNodes(up) && Nodes(r) !! CNodes(up)
    case InR(l, n, _, up) => Once(l) && COnce(up) && n !in Nodes(l) && n !in CNodes(up) && Nodes(l) !! CNodes(up)
  }

  lemma {:induction false} PlugOnce(c: Ctx, t: Shape)
    ensures Once(Plug(c, t)) <==> COnce(c) && Once(t) && Nodes(t) !! CNodes(c)
    decreases c
  {
    match c
    case Top =>
    case InL(n, red, r, up) => PlugOnce(up, Bin(t, n, red, r));
    case InR(l, n, red, up) => PlugOnce(up, Bin(l, n, red, t));
  }

  // ---- the links in memory

  function Root(t: Shape, nil: Ptr): Ptr {
    if t.Leaf? then nil else t.n
  }

  function Parent(c: Ctx, nil: Ptr): Ptr {
    if c.Top? then nil else c.n
  }

  predicate Linked(m: Memory, nil: Ptr, t: Shape, up: Ptr) {
    match t
    case Leaf => true
    case Bin(l, n, red, r) =>
      && n in m && m[n].parent == up && m[n].left == Root(l, nil) && m[n].right == Root(r, nil) && m[n].red == red
      && Linked(m, nil, l, n) && Linked(m, nil, r, n)
  }

  predicate CLinked(m: Memory, nil: Ptr, c: Ctx, hole: Ptr) {
    match c
    case Top => true
    case InL(n, red, r, up) =>
      && n in m && m[n].parent == Parent(up, nil) && m[n].left == hole && m[n].right == Root(r, nil) && m[n].red == red
      && Linked(m, nil, r, n) && CLinked(m, nil, up, n)
    case InR(l, n, red, up) =>
      && n in m && m[n].parent == Parent(up, nil) && m[n].left == Root(l, nil) && m[n].right == hole && m[n].red == red
      && Linked(m, nil, l, n) && CLinked(m, nil, up, n)
  }

  /** Memory outside `changed` has the same links and colours. */
  predicate Agree(m: Memory, m': Memory, nodes: set<Ptr>) {
    forall p :: p in nodes && p in m ==>
      p in m' && m'[p].parent == m[p].parent && m'[p].left == m[p].left && m'[p].right == m[p].right && m'[p].red == m[p].red
  }

  lemma {:induction false} LinkedFrame(m: Memory, m': Memory, nil: Ptr, t: Shape, up: Ptr)
    requires Linked(m, nil, t, up) && Agree(m, m', Nodes(t))
    ensures Linked(m', nil, t, up)
  {
    match t
    case Leaf =>
    case Bin(l, n, red, r) =>
      LinkedFrame(m, m', nil, l, n);
      LinkedFrame(m, m', nil, r, n);
  }

  lemma {:induction false} CLinkedFrame(m: Memory, m': Memory, nil: Ptr, c: Ctx, hole: Ptr)
    requires CLinked(m, nil, c, hole) && Agree(m, m', CNodes(c))
    ensures CLinked(m', nil, c, hole)
  {
    match c
    case Top =>
    case InL(n, red, r, up) =>
      LinkedFrame(m, m', nil, r, n);
      CLinkedFrame(m, m', nil, up, n);
    case InR(l, n, red, up) =>
      LinkedFrame(m, m', nil, l, n);
      CLinkedFrame(m, m', nil, up, n);
  }

  /** Giving a subtree another parent changes only the parent field of its root. */
  lemma Reparent(m: Memory, m': Memory, nil: Ptr, t: Shape, was: Ptr, now: Ptr)
    requires Linked(m, nil, t, was) && Once(t)
    requires t.Bin? ==> Agree(m, m', Nodes(t) - {t.n}) && t.n in m' && m'[t.n] == m[t.n].(parent := now)
    ensures Linked(m', nil, t, now)
  {
    if t.Bin? {
      LinkedFrame(m, m', nil, t.l, t.n);
      LinkedFrame(m, m', nil, t.r, t.n);
    }
  }

  /** Pointing the owner of the hole at another node changes only that link. */
  lemma Rehang(m: Memory, m': Memory, nil: Ptr, c: Ctx, was: Ptr, now: Ptr)
    requires CLinked(m, nil, c, was) && COnce(c)
    requires !c.Top? ==> Agree(m, m', CNodes(c) - {c.n}) && c.n in m'
    requires c.InL? ==> m'[c.n] == m[c.n].(left := now)
    requires c.InR? ==> m'[c.n] == m[c.n].(right := now)
    ensures CLinked(m', nil, c, now)
  {
    match c
    case Top =>
    case InL(n, red, r, up) =>
      LinkedFrame(m, m', nil, r, n);
      CLinkedFrame(m, m', nil, up, n);
    case InR(l, n, red, up) =>
      LinkedFrame(m, m', nil, l, n);
      CLinkedFrame(m, m', nil, up, n);
  }

  /** The node a tree's `root` field must hold when `t` sits in `c`. */
  function RootOf(c: Ctx, t: Ptr): Ptr
    decreases c
  {
    match c
    case Top => t
    case InL(n, _, _, up) => RootOf(up, n)
    case InR(_, n, _, up) => RootOf(up, n)
  }

  lemma {:induction false} PlugLinked(m: Memory, nil: Ptr, c: Ctx, t: Shape)
    ensures Linked(m, nil, Plug(c, t), nil) <==> Linked(m, nil, t, Parent(c, nil)) && CLinked(m, nil, c, Root(t, nil))
    ensures Root(Plug(c, t), nil) == RootOf(c, Root(t, nil))
    decreases c
  {
    match c
    case Top =>
    case InL(n, red, r, up) => PlugLinked(m, nil, up, Bin(t, n, red, r));
    case InR(l, n, red, up) => PlugLinked(m, nil, up, Bin(l, n, red, t));
  }

  // ---- colours

  function IsRed(t: Shape): bool {
    t.Bin? && t.red
  }

  function CRed(c: Ctx): bool {
    !c.Top? && c.red
  }

  /** No red node has a red child, and every path down has `h` black nodes. */
  predicate Ok(t: Shape, h: nat) {
    match t
    case Leaf => h == 0
    case Bin(l, _, red, r) =>
      if red then Ok(l, h) && Ok(r, h) && !IsRed(l) && !IsRed(r)
      else h > 0 && Ok(l, h - 1) && Ok(r, h - 1)
  }

  /** Around a hole that expects a black subtree of black height `h`, the same holds, and the root is black. */
  predicate COk(c: Ctx, h: nat)
    decreases c
  {
    match c
    case Top => true
    case InL(_, red, r, up) =>
      Ok(r, h) && COk(up, if red then h else h + 1) && (red ==> !IsRed(r) && !CRed(up) && !up.Top?)
    case InR(l, _, red, up) =>
      Ok(l, h) && COk(up, if red then h else h + 1) && (red ==> !IsRed(l) && !CRed(up) && !up.Top?)
  }

  /** A red-black tree: black root, no red-red edge, equal black heights. */
  ghost predicate RedBlack(t: Shape) {
    !IsRed(t) && exists h :: Ok(t, h)
  }

  lemma {:induction false} PlugOk(c: Ctx, t: Shape, h: nat)
    requires COk(c, h) && Ok(t, h) && (IsRed(t) ==> !CRed(c) && !c.Top?)
    ensures RedBlack(Plug(c, t))
    decreases c
  {
    match c
    case Top =>
    case InL(n, red, r, up) => PlugOk(up, Bin(t, n, red, r), if red then h else h + 1);
    case InR(l, n, red, up) => PlugOk(up, Bin(l, n, red, t), if red then h else h + 1);
  }
}

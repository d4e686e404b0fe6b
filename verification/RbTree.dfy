/** rbtree.c: a red-black tree over nodes in memory, with parent links and a sentinel. */
module RbTree {
  import opened Lists
  import opened RbShape
  import opened RbSpin
  import opened RbSteps
  import opened RbFall
  import opened RbGraft
  import opened RbOrder

  class Tree {
    var mem: Memory
    var root: Ptr
    const nil: Ptr
    ghost var shape: Shape

    /** The links in memory spell out `shape`, which keeps the colour rules. */
    ghost predicate Shaped()
      reads this
    {
      At(mem, root, nil, Top, shape) && RedBlack(shape)
    }

    ghost predicate Valid()
      reads this
    {
      Shaped() && Sorted(mem, Inorder(shape))
    }

    /** An empty tree: the sentinel alone. */
    constructor (sentinel: Ptr, vma: Vma)
      ensures Valid() && Inorder(shape) == [] && nil == sentinel && mem == map[nil := Node(false, nil, nil, nil, vma)]
    {
      nil := sentinel;
      root := sentinel;
      mem := map[sentinel := Node(false, sentinel, sentinel, sentinel, vma)];
      shape := Leaf;
      assert Ok(Leaf, 0);
    }

    method LeftRotate(x: Ptr)
      requires CanSpin(mem, nil, true, x)
      modifies this`mem, this`root
      ensures mem == Spin(old(mem), nil, true, x)
      ensures root == if old(mem[x].parent) == nil then old(mem[x].right) else old(root)
    {
      var right := mem[x].right;
      var parent := mem[x].parent;
      var rightLeft := mem[right].left;
      mem := mem[right := mem[right].(parent := parent)];
      if parent != nil {
        if mem[parent].left == x {
          mem := mem[parent := mem[parent].(left := right)];
        } else {
          mem := mem[parent := mem[parent].(right := right)];
        }
      } else {
        root := right;
      }
      mem := mem[right := mem[right].(left := x)];
      mem := mem[x := mem[x].(parent := right)];
      mem := mem[x := mem[x].(right := rightLeft)];
      if rightLeft != nil {
        mem := mem[rightLeft := mem[rightLeft].(parent := x)];
      }
    }

    method RightRotate(x: Ptr)
      requires CanSpin(mem, nil, false, x)
      modifies this`mem, this`root
      ensures mem == Spin(old(mem), nil, false, x)
      ensures root == if old(mem[x].parent) == nil then old(mem[x].left) else old(root)
    {
      var left := mem[x].left;
      var parent := mem[x].parent;
      var leftRight := mem[left].right;
      mem := mem[left := mem[left].(parent := parent)];
      if parent != nil {
        if mem[parent].left == x {
          mem := mem[parent := mem[parent].(left := left)];
        } else {
          mem := mem[parent := mem[parent].(right := left)];
        }
      } else {
        root := left;
      }
      mem := mem[left := mem[left].(right := x)];
      mem := mem[x := mem[x].(parent := left)];
      mem := mem[x := mem[x].(left := leftRight)];
      if leftRight != nil {
        mem := mem[leftRight := mem[leftRight].(parent := x)];
      }
    }

    // ---- insertion

    /** Parent and uncle are red: paint them black and the grandparent red. */
    method PaintUncle(p: Ptr, uncle: Ptr, g: Ptr, ghost c: Ctx, ghost t: Shape, ghost h: nat)
      returns (ghost c': Ctx, ghost t': Shape)
      requires Rising(mem, root, nil, c, t, h) && CRed(c) && !c.up.Top? && IsRed(Sib(c.up))
      requires p == c.n && g == c.up.n && uncle == Sib(c.up).n
      modifies this`mem
      ensures Rising(mem, root, nil, c', t', h + 1) && t'.n == g && c' == c.up.up
      ensures Line(c', t') == Line(c, t) && SameData(old(mem), mem)
    {
      Grandparent(mem, root, nil, c, t, h);
      ghost var s, u := Sib(c), Sib(c.up);
      RedUncle(mem, root, nil, c.InL?, p, s, c.up.InL?, g, u, c.up.up, t, h);
      mem := Painted(mem, g, true);
      mem := Painted(mem, uncle, false);
      mem := Painted(mem, p, false);
      c', t' := c.up.up, Mk(c.up.InL?, Mk(c.InL?, t, p, false, s), g, true, u.(red := false));
    }

    /** Of the red pair z, p below the left child of g, bring the inner case to the outer one. */
    method TurnLeft(z: Ptr, p: Ptr, ghost c: Ctx, ghost t: Shape, ghost h: nat)
      returns (z': Ptr, p': Ptr, ghost c': Ctx, ghost t': Shape)
      requires Rising(mem, root, nil, c, t, h) && t.n == z && CRed(c) && c.n == p && c.up.InL? && !c.up.red
      modifies this`mem, this`root
      ensures Rising(mem, root, nil, c', t', h) && t'.n == z' && c'.InL? && c'.n == p' && c'.red && c'.up == c.up
      ensures Line(c', t') == Line(c, t) && SameData(old(mem), mem)
    {
      z', p', c', t' := z, p, c, t;
      SeenAbove(mem, root, nil, c, t);
      if z == mem[p].right {
        InnerChild(mem, root, nil, true, p, Sib(c), c.up.n, Sib(c.up), c.up.up, t.l, z, t.r, h);
        LeftRotate(p);
        z' := p;
        p' := mem[z'].parent;
        c', t' := InL(z, true, t.r, c.up), Bin(Sib(c), p, true, t.l);
      }
    }

    method TurnRight(z: Ptr, p: Ptr, ghost c: Ctx, ghost t: Shape, ghost h: nat)
      returns (z': Ptr, p': Ptr, ghost c': Ctx, ghost t': Shape)
      requires Rising(mem, root, nil, c, t, h) && t.n == z && CRed(c) && c.n == p && c.up.InR? && !c.up.red
      modifies this`mem, this`root
      ensures Rising(mem, root, nil, c', t', h) && t'.n == z' && c'.InR? && c'.n == p' && c'.red && c'.up == c.up
      ensures Line(c', t') == Line(c, t) && SameData(old(mem), mem)
    {
      z', p', c', t' := z, p, c, t;
      SeenAbove(mem, root, nil, c, t);
      if z == mem[p].left {
        InnerChild(mem, root, nil, false, p, Sib(c), c.up.n, Sib(c.up), c.up.up, t.r, z, t.l, h);
        RightRotate(p);
        z' := p;
        p' := mem[z'].parent;
        c', t' := InR(t.l, z, true, c.up), Bin(t.r, p, true, Sib(c));
      }
    }

    /** The uncle is black and the red pair lies on the outer side: lift p above g. */
    method LiftLeft(p: Ptr, g: Ptr, ghost c: Ctx, ghost t: Shape, ghost h: nat) returns (ghost c': Ctx)
      requires Rising(mem, root, nil, c, t, h) && c.InL? && c.up.InL? && c.red && !c.up.red && !IsRed(Sib(c.up))
      requires p == c.n && g == c.up.n
      modifies this`mem, this`root
      ensures Rising(mem, root, nil, c', t, h) && !CRed(c')
      ensures Line(c', t) == Line(c, t) && SameData(old(mem), mem)
    {
      BlackUncle(mem, root, nil, true, p, Sib(c), g, Sib(c.up), c.up.up, t, h);
      RightRotate(g);
      mem := Painted(mem, g, true);
      mem := Painted(mem, p, false);
      c' := InL(p, false, Bin(Sib(c), g, true, Sib(c.up)), c.up.up);
    }

    method LiftRight(p: Ptr, g: Ptr, ghost c: Ctx, ghost t: Shape, ghost h: nat) returns (ghost c': Ctx)
      requires Rising(mem, root, nil, c, t, h) && c.InR? && c.up.InR? && c.red && !c.up.red && !IsRed(Sib(c.up))
      requires p == c.n && g == c.up.n
      modifies this`mem, this`root
      ensures Rising(mem, root, nil, c', t, h) && !CRed(c')
      ensures Line(c', t) == Line(c, t) && SameData(old(mem), mem)
    {
      BlackUncle(mem, root, nil, false, p, Sib(c), g, Sib(c.up), c.up.up, t, h);
      LeftRotate(g);
      mem := Painted(mem, g, true);
      mem := Painted(mem, p, false);
      c' := InR(Bin(Sib(c.up), g, true, Sib(c)), p, false, c.up.up);
    }

    /** The parent of the red node z is red and a left child. */
    method InsertLeft(z: Ptr, ghost c: Ctx, ghost t: Shape, ghost h: nat)
      returns (z': Ptr, ghost c': Ctx, ghost t': Shape, ghost h': nat)
      requires Rising(mem, root, nil, c, t, h) && t.n == z && CRed(c) && c.up.InL?
      modifies this`mem, this`root
      ensures Rising(mem, root, nil, c', t', h') && t'.n == z'
      ensures Line(c', t') == Line(c, t) && SameData(old(mem), mem)
      ensures !CRed(c') || Depth(c') < Depth(c)
    {
      Grandparent(mem, root, nil, c, t, h);
      var p := mem[z].parent;
      var g := mem[p].parent;
      var uncle := mem[g].right;
      if mem[uncle].red {
        c', t' := PaintUncle(p, uncle, g, c, t, h);
        z', h' := g, h + 1;
      } else {
        z', p, c', t' := TurnLeft(z, p, c, t, h);
        h' := h;
        c' := LiftLeft(p, g, c', t', h);
      }
    }

    /** The same when it is a right child. */
    method InsertRight(z: Ptr, ghost c: Ctx, ghost t: Shape, ghost h: nat)
      returns (z': Ptr, ghost c': Ctx, ghost t': Shape, ghost h': nat)
      requires Rising(mem, root, nil, c, t, h) && t.n == z && CRed(c) && c.up.InR?
      modifies this`mem, this`root
      ensures Rising(mem, root, nil, c', t', h') && t'.n == z'
      ensures Line(c', t') == Line(c, t) && SameData(old(mem), mem)
      ensures !CRed(c') || Depth(c') < Depth(c)
    {
      Grandparent(mem, root, nil, c, t, h);
      var p := mem[z].parent;
      var g := mem[p].parent;
      var uncle := mem[g].left;
      if mem[uncle].red {
        c', t' := PaintUncle(p, uncle, g, c, t, h);
        z', h' := g, h + 1;
      } else {
        z', p, c', t' := TurnRight(z, p, c, t, h);
        h' := h;
        c' := LiftRight(p, g, c', t', h);
      }
    }

    method InsertFixup(node: Ptr, ghost c0: Ctx, ghost t0: Shape, ghost h0: nat)
      requires Rising(mem, root, nil, c0, t0, h0) && t0.n == node
      modifies this
      ensures Shaped() && Inorder(shape) == Line(c0, t0) && SameData(old(mem), mem)
    {
      var z := node;
      ghost var c, t, h := c0, t0, h0;
      while true
        invariant Rising(mem, root, nil, c, t, h) && t.n == z
        invariant Line(c, t) == Line(c0, t0) && SameData(old(mem), mem)
        decreases if CRed(c) then Depth(c) + 1 else 0
      {
        Seen(mem, root, nil, c, t);
        if z == root {
          RootBlack(mem, root, nil, t, h);
          mem := Painted(mem, z, false);
          shape := t.(red := false);
          return;
        }
        SeenAbove(mem, root, nil, c, t);
        if !mem[mem[z].parent].red {
          Settled(mem, root, nil, c, t, h);
          shape := Plug(c, t);
          return;
        }
        z, c, t, h := InsertRound(z, c, t, h);
      }
    }

    /** One round of the repair: the parent of z is red. */
    method InsertRound(z: Ptr, ghost c: Ctx, ghost t: Shape, ghost h: nat)
      returns (z': Ptr, ghost c': Ctx, ghost t': Shape, ghost h': nat)
      requires Rising(mem, root, nil, c, t, h) && t.n == z && CRed(c)
      modifies this`mem, this`root
      ensures Rising(mem, root, nil, c', t', h') && t'.n == z'
      ensures Line(c', t') == Line(c, t) && SameData(old(mem), mem)
      ensures !CRed(c') || Depth(c') < Depth(c)
    {
      Grandparent(mem, root, nil, c, t, h);
      var p := mem[z].parent;
      var g := mem[p].parent;
      if mem[g].left == p {
        z', c', t', h' := InsertLeft(z, c, t, h);
      } else {
        z', c', t', h' := InsertRight(z, c, t, h);
      }
    }

    /** The place below which a node with this start belongs: the sentinel if the tree is empty. */
    method Descend(start: nat) returns (y: Ptr, ghost c: Ctx, ghost h: nat)
      requires Valid()
      ensures At(mem, root, nil, c, Leaf) && Fits(c, Leaf, h) && y == Parent(c, nil)
      ensures Line(c, Leaf) == Inorder(shape)
      ensures UpTo(mem, Before(c), start) && Beyond(mem, After(c), start)
    {
      y := nil;
      var x := root;
      ghost var t := shape;
      h :| Ok(shape, h);
      c := Top;
      while x != nil
        invariant At(mem, root, nil, c, t) && Fits(c, t, h) && Line(c, t) == Inorder(shape)
        invariant x == Root(t, nil) && y == Parent(c, nil)
        invariant UpTo(mem, Before(c), start) && Beyond(mem, After(c), start)
        decreases t
      {
        Seen(mem, root, nil, c, t);
        y := x;
        if start < mem[x].vma.start {
          GoLeft(mem, root, nil, c, t, h, start);
          x := mem[x].left;
          c, t, h := InL(t.n, t.red, t.r, c), t.l, if t.red then h else h - 1;
        } else {
          GoRight(mem, root, nil, c, t, h, start);
          x := mem[x].right;
          c, t, h := InR(t.l, t.n, t.red, c), t.r, if t.red then h else h - 1;
        }
      }
    }

    /** Link the new node z below y, on the side the comparison asks for. */
    method Attach(z: Ptr, y: Ptr, ghost c: Ctx)
      requires At(mem, root, nil, c, Leaf) && y == Parent(c, nil)
      requires z in mem && z != nil && z !in CNodes(c)
      requires UpTo(mem, Before(c), mem[z].vma.start) && Beyond(mem, After(c), mem[z].vma.start)
      modifies this`mem, this`root
      ensures Hung(old(mem), mem, nil, c, z) && root == if c.Top? then z else old(root)
    {
      if y == nil {
        root := z;
        mem := mem[z := mem[z].(parent := nil)];
      } else {
        RightSide(mem, c, mem[z].vma.start);
        if mem[z].vma.start < mem[y].vma.start {
          mem := mem[y := mem[y].(left := z)];
        } else {
          mem := mem[y := mem[y].(right := z)];
        }
        mem := mem[z := mem[z].(parent := y)];
      }
      mem := mem[z := mem[z].(right := nil)];
      mem := mem[z := mem[z].(left := nil)];
      mem := Painted(mem, z, true);
    }

    method Insert(z: Ptr)
      requires Valid() && z in mem && z != nil && z !in Nodes(shape)
      modifies this
      ensures Valid() && SameData(old(mem), mem)
      ensures Inorder(shape) == Placed(old(mem), old(Inorder(shape)), z)
    {
      ghost var m0, s0 := mem, Inorder(shape);
      var y; ghost var c, h;
      y, c, h := Descend(mem[z].vma.start);
      NewLine(mem, c, s0, z);
      NewNode(c, shape, z);
      Attach(z, y, c);
      Hang(m0, old(root), mem, nil, c, z);
      InsertFixup(z, c, Bin(Leaf, z, true, Leaf), h);
      PlacedSorted(m0, s0, z);
    }

    // ---- deletion

    /** Both children of the sibling are black. */
    method BothBlack(p: Ptr, s: Ptr, ghost c: Ctx, ghost t: Shape, ghost h: nat) returns (done: bool, ghost t': Shape, ghost h': nat)
      requires Falling(mem, root, nil, c, t, h) && !c.Top? && p == c.n && Sib(c).Bin? && !Sib(c).red && s == Sib(c).n
      requires !IsRed(Sib(c).l) && !IsRed(Sib(c).r)
      modifies this
      ensures SameData(old(mem), mem)
      ensures done ==> Shaped() && Inorder(shape) == Line(c, t)
      ensures !done ==> !c.red && Falling(mem, root, nil, c.up, t', h') && p == Root(t', nil) && Line(c.up, t') == Line(c, t)
    {
      SeenAbove(mem, root, nil, c, t);
      BlackNephews(mem, root, nil, c.InL?, p, c.red, Sib(c), c.up, t, h);
      t', h' := Mk(c.InL?, t, p, c.red, Sib(c).(red := true)), h + 1;
      done := mem[p].red;
      if done {
        RedParent(mem, root, nil, c.InL?, p, Sib(c), c.up, t, h);
        t' := Mk(c.InL?, t, p, false, Sib(c).(red := true));
        mem := Painted(mem, s, true);
        mem := Painted(mem, p, false);
        Settled(mem, root, nil, c.up, t', h + 1);
        shape := Plug(c.up, t');
      } else {
        mem := Painted(mem, s, true);
      }
    }

    /** x is a left child and its sibling s is red. */
    method SiblingLeft(p: Ptr, s: Ptr, ghost c: Ctx, ghost t: Shape, ghost h: nat) returns (ghost c': Ctx)
      requires Falling(mem, root, nil, c, t, h) && c.InL? && p == c.n && IsRed(Sib(c)) && s == Sib(c).n
      modifies this`mem, this`root
      ensures Falling(mem, root, nil, c', t, h) && CRed(c')
      ensures Line(c', t) == Line(c, t) && SameData(old(mem), mem)
    {
      RedSibling(mem, root, nil, true, p, Sib(c).l, s, Sib(c).r, c.up, t, h);
      LeftRotate(p);
      mem := Painted(mem, p, true);
      mem := Painted(mem, s, false);
      c' := InL(p, true, Sib(c).l, InL(s, false, Sib(c).r, c.up));
    }

    /** Its left child n is red and the other one black: turn s away. */
    method NephewLeft(s: Ptr, n: Ptr, ghost c: Ctx, ghost t: Shape, ghost h: nat) returns (ghost c': Ctx)
      requires Falling(mem, root, nil, c, t, h) && c.InL? && Sib(c).Bin? && !Sib(c).red && s == Sib(c).n
      requires IsRed(Sib(c).l) && n == Sib(c).l.n && !IsRed(Sib(c).r)
      modifies this`mem, this`root
      ensures Falling(mem, root, nil, c', t, h) && c'.InL? && c'.n == c.n && c'.red == c.red && c'.up == c.up
      ensures Sib(c').Bin? && !Sib(c').red && IsRed(Sib(c').r)
      ensures Line(c', t) == Line(c, t) && SameData(old(mem), mem)
    {
      ghost var e, d := Sib(c).l, Sib(c).r;
      InnerNephew(mem, root, nil, true, c.n, c.red, e.l, n, e.r, s, d, c.up, t, h);
      RightRotate(s);
      mem := Painted(mem, s, true);
      mem := Painted(mem, n, false);
      c' := InL(c.n, c.red, Bin(e.l, n, false, Bin(e.r, s, true, d)), c.up);
    }

    /** Its right child is red: one rotation ends the repair. */
    method OuterLeft(p: Ptr, s: Ptr, outer: Ptr, ghost c: Ctx, ghost t: Shape, ghost h: nat) returns (ghost t': Shape)
      requires Falling(mem, root, nil, c, t, h) && c.InL? && p == c.n && Sib(c).Bin? && !Sib(c).red && s == Sib(c).n
      requires IsRed(Sib(c).r) && outer == Sib(c).r.n
      modifies this`mem, this`root
      ensures Mended(mem, root, nil, c.up, t', if c.red then h + 1 else h + 2)
      ensures Line(c.up, t') == Line(c, t) && SameData(old(mem), mem)
    {
      ghost var a, d := Sib(c).l, Sib(c).r;
      OuterNephew(mem, root, nil, true, p, c.red, a, s, d, c.up, t, h);
      LeftRotate(p);
      var red := mem[p].red;
      mem := Painted(mem, p, mem[s].red);
      mem := Painted(mem, s, red);
      mem := Painted(mem, outer, false);
      t' := Bin(Bin(t, p, false, a), s, c.red, d.(red := false));
    }

    /** One round of the repair for a left child. */
    method DeleteLeft(x: Ptr, ghost c: Ctx, ghost t: Shape, ghost h: nat)
      returns (done: bool, x': Ptr, ghost c': Ctx, ghost t': Shape, ghost h': nat)
      requires Falling(mem, root, nil, c, t, h) && c.InL? && x == Root(t, nil) && !IsRed(t)
      modifies this
      ensures SameData(old(mem), mem)
      ensures done ==> Shaped() && Inorder(shape) == Line(c, t)
      ensures !done ==> Falling(mem, root, nil, c', t', h') && x' == Root(t', nil) && Line(c', t') == Line(c, t)
      ensures !done ==> Rest(c') < Rest(c)
    {
      done, x', c', t', h' := false, x, c, t, h;
      var p := mem[x].parent;
      SiblingThere(c, h);
      SeenAbove(mem, root, nil, c, t);
      var s := mem[p].right;
      if mem[s].red {
        c' := SiblingLeft(p, s, c, t, h);
      } else {
        NephewsSeen(mem, root, nil, c, t);
        var inner, outer := mem[s].left, mem[s].right;
        if mem[inner].red && !mem[outer].red {
          c' := NephewLeft(s, inner, c, t, h);
          SeenAbove(mem, root, nil, c', t);
          NephewsSeen(mem, root, nil, c', t);
          s := mem[p].right;
          outer := mem[s].right;
          inner := mem[s].left;
        }
        if mem[outer].red {
          t' := OuterLeft(p, s, outer, c', t, h);
          Settled(mem, root, nil, c'.up, t', if c'.red then h + 1 else h + 2);
          shape := Plug(c'.up, t');
          done := true;
        } else {
          done, t', h' := BothBlack(p, s, c', t, h);
          x', c' := p, c'.up;
        }
      }
    }

    /** x is a right child and its sibling s is red. */
    method SiblingRight(p: Ptr, s: Ptr, ghost c: Ctx, ghost t: Shape, ghost h: nat) returns (ghost c': Ctx)
      requires Falling(mem, root, nil, c, t, h) && c.InR? && p == c.n && IsRed(Sib(c)) && s == Sib(c).n
      modifies this`mem, this`root
      ensures Falling(mem, root, nil, c', t, h) && CRed(c')
      ensures Line(c', t) == Line(c, t) && SameData(old(mem), mem)
    {
      RedSibling(mem, root, nil, false, p, Sib(c).r, s, Sib(c).l, c.up, t, h);
      RightRotate(p);
      mem := Painted(mem, p, true);
      mem := Painted(mem, s, false);
      c' := InR(Sib(c).r, p, true, InR(Sib(c).l, s, false, c.up));
    }

    /** Its right child n is red and the other one black: turn s away. */
    method NephewRight(s: Ptr, n: Ptr, ghost c: Ctx, ghost t: Shape, ghost h: nat) returns (ghost c': Ctx)
      requires Falling(mem, root, nil, c, t, h) && c.InR? && Sib(c).Bin? && !Sib(c).red && s == Sib(c).n
      requires IsRed(Sib(c).r) && n == Sib(c).r.n && !IsRed(Sib(c).l)
      modifies this`mem, this`root
      ensures Falling(mem, root, nil, c', t, h) && c'.InR? && c'.n == c.n && c'.red == c.red && c'.up == c.up
      ensures Sib(c').Bin? && !Sib(c').red && IsRed(Sib(c').l)
      ensures Line(c', t) == Line(c, t) && SameData(old(mem), mem)
    {
      ghost var e, d := Sib(c).r, Sib(c).l;
      InnerNephew(mem, root, nil, false, c.n, c.red, e.r, n, e.l, s, d, c.up, t, h);
      LeftRotate(s);
      mem := Painted(mem, s, true);
      mem := Painted(mem, n, false);
      c' := InR(Bin(Bin(d, s, true, e.l), n, false, e.r), c.n, c.red, c.up);
    }

    /** Its left child is red: one rotation ends the repair. */
    method OuterRight(p: Ptr, s: Ptr, outer: Ptr, ghost c: Ctx, ghost t: Shape, ghost h: nat) returns (ghost t': Shape)
      requires Falling(mem, root, nil, c, t, h) && c.InR? && p == c.n && Sib(c).Bin? && !Sib(c).red && s == Sib(c).n
      requires IsRed(Sib(c).l) && outer == Sib(c).l.n
      modifies this`mem, this`root
      ensures Mended(mem, root, nil, c.up, t', if c.red then h + 1 else h + 2)
      ensures Line(c.up, t') == Line(c, t) && SameData(old(mem), mem)
    {
      ghost var a, d := Sib(c).r, Sib(c).l;
      OuterNephew(mem, root, nil, false, p, c.red, a, s, d, c.up, t, h);
      RightRotate(p);
      var red := mem[p].red;
      mem := Painted(mem, p, mem[s].red);
      mem := Painted(mem, s, red);
      mem := Painted(mem, outer, false);
      t' := Bin(d.(red := false), s, c.red, Bin(a, p, false, t));
    }

    /** One round of the repair for a right child. */
    method DeleteRight(x: Ptr, ghost c: Ctx, ghost t: Shape, ghost h: nat)
      returns (done: bool, x': Ptr, ghost c': Ctx, ghost t': Shape, ghost h': nat)
      requires Falling(mem, root, nil, c, t, h) && c.InR? && x == Root(t, nil) && !IsRed(t)
      modifies this
      ensures SameData(old(mem), mem)
      ensures done ==> Shaped() && Inorder(shape) == Line(c, t)
      ensures !done ==> Falling(mem, root, nil, c', t', h') && x' == Root(t', nil) && Line(c', t') == Line(c, t)
      ensures !done ==> Rest(c') < Rest(c)
    {
      done, x', c', t', h' := false, x, c, t, h;
      var p := mem[x].parent;
      SiblingThere(c, h);
      SeenAbove(mem, root, nil, c, t);
      var s := mem[p].left;
      if mem[s].red {
        c' := SiblingRight(p, s, c, t, h);
      } else {
        NephewsSeen(mem, root, nil, c, t);
        var inner, outer := mem[s].right, mem[s].left;
        if mem[inner].red && !mem[outer].red {
          c' := NephewRight(s, inner, c, t, h);
          SeenAbove(mem, root, nil, c', t);
          NephewsSeen(mem, root, nil, c', t);
          s := mem[p].left;
          outer := mem[s].left;
          inner := mem[s].right;
        }
        if mem[outer].red {
          t' := OuterRight(p, s, outer, c', t, h);
          Settled(mem, root, nil, c'.up, t', if c'.red then h + 1 else h + 2);
          shape := Plug(c'.up, t');
          done := true;
        } else {
          done, t', h' := BothBlack(p, s, c', t, h);
          x', c' := p, c'.up;
        }
      }
    }

    method DeleteFixup(node: Ptr, ghost c0: Ctx, ghost t0: Shape, ghost h0: nat)
      requires Falling(mem, root, nil, c0, t0, h0) && node == Root(t0, nil)
      modifies this
      ensures Shaped() && Inorder(shape) == Line(c0, t0) && SameData(old(mem), mem)
    {
      var x, done := node, false;
      ghost var c, t, h := c0, t0, h0;
      Seen(mem, root, nil, c, t);
      while x != root && !mem[x].red
        invariant Falling(mem, root, nil, c, t, h) && x == Root(t, nil)
        invariant Line(c, t) == Line(c0, t0) && SameData(old(mem), mem)
        invariant mem[x].red == IsRed(t) && (x == root <==> c.Top?)
        decreases Rest(c)
      {
        done, x, c, t, h := DeleteRound(x, c, t, h);
        if done {
          return;
        }
        Seen(mem, root, nil, c, t);
      }
      PaintShort(x, c, t, h);
    }

    /** One round of the repair. */
    method DeleteRound(x: Ptr, ghost c: Ctx, ghost t: Shape, ghost h: nat)
      returns (done: bool, x': Ptr, ghost c': Ctx, ghost t': Shape, ghost h': nat)
      requires Falling(mem, root, nil, c, t, h) && !c.Top? && x == Root(t, nil) && !IsRed(t)
      modifies this
      ensures SameData(old(mem), mem)
      ensures done ==> Shaped() && Inorder(shape) == Line(c, t)
      ensures !done ==> Falling(mem, root, nil, c', t', h') && x' == Root(t', nil) && Line(c', t') == Line(c, t)
      ensures !done ==> Rest(c') < Rest(c)
    {
      var p := mem[x].parent;
      SeenAbove(mem, root, nil, c, t);
      SiblingThere(c, h);
      if x == mem[p].left {
        done, x', c', t', h' := DeleteLeft(x, c, t, h);
      } else {
        done, x', c', t', h' := DeleteRight(x, c, t, h);
      }
    }

    /** The last step: paint x black. */
    method PaintShort(x: Ptr, ghost c: Ctx, ghost t: Shape, ghost h: nat)
      requires Falling(mem, root, nil, c, t, h) && x == Root(t, nil) && (c.Top? || IsRed(t))
      modifies this
      ensures Shaped() && Inorder(shape) == Line(c, t) && SameData(old(mem), mem)
    {
      Blacken(mem, root, nil, c, t, h);
      mem := Painted(mem, x, false);
      ghost var t' := if t.Bin? then t.(red := false) else t;
      Settled(mem, root, nil, c, t', if IsRed(t) then h + 1 else h);
      shape := Plug(c, t');
    }

    // ---- neighbours

    /** Down to the left end of a subtree. */
    method GoLeftmost(node: Ptr, ghost c0: Ctx, ghost t0: Shape) returns (end: Ptr)
      requires At(mem, root, nil, c0, t0) && t0.Bin? && node == t0.n
      ensures Inorder(t0) != [] && end == Inorder(t0)[0]
    {
      end := node;
      ghost var c, t := c0, t0;
      Seen(mem, root, nil, c, t);
      while mem[end].left != nil
        invariant At(mem, root, nil, c, t) && t.Bin? && end == t.n && mem[end].left == Root(t.l, nil)
        invariant Inorder(t0) != [] && Inorder(t) != [] && Inorder(t0)[0] == Inorder(t)[0]
        decreases t
      {
        Rise(mem, root, nil, true, t.n, t.red, t.r, c, t.l);
        end := mem[end].left;
        c, t := InL(t.n, t.red, t.r, c), t.l;
        Seen(mem, root, nil, c, t);
      }
    }

    /** Up to the first ancestor on the right. */
    method ClimbRight(node: Ptr, ghost c0: Ctx, ghost t0: Shape) returns (found: Ptr)
      requires At(mem, root, nil, c0, t0) && t0.Bin? && node == t0.n
      ensures found == if After(c0) == [] then nil else After(c0)[0]
    {
      var x := node;
      ghost var c, t := c0, t0;
      Seen(mem, root, nil, c, t);
      while mem[x].parent != nil
        invariant At(mem, root, nil, c, t) && t.Bin? && x == t.n && mem[x].parent == Parent(c, nil)
        invariant After(c) == After(c0)
        decreases Depth(c)
      {
        SeenAbove(mem, root, nil, c, t);
        if x == mem[mem[x].parent].left {
          return mem[x].parent;
        }
        Rise(mem, root, nil, false, c.n, c.red, Sib(c), c.up, t);
        x := mem[x].parent;
        c, t := c.up, Bin(Sib(c), c.n, c.red, t);
        Seen(mem, root, nil, c, t);
      }
      assert c.Top?;
      return nil;
    }

    /** Down to the right end of a subtree. */
    method GoRightmost(node: Ptr, ghost c0: Ctx, ghost t0: Shape) returns (end: Ptr)
      requires At(mem, root, nil, c0, t0) && t0.Bin? && node == t0.n
      ensures Inorder(t0) != [] && end == Inorder(t0)[|Inorder(t0)| - 1]
    {
      end := node;
      ghost var c, t := c0, t0;
      Seen(mem, root, nil, c, t);
      while mem[end].right != nil
        invariant At(mem, root, nil, c, t) && t.Bin? && end == t.n && mem[end].right == Root(t.r, nil)
        invariant Inorder(t0) != [] && Inorder(t) != [] && Inorder(t0)[|Inorder(t0)| - 1] == Inorder(t)[|Inorder(t)| - 1]
        decreases t
      {
        Rise(mem, root, nil, false, t.n, t.red, t.l, c, t.r);
        end := mem[end].right;
        c, t := InR(t.l, t.n, t.red, c), t.r;
        Seen(mem, root, nil, c, t);
      }
    }

    /** Up to the first ancestor on the left. */
    method ClimbLeft(node: Ptr, ghost c0: Ctx, ghost t0: Shape) returns (found: Ptr)
      requires At(mem, root, nil, c0, t0) && t0.Bin? && node == t0.n
      ensures found == if Before(c0) == [] then nil else Before(c0)[|Before(c0)| - 1]
    {
      var x := node;
      ghost var c, t := c0, t0;
      Seen(mem, root, nil, c, t);
      while mem[x].parent != nil
        invariant At(mem, root, nil, c, t) && t.Bin? && x == t.n && mem[x].parent == Parent(c, nil)
        invariant Before(c) == Before(c0)
        decreases Depth(c)
      {
        SeenAbove(mem, root, nil, c, t);
        if x == mem[mem[x].parent].right {
          return mem[x].parent;
        }
        Rise(mem, root, nil, true, c.n, c.red, Sib(c), c.up, t);
        x := mem[x].parent;
        c, t := c.up, Bin(t, c.n, c.red, Sib(c));
        Seen(mem, root, nil, c, t);
      }
      assert c.Top?;
      return nil;
    }

    /** The next node in order, or the sentinel. */
    method Successor(node: Ptr) returns (next: Ptr)
      requires At(mem, root, nil, Top, shape) && node in Nodes(shape)
      ensures forall i :: 0 <= i < |Inorder(shape)| && Inorder(shape)[i] == node ==>
        next == if i + 1 < |Inorder(shape)| then Inorder(shape)[i + 1] else nil
    {
      Found(mem, root, nil, Top, shape, node);
      ghost var c, t := Context(Top, shape, node), Subtree(shape, node);
      Position(mem, root, nil, shape, c, t);
      Seen(mem, root, nil, c, t);
      if mem[node].right != nil {
        Rise(mem, root, nil, false, t.n, t.red, t.l, c, t.r);
        next := GoLeftmost(mem[node].right, InR(t.l, t.n, t.red, c), t.r);
      } else {
        next := ClimbRight(node, c, t);
      }
      NextInLine(c, t);
    }

    /** The previous node in order, or the sentinel. */
    method Predecessor(node: Ptr) returns (prev: Ptr)
      requires At(mem, root, nil, Top, shape) && node in Nodes(shape)
      ensures forall i :: 0 <= i < |Inorder(shape)| && Inorder(shape)[i] == node ==>
        prev == if i > 0 then Inorder(shape)[i - 1] else nil
    {
      Found(mem, root, nil, Top, shape, node);
      ghost var c, t := Context(Top, shape, node), Subtree(shape, node);
      Position(mem, root, nil, shape, c, t);
      Seen(mem, root, nil, c, t);
      if mem[node].left != nil {
        Rise(mem, root, nil, true, t.n, t.red, t.r, c, t.l);
        prev := GoRightmost(mem[node].left, InL(t.n, t.red, t.r, c), t.l);
      } else {
        prev := ClimbLeft(node, c, t);
      }
      NextInLine(c, t);
    }

    // ---- taking a node out

    method Transplant(u: Ptr, v: Ptr)
      requires u in mem && v in mem && mem[u].parent in mem
      modifies this`mem, this`root
      ensures mem == Transplanted(old(mem), nil, u, v)
      ensures root == if old(mem[u].parent) == nil then v else old(root)
    {
      if mem[u].parent == nil {
        root := v;
      } else if u == mem[mem[u].parent].left {
        mem := mem[mem[u].parent := mem[mem[u].parent].(left := v)];
      } else {
        mem := mem[mem[u].parent := mem[mem[u].parent].(right := v)];
      }
      mem := mem[v := mem[v].(parent := mem[u].parent)];
    }

    /** A node with at most one child gives way to that child `x`, possibly the sentinel. */
    method Replace(z: Ptr, x: Ptr, ghost c: Ctx, ghost t: Shape, ghost s: Shape)
      requires At(mem, root, nil, c, t) && t.Bin? && t.n == z && x == Root(s, nil)
      requires (t.l.Leaf? && s == t.r) || (t.r.Leaf? && s == t.l)
      modifies this`mem, this`root
      ensures At(mem, root, nil, c, s) && x in mem && mem[x].parent == Parent(c, nil)
      ensures SameData(old(mem), mem)
    {
      Seen(mem, root, nil, c, t);
      ChildApart(mem, root, nil, c, t, s);
      TransplantEffect(mem, root, nil, c, t, x);
      Transplant(z, x);
      Graft(old(mem), old(root), mem, nil, c, t, s, z);
    }

    /** The successor y is the right child: it keeps its right subtree. */
    method PromoteNear(z: Ptr, y: Ptr, x: Ptr, ghost c: Ctx, ghost t: Shape)
      requires At(mem, root, nil, c, t) && t.Bin? && t.n == z && t.l.Bin? && t.r.Bin? && t.r.l.Leaf?
      requires y == t.r.n && x == Root(t.r.r, nil)
      modifies this`mem, this`root
      ensures At(mem, root, nil, InR(t.l, y, t.red, c), t.r.r) && x in mem && mem[x].parent == y
      ensures SameData(old(mem), mem)
    {
      NearPromoted(mem, root, nil, c, t);
      mem := mem[x := mem[x].(parent := y)];
      PromoteFields(z, y);
    }

    /** The successor y lies deeper: its right child takes its place first. */
    method PromoteFar(z: Ptr, y: Ptr, x: Ptr, ghost c: Ctx, ghost t: Shape, ghost rel: Ctx, ghost sub: Shape)
      requires At(mem, root, nil, c, t) && t.Bin? && t.n == z && t.l.Bin? && t.r == Plug(rel, sub) && !rel.Top?
      requires sub.Bin? && sub.l.Leaf? && y == sub.n && x == Root(sub.r, nil)
      modifies this`mem, this`root
      ensures At(mem, root, nil, Append(rel, InR(t.l, y, t.red, c)), sub.r) && x in mem && mem[x].parent == rel.n
      ensures SameData(old(mem), mem)
    {
      FarFocus(mem, root, nil, c, t, rel, sub);
      Replace(y, x, Append(rel, InR(t.l, z, t.red, c)), sub, sub.r);
      FarApart(mem, root, nil, c, t.l, z, t.red, y, rel, sub.r);
      AdoptAndPromote(z, y, c, t.l, t.red, rel, sub.r);
    }

    method AdoptAndPromote(z: Ptr, y: Ptr, ghost c: Ctx, ghost l: Shape, ghost red: bool, ghost rel: Ctx, ghost xs: Shape)
      requires At(mem, root, nil, c, Bin(l, z, red, Plug(rel, xs))) && l.Bin? && !rel.Top? && Plug(rel, xs).Bin?
      requires y in mem && y != nil && y != z && y !in Nodes(l) && y !in Nodes(Plug(rel, xs)) && y !in CNodes(c)
      modifies this`mem, this`root
      ensures At(mem, root, nil, Append(rel, InR(l, y, red, c)), xs)
      ensures SameData(old(mem), mem) && mem[nil] == old(mem[nil])
    {
      Seen(mem, root, nil, c, Bin(l, z, red, Plug(rel, xs)));
      ChildApart(mem, root, nil, c, Bin(l, z, red, Plug(rel, xs)), Plug(rel, xs));
      mem := mem[y := mem[y].(right := mem[z].right)];
      mem := mem[mem[y].right := mem[mem[y].right].(parent := y)];
      FarPromoted(old(mem), mem, root, nil, c, l, z, red, y, rel, xs);
      PromoteFields(z, y);
    }

    method PromoteFields(z: Ptr, y: Ptr)
      requires z in mem && y in mem && mem[z].parent in mem
      requires Transplanted(mem, nil, z, y)[z].left in mem && y != nil
      modifies this`mem, this`root
      ensures mem == Promoted(old(mem), nil, z, y)
      ensures root == if old(mem[z].parent) == nil then y else old(root)
    {
      Transplant(z, y);
      mem := mem[y := mem[y].(left := mem[z].left)];
      mem := mem[mem[y].left := mem[mem[y].left].(parent := y)];
      mem := Painted(mem, y, mem[z].red);
    }

    /** z has at most one child, which takes its place. */
    method DeleteOuter(z: Ptr, x: Ptr, ghost c: Ctx, ghost t: Shape, ghost s: Shape, ghost h: nat) returns (ghost h': nat)
      requires At(mem, root, nil, c, t) && Fits(c, t, h) && t.Bin? && t.n == z && x == Root(s, nil)
      requires (t.l.Leaf? && s == t.r) || (t.r.Leaf? && s == t.l)
      modifies this`mem, this`root
      ensures At(mem, root, nil, c, s) && x in mem && mem[x].parent == Parent(c, nil)
      ensures Line(c, s) == Remaining(c, t) && Left(c, s, t.red, h') && SameData(old(mem), mem)
    {
      h' := OuterColours(c, t, s, h);
      Replace(z, x, c, t, s);
    }

    /** z has two children: its successor y takes its place, and x is what stood below y. */
    method DeleteInner(z: Ptr, ghost c: Ctx, ghost t: Shape, ghost h: nat)
      returns (x: Ptr, red: bool, ghost c': Ctx, ghost xs: Shape, ghost h': nat)
      requires At(mem, root, nil, Top, shape) && Line(c, t) == Inorder(shape)
      requires At(mem, root, nil, c, t) && Fits(c, t, h) && t.Bin? && t.n == z && t.l.Bin? && t.r.Bin?
      modifies this`mem, this`root
      ensures At(mem, root, nil, c', xs) && x == Root(xs, nil) && x in mem && mem[x].parent == Parent(c', nil)
      ensures Line(c', xs) == Remaining(c, t) && Left(c', xs, red, h') && SameData(old(mem), mem)
    {
      var y := RightSuccessor(z, c, t);
      ghost var rel, sub := SpineFrom(Top, t.r), Leftmost(t.r);
      SpineSeen(mem, root, nil, c, t);
      red := mem[y].red;
      x := mem[y].right;
      xs, c' := sub.r, Append(rel, InR(t.l, y, t.red, c));
      h' := InnerColours(c, t, h);
      InnerOrder(c, t);
      if mem[y].parent == z {
        PromoteNear(z, y, x, c, t);
      } else {
        PromoteFar(z, y, x, c, t, rel, sub);
      }
    }

    method RightSuccessor(z: Ptr, ghost c: Ctx, ghost t: Shape) returns (y: Ptr)
      requires At(mem, root, nil, Top, shape) && Line(c, t) == Inorder(shape)
      requires At(mem, root, nil, c, t) && t.Bin? && t.n == z && t.r.Bin?
      ensures y == Leftmost(t.r).n
    {
      Position(mem, root, nil, shape, c, t);
      NextInLine(c, t);
      InorderNodes(shape);
      SpineIs(Top, t.r);
      y := Successor(z);
    }

    method DeleteAt(z: Ptr, ghost c: Ctx, ghost t: Shape, ghost h: nat)
      requires At(mem, root, nil, Top, shape) && Line(c, t) == Inorder(shape)
      requires At(mem, root, nil, c, t) && Fits(c, t, h) && t.Bin? && t.n == z
      modifies this
      ensures Shaped() && Inorder(shape) == Remaining(c, t) && SameData(old(mem), mem)
    {
      Seen(mem, root, nil, c, t);
      ghost var c', xs, h';
      var red, x := mem[z].red, nil;
      if mem[z].left == nil {
        x := mem[z].right;
        c', xs := c, t.r;
        h' := DeleteOuter(z, x, c, t, t.r, h);
      } else if mem[z].right == nil {
        x := mem[z].left;
        c', xs := c, t.l;
        h' := DeleteOuter(z, x, c, t, t.l, h);
      } else {
        x, red, c', xs, h' := DeleteInner(z, c, t, h);
      }
      DeleteEnd(x, red, c', xs, h');
    }

    method DeleteEnd(x: Ptr, red: bool, ghost c: Ctx, ghost xs: Shape, ghost h: nat)
      requires At(mem, root, nil, c, xs) && x == Root(xs, nil) && x in mem && mem[x].parent == Parent(c, nil)
      requires Left(c, xs, red, h)
      modifies this
      ensures Shaped() && Inorder(shape) == Line(c, xs) && SameData(old(mem), mem)
    {
      if !red {
        DeleteFixup(x, c, xs, h);
      } else {
        Settled(mem, root, nil, c, xs, h);
        shape := Plug(c, xs);
      }
    }

    method Delete(z: Ptr)
      requires Valid() && z in Nodes(shape)
      modifies this
      ensures Valid() && SameData(old(mem), mem)
      ensures Inorder(shape) == Without(old(Inorder(shape)), z)
    {
      ghost var h0: nat :| Ok(shape, h0);
      Found(mem, root, nil, Top, shape, z);
      ghost var c, t := Context(Top, shape, z), Subtree(shape, z);
      ghost var h := FoundFits(Top, shape, z, h0);
      Taken(mem, root, nil, shape, c, t);
      DeleteAt(z, c, t, h);
    }
  }
}

/** vmm.c: the areas of one address space, kept as a sorted list, a tree once there are many, and a one-entry cache. */
module VmaMap {
  import opened Lists
  import opened RbShape
  import opened RbSpin
  import opened RbSteps
  import opened RbOrder
  import opened RbTree
  import opened VmaAreas
  import opened VmaLists
  import opened VmaSearch
  import opened VmaUnmap

  const RB_MIN_MAP_COUNT: nat := 32
  const E_INVAL: int := 3
  const E_NO_MEM: int := 4
  const VM_READ: bv32 := 1
  const VM_WRITE: bv32 := 2
  const VM_SHARE: bv32 := 0x10

  class Mm {
    const tree: Tree
    var list: seq<Ptr>
    var cache: Option<Ptr>
    var count: nat

    /** List, tree, cache and count agree. */
    ghost predicate Valid()
      reads this, tree
    {
      && tree.Valid() && ListOk(tree.mem, tree.nil, list) && count == |list|
      && (Inorder(tree.shape) == list || (tree.shape == Leaf && |list| < RB_MIN_MAP_COUNT))
      && (cache.Some? ==> cache.value in list)
    }

    ghost function View(): seq<Vma>
      requires Valid()
      reads this, tree
    {
      Areas(tree.mem, list)
    }

    constructor (sentinel: Ptr, vma: Vma)
      ensures Valid() && fresh(tree) && View() == []
    {
      tree := new Tree(sentinel, vma);
      list, cache, count := [], None, 0;
    }

    /** find_vma_rb: down the tree, remembering the last area that ends above the address. */
    method FindRb(addr: nat) returns (vma: Option<Ptr>)
      requires Valid() && tree.shape != Leaf
      ensures vma == Pick(list, Above(View(), addr))
    {
      vma := None;
      var node := tree.root;
      ghost var c, t := Top, tree.shape;
      SeekStart(tree.mem, tree.root, tree.nil, list, tree.shape, addr);
      while node != tree.nil
        invariant Seeking(tree.mem, tree.root, tree.nil, list, c, t, addr)
        invariant node == Root(t, tree.nil) && vma == Pick(After(c), 0)
        decreases t
      {
        Seen(tree.mem, tree.root, tree.nil, c, t);
        if tree.mem[node].vma.end > addr {
          vma := Some(node);
          if tree.mem[node].vma.start <= addr {
            Hit(tree.mem, tree.root, tree.nil, list, c, t, addr);
            return;
          }
          SeekLeft(tree.mem, tree.root, tree.nil, list, c, t, addr);
          node := tree.mem[node].left;
          c, t := InL(t.n, t.red, t.r, c), t.l;
        } else {
          SeekRight(tree.mem, tree.root, tree.nil, list, c, t, addr);
          node := tree.mem[node].right;
          c, t := InR(t.l, t.n, t.red, c), t.r;
        }
      }
      SeekEnd(tree.mem, tree.root, tree.nil, list, c, t, addr);
    }

    method FindVma(addr: nat) returns (vma: Option<Ptr>)
      requires Valid()
      modifies this`cache
      ensures Valid() && vma == Pick(list, Above(View(), addr))
      ensures cache == if vma.Some? then vma else old(cache)
    {
      vma := cache;
      if vma.Some? {
        ghost var i := InList(list, vma.value);
        if tree.mem[vma.value].vma.start <= addr && tree.mem[vma.value].vma.end > addr {
          HitAt(tree.mem, tree.nil, list, i, addr);
          return;
        }
      }
      vma := Search(addr);
      if vma.Some? {
        cache := vma;
      }
    }

    /** Through the tree if there is one, else through the list. */
    method Search(addr: nat) returns (vma: Option<Ptr>)
      requires Valid()
      ensures vma == Pick(list, Above(View(), addr))
    {
      if tree.root != tree.nil {
        vma := FindRb(addr);
      } else {
        vma := FindInList(addr);
      }
    }

    method FindInList(addr: nat) returns (vma: Option<Ptr>)
      requires ListOk(tree.mem, tree.nil, list)
      ensures vma == Pick(list, Above(Areas(tree.mem, list), addr))
    {
      var i := 0;
      while i < |list|
        invariant 0 <= i <= |list| && Below(tree.mem, list[..i], addr)
      {
        if addr < tree.mem[list[i]].vma.end {
          ListHit(tree.mem, tree.nil, list, i, addr);
          return Some(list[i]);
        }
        i := i + 1;
      }
      assert list[..|list|] == list;
      ListMiss(tree.mem, tree.nil, list, addr);
      return None;
    }

    // ---- insert_vma_struct

    /** insert_vma_rb: put the node into the tree; its predecessor tells where it goes in the list. */
    method PlaceInTree(p: Ptr) returns (k: nat)
      requires Valid() && tree.shape != Leaf && p in tree.mem && p != tree.nil && p !in list
      modifies tree
      ensures tree.Valid() && SameData(old(tree.mem), tree.mem)
      ensures k == Rank(old(tree.mem), list, old(tree.mem[p].vma.start))
      ensures Inorder(tree.shape) == Placed(old(tree.mem), list, p)
    {
      InorderNodes(tree.shape);
      tree.Insert(p);
      InorderNodes(tree.shape);
      ghost var r := Rank(old(tree.mem), list, old(tree.mem[p].vma.start));
      assert Inorder(tree.shape)[r] == p;
      var prev := tree.Predecessor(p);
      if r > 0 {
        assert Inorder(tree.shape)[r - 1] == list[r - 1];
      }
      if prev != tree.nil {
        ListDistinct(old(tree.mem), tree.nil, list, IndexOf(list, list[r - 1]), r - 1);
        k := IndexOf(list, prev) + 1;
      } else {
        k := 0;
      }
    }

    method PlaceInList(p: Ptr) returns (k: nat)
      requires ListOk(tree.mem, tree.nil, list) && p in tree.mem
      ensures k == Rank(tree.mem, list, tree.mem[p].vma.start)
    {
      k := 0;
      while k < |list|
        invariant k <= |list| && UpTo(tree.mem, list[..k], tree.mem[p].vma.start)
      {
        if tree.mem[list[k]].vma.start > tree.mem[p].vma.start {
          break;
        }
        k := k + 1;
      }
      RankFrom(tree.mem, tree.nil, list, k, tree.mem[p].vma.start);
    }

    /** The list has grown long enough: build the tree from it. */
    method BuildTree()
      requires tree.Valid() && tree.shape == Leaf && ListOk(tree.mem, tree.nil, list)
      modifies tree
      ensures tree.Valid() && Inorder(tree.shape) == list && SameData(old(tree.mem), tree.mem)
    {
      var i := 0;
      while i < |list|
        invariant 0 <= i <= |list| && tree.Valid() && Inorder(tree.shape) == list[..i]
        invariant SameData(old(tree.mem), tree.mem)
        modifies tree
      {
        AreasSame(old(tree.mem), tree.mem, tree.nil, list);
        PlacedLast(tree.mem, tree.nil, list, i);
        NotYet(tree.mem, tree.nil, list, i, tree.shape);
        tree.Insert(list[i]);
        i := i + 1;
      }
      assert list[..|list|] == list;
    }

    method InsertVma(p: Ptr)
      requires Valid() && p in tree.mem && p != tree.nil && p !in list
      requires Good(tree.mem[p].vma) && Misses(View(), tree.mem[p].vma.start, tree.mem[p].vma.end)
      modifies this, tree
      ensures Valid() && list == Placed(old(tree.mem), old(list), p) && cache == old(cache)
      ensures SameData(old(tree.mem), tree.mem)
      ensures forall x :: Lookup(View(), x) ==
                          if Covers(tree.mem[p].vma, x) then Some(tree.mem[p].vma.flags) else old(Lookup(View(), x))
    {
      ghost var m0, v := tree.mem, tree.mem[p].vma;
      PlacedOk(tree.mem, tree.nil, list, p);
      var k;
      if tree.root != tree.nil {
        k := PlaceInTree(p);
      } else {
        k := PlaceInList(p);
      }
      list := list[..k] + [p] + list[k..];
      count := count + 1;
      if tree.root == tree.nil && count >= RB_MIN_MAP_COUNT {
        BuildTree();
      }
      AreasSame(m0, tree.mem, tree.nil, list);
    }

    // ---- remove_vma_struct, vma_create, vma_destory, vma_resize

    method RemoveVma(p: Ptr)
      requires Valid() && p in list
      modifies this, tree
      ensures Valid() && list == Without(old(list), p) && SameData(old(tree.mem), tree.mem)
      ensures cache == if old(cache) == Some(p) then None else old(cache)
      ensures forall x :: Lookup(View(), x) == if Covers(tree.mem[p].vma, x) then None else old(Lookup(View(), x))
    {
      ghost var m0 := tree.mem;
      WithoutOf(tree.mem, tree.nil, list, p);
      if tree.root != tree.nil {
        InorderNodes(tree.shape);
        tree.Delete(p);
      }
      list := Without(list, p);
      if cache == Some(p) {
        cache := None;
      }
      count := count - 1;
      AreasSame(m0, tree.mem, tree.nil, list);
      StillThere(old(list), p, cache);
    }

    method CreateVma(alloc: Option<Ptr>, junk: Node, v: Vma)
      requires Valid() && (alloc.Some? ==> alloc.value !in tree.mem)
      modifies tree
      ensures Valid() && View() == old(View())
      ensures tree.mem == if alloc.Some? then old(tree.mem)[alloc.value := junk.(vma := v)] else old(tree.mem)
    {
      if alloc.Some? {
        ghost var m0 := tree.mem;
        tree.mem := tree.mem[alloc.value := junk.(vma := v)];
        ElsewhereKeeps(m0, tree.mem, tree.root, tree.nil, tree.shape, list);
      }
    }

    method DestroyVma(p: Ptr)
      requires Valid() && p in tree.mem && p != tree.nil && p !in list
      modifies tree
      ensures Valid() && View() == old(View()) && tree.mem == old(tree.mem) - {p}
    {
      ghost var m0 := tree.mem;
      tree.mem := tree.mem - {p};
      InorderNodes(tree.shape);
      ElsewhereKeeps(m0, tree.mem, tree.root, tree.nil, tree.shape, list);
    }

    /** Change the range of an area where it stands, list and tree order permitting. */
    method Reshape(p: Ptr, start: nat, end: nat)
      requires Valid() && p in list && UserAccess(start, end) && start % PAGE_SIZE == 0 && end % PAGE_SIZE == 0
      requires Disjoint(View()[IndexOf(list, p) := tree.mem[p].vma.(start := start, end := end)])
      modifies tree
      ensures Valid() && tree.mem == old(tree.mem)[p := old(tree.mem[p]).(vma := old(tree.mem[p].vma).(start := start, end := end))]
      ensures forall x: nat ::
                Lookup(View(), x) == if start <= x < end then Some(tree.mem[p].vma.flags)
                                     else if Covers(old(tree.mem[p].vma), x) then None else old(Lookup(View(), x))
    {
      ghost var m0, v := tree.mem, tree.mem[p].vma.(start := start, end := end);
      tree.mem := tree.mem[p := tree.mem[p].(vma := tree.mem[p].vma.(start := start, end := end))];
      ReshapeKeeps(m0, tree.root, tree.nil, tree.shape, list, p, v);
      if Inorder(tree.shape) == list {
        ListSorted(tree.mem, tree.nil, list);
      }
    }

    // ---- mm_unmap

    /** Take the areas that meet the range off the list, starting with the one at position k. */
    method Detach(k: nat, start: nat, end: nat) returns (free: seq<Ptr>)
      requires Valid() && Lined(tree.mem, list, k, start, end) && k < |list|
      modifies this, tree
      ensures Valid() && SameData(old(tree.mem), tree.mem) && Misses(View(), start, end)
      ensures Loose(tree.mem, tree.nil, list, free, start, end) && Split(tree.mem, list, free, old(View()), iset{})
    {
      free := [];
      var more := true;
      SplitStart(tree.mem, tree.nil, list, start, end);
      while more && tree.mem[list[k]].vma.start < end
        invariant Valid() && SameData(old(tree.mem), tree.mem)
        invariant Lined(tree.mem, list, k, start, end) && (more <==> k < |list|)
        invariant Loose(tree.mem, tree.nil, list, free, start, end) && Split(tree.mem, list, free, old(View()), iset{})
        decreases |list|
      {
        more, free := DetachOne(k, start, end, free, old(View()));
      }
      LinedEnd(tree.mem, tree.nil, list, k, start, end);
    }

    method DetachOne(k: nat, start: nat, end: nat, free: seq<Ptr>, ghost was: seq<Vma>) returns (more: bool, free': seq<Ptr>)
      requires Valid() && Lined(tree.mem, list, k, start, end) && k < |list| && tree.mem[list[k]].vma.start < end
      requires Loose(tree.mem, tree.nil, list, free, start, end) && Split(tree.mem, list, free, was, iset{})
      modifies this, tree
      ensures Valid() && SameData(old(tree.mem), tree.mem) && |list| < |old(list)|
      ensures Lined(tree.mem, list, k, start, end) && (more <==> k < |list|)
      ensures Loose(tree.mem, tree.nil, list, free', start, end) && Split(tree.mem, list, free', was, iset{})
    {
      ghost var m0, s0 := tree.mem, list;
      var vma := list[k];
      more := k + 1 < |list|;
      SplitPush(m0, tree.nil, s0, free, vma, was, start, end);
      LoosePush(m0, tree.nil, s0, free, vma, start, end);
      LinedPush(m0, tree.nil, s0, k, start, end);
      RemoveVma(vma);
      free' := [vma] + free;
      LooseSame(m0, tree.mem, tree.nil, list, free', was, iset{}, start, end);
    }

    /** vma_resize of a node off the list. */
    method ResizeVma(p: Ptr, start: nat, end: nat)
      requires Valid() && p in tree.mem && p != tree.nil && p !in list
      requires start % PAGE_SIZE == 0 && end % PAGE_SIZE == 0
      requires tree.mem[p].vma.start <= start < end <= tree.mem[p].vma.end
      modifies tree
      ensures Valid() && View() == old(View())
      ensures tree.mem == old(tree.mem)[p := old(tree.mem[p]).(vma := old(tree.mem[p].vma).(start := start, end := end))]
    {
      ghost var m0 := tree.mem;
      tree.mem := tree.mem[p := tree.mem[p].(vma := tree.mem[p].vma.(start := start, end := end))];
      InorderNodes(tree.shape);
      ElsewhereKeeps(m0, tree.mem, tree.root, tree.nil, tree.shape, list);
    }

    /** The part of a loose area that sticks out of the range goes back on the list. */
    method PutBack(p: Ptr, start: nat, end: nat)
      requires Valid() && p in tree.mem && p != tree.nil && p !in list && Good(tree.mem[p].vma)
      requires start % PAGE_SIZE == 0 && end % PAGE_SIZE == 0
      requires tree.mem[p].vma.start <= start < end <= tree.mem[p].vma.end
      requires forall x :: Covers(tree.mem[p].vma, x) ==> Lookup(View(), x) == None
      modifies this, tree
      ensures Valid() && (forall q :: q in list ==> q in old(list) || q == p) && p in list
      ensures tree.mem.Keys == old(tree.mem.Keys) && forall q :: q in old(tree.mem) && q != p ==> tree.mem[q].vma == old(tree.mem[q].vma)
      ensures forall x: nat ::
                Lookup(View(), x) == if start <= x < end then Some(old(tree.mem[p].vma.flags)) else old(Lookup(View(), x))
    {
      ResizeVma(p, start, end);
      AddArea(p);
    }

    /** Trim or destroy one loose area; `r` is the part of it whose pages are unmapped. */
    method TrimOne(p: Ptr, rest: seq<Ptr>, start: nat, end: nat, ghost was: seq<Vma>, ghost gone: iset<nat>)
      returns (r: (nat, nat))
      requires Valid() && Misses(View(), start, end) && UserAccess(start, end) && start % PAGE_SIZE == 0 && end % PAGE_SIZE == 0
      requires Loose(tree.mem, tree.nil, list, [p] + rest, start, end) && Split(tree.mem, list, [p] + rest, was, gone)
      modifies this, tree
      ensures Valid() && Loose(tree.mem, tree.nil, list, rest, start, end)
      ensures Split(tree.mem, list, rest, was, gone + Span(r.0, r.1))
      ensures forall x: nat :: start <= x < end ==> Lookup(View(), x) == None
      ensures start <= r.0 < r.1 <= end && forall x: nat :: r.0 <= x < r.1 ==> Lookup(was, x) != None
      ensures tree.mem.Keys <= old(tree.mem.Keys)
    {
      ghost var m0, list0 := tree.mem, list;
      LooseTail(m0, tree.nil, list0, p, rest, start, end);
      ghost var v := m0[p].vma;
      FirstHeld(m0, list0, p, rest, was, gone);
      FreeIsMisses(View(), start, end);
      ghost var keep: iset<nat>;
      if tree.mem[p].vma.start < start {
        r := (start, tree.mem[p].vma.end);
        keep := Span(v.start, start);
        PutBack(p, tree.mem[p].vma.start, start);
      } else if tree.mem[p].vma.end <= end {
        r := (tree.mem[p].vma.start, tree.mem[p].vma.end);
        keep := iset{};
        DestroyVma(p);
      } else {
        r := (tree.mem[p].vma.start, end);
        keep := Span(end, v.end);
        PutBack(p, end, tree.mem[p].vma.end);
      }
      LooseMove(m0, tree.mem, tree.nil, list0, list, p, rest, start, end);
      SplitPop(m0, tree.mem, list0, list, p, rest, was, gone, keep, Span(r.0, r.1));
    }

    method TrimAll(free: seq<Ptr>, start: nat, end: nat, ghost was: seq<Vma>) returns (ranges: seq<(nat, nat)>)
      requires Valid() && Misses(View(), start, end) && UserAccess(start, end) && start % PAGE_SIZE == 0 && end % PAGE_SIZE == 0
      requires Loose(tree.mem, tree.nil, list, free, start, end) && Split(tree.mem, list, free, was, iset{})
      modifies this, tree
      ensures Valid() && tree.mem.Keys <= old(tree.mem.Keys)
      ensures forall x: nat :: Lookup(View(), x) == if start <= x < end then None else Lookup(was, x)
      ensures forall x: nat :: InRanges(ranges, x) <==> start <= x < end && Lookup(was, x) != None
    {
      ranges := [];
      var left := free;
      assert Gone(ranges) == iset{};
      while left != []
        invariant Valid() && Misses(View(), start, end)
        invariant Loose(tree.mem, tree.nil, list, left, start, end) && Split(tree.mem, list, left, was, Gone(ranges))
        invariant GoneOk(ranges, was, start, end) && tree.mem.Keys <= old(tree.mem.Keys)
        decreases |left|
      {
        assert left == [left[0]] + left[1..];
        var r := TrimOne(left[0], left[1..], start, end, was, Gone(ranges));
        FreeIsMisses(View(), start, end);
        GonePush(ranges, r, was, start, end);
        MoreGone(tree.mem, list, left[1..], was, Gone(ranges) + Span(r.0, r.1), Gone(ranges + [r]));
        left := left[1..];
        ranges := ranges + [r];
      }
      AllDone(tree.mem, tree.nil, list, was, ranges, start, end);
    }

    /** The range lies inside one area: a new area takes the left part, the old one keeps the right part. */
    method SplitArea(vma: Ptr, left: Ptr, start: nat, end: nat)
      requires Valid() && vma in list && UserAccess(start, end) && start % PAGE_SIZE == 0 && end % PAGE_SIZE == 0
      requires tree.mem[vma].vma.start < start && end < tree.mem[vma].vma.end
      requires left in tree.mem && left != tree.nil && left !in list && tree.mem[left].vma == tree.mem[vma].vma.(end := start)
      modifies this, tree
      ensures Valid() && tree.mem.Keys <= old(tree.mem.Keys)
      ensures forall x: nat :: Lookup(View(), x) == if start <= x < end then None else old(Lookup(View(), x))
    {
      KeepRight(vma, end);
      AddArea(left);
    }

    /** An area loses what lies below `start`. */
    method KeepRight(vma: Ptr, start: nat)
      requires Valid() && vma in list && start % PAGE_SIZE == 0
      requires tree.mem[vma].vma.start <= start < tree.mem[vma].vma.end
      modifies tree
      ensures Valid() && tree.mem == old(tree.mem)[vma := old(tree.mem[vma]).(vma := old(tree.mem[vma].vma).(start := start))]
      ensures forall x: nat :: Lookup(View(), x) == if Covers(old(tree.mem[vma].vma), x) && x < start then None else old(Lookup(View(), x))
      ensures forall x: nat :: Covers(old(tree.mem[vma].vma), x) ==> old(Lookup(View(), x)) == Some(old(tree.mem[vma].vma.flags))
    {
      ghost var a := View();
      GoodArea(tree.mem, tree.nil, list, vma);
      ShrinkOk(a, IndexOf(list, vma), start);
      AllCovered(a, IndexOf(list, vma));
      Reshape(vma, start, tree.mem[vma].vma.end);
    }

    /** insert_vma_struct, told by addresses: the area's range must be free. */
    method AddArea(p: Ptr)
      requires Valid() && p in tree.mem && p != tree.nil && p !in list && Good(tree.mem[p].vma)
      requires forall x :: Covers(tree.mem[p].vma, x) ==> Lookup(View(), x) == None
      modifies this, tree
      ensures Valid() && (forall q :: q in list ==> q in old(list) || q == p) && p in list
      ensures SameData(old(tree.mem), tree.mem)
      ensures forall x :: Lookup(View(), x) ==
                          if Covers(old(tree.mem[p].vma), x) then Some(old(tree.mem[p].vma.flags)) else old(Lookup(View(), x))
    {
      FreeIsMisses(View(), tree.mem[p].vma.start, tree.mem[p].vma.end);
      PlacedMembers(tree.mem, list, p);
      InsertVma(p);
    }

    /** The general case: areas are taken off, trimmed and put back. */
    method UnmapAreas(vma: Ptr, start: nat, end: nat) returns (ranges: seq<(nat, nat)>)
      requires Valid() && UserAccess(start, end) && start % PAGE_SIZE == 0 && end % PAGE_SIZE == 0
      requires Pick(list, Above(View(), start)) == Some(vma)
      requires start <= tree.mem[vma].vma.start || tree.mem[vma].vma.end <= end
      modifies this, tree
      ensures Valid() && tree.mem.Keys <= old(tree.mem.Keys)
      ensures forall x: nat :: Lookup(View(), x) == if start <= x < end then None else old(Lookup(View(), x))
      ensures forall x: nat :: InRanges(ranges, x) <==> start <= x < end && old(Lookup(View(), x)) != None
    {
      ghost var a := View();
      LinedStart(tree.mem, tree.nil, list, start, end);
      var k := IndexOf(list, vma);
      ListDistinct(tree.mem, tree.nil, list, k, Above(a, start));
      var free := Detach(k, start, end);
      ranges := TrimAll(free, start, end, a);
    }

    /** The body of mm_unmap, the range being rounded and in user space. */
    method UnmapRange(start: nat, end: nat, alloc: Option<Ptr>, junk: Node) returns (ret: int, ranges: seq<(nat, nat)>)
      requires Valid() && UserAccess(start, end) && start % PAGE_SIZE == 0 && end % PAGE_SIZE == 0
      requires alloc.Some? ==> alloc.value !in tree.mem
      modifies this, tree
      ensures Valid() && ret == if alloc.None? && Inside(old(View()), start, end) then -E_NO_MEM else 0
      ensures ret == 0 ==> forall x: nat :: Lookup(View(), x) == if start <= x < end then None else old(Lookup(View(), x))
      ensures ret == 0 ==> forall x: nat :: InRanges(ranges, x) <==> start <= x < end && old(Lookup(View(), x)) != None
      ensures ret != 0 ==> View() == old(View())
      ensures tree.mem.Keys <= old(tree.mem.Keys) + if alloc.Some? then {alloc.value} else {}
    {
      ranges := [];
      var vma := FindVma(start);
      ghost var a := View();
      AboveMeets(a, start, end);
      FreeIsMisses(a, start, end);
      InsideIs(a, start, end);
      if vma.None? || end <= tree.mem[vma.value].vma.start {
        return 0, [];
      }
      if tree.mem[vma.value].vma.start < start && end < tree.mem[vma.value].vma.end {
        CreateVma(alloc, junk, tree.mem[vma.value].vma.(end := start));
        if alloc.None? {
          return -E_NO_MEM, [];
        }
        AllInside(a, Above(a, start), start, end);
        OneRange(start, end);
        SplitArea(vma.value, alloc.value, start, end);
        return 0, [(start, end)];
      }
      ranges := UnmapAreas(vma.value, start, end);
      return 0, ranges;
    }

    /** Exact subtraction of a range, or nothing at all. */
    method MmUnmap(addr: nat, len: nat, alloc: Option<Ptr>, junk: Node) returns (ret: int, ranges: seq<(nat, nat)>)
      requires Valid() && addr < WORD && len < WORD && (alloc.Some? ==> alloc.value !in tree.mem)
      modifies this, tree
      ensures Valid()
      ensures ret == if !UserAccess(RoundDown(addr), RangeEnd(addr, len)) then -E_INVAL
                     else if alloc.None? && Inside(old(View()), RoundDown(addr), RangeEnd(addr, len)) then -E_NO_MEM else 0
      ensures tree.mem.Keys <= old(tree.mem.Keys) + if alloc.Some? then {alloc.value} else {}
      ensures ret != 0 ==> View() == old(View())
      ensures ret == 0 ==> forall x: nat ::
                Lookup(View(), x) == if RoundDown(addr) <= x < RangeEnd(addr, len) then None else old(Lookup(View(), x))
      ensures ret == 0 ==> forall x: nat ::
                InRanges(ranges, x) <==> RoundDown(addr) <= x < RangeEnd(addr, len) && old(Lookup(View(), x)) != None
      ensures len > 0 && addr + len < WORD ==> (ret == -E_INVAL <==> !(0x0020_0000 <= addr && addr + len <= 0xB000_0000))
      ensures len > 0 && addr + len < WORD && ret == 0 ==> forall x: nat ::
                Lookup(View(), x) == if Asked(addr, len, x) then None else old(Lookup(View(), x))
    {
      if len > 0 && addr + len < WORD {
        AccessIs(addr, len);
      }
      var start, end: nat := RoundDown(addr), RangeEnd(addr, len);
      if !UserAccess(start, end) {
        return -E_INVAL, [];
      }
      ret, ranges := UnmapRange(start, end, alloc, junk);
      if len > 0 && addr + len < WORD {
        RangeIs(addr, len);
      }
    }

    // ---- mm_map

    /** A new area on a free range, with VM_SHARE cleared. */
    method MmMap(addr: nat, len: nat, flags: bv32, alloc: Option<Ptr>, junk: Node) returns (ret: int, store: Option<Ptr>)
      requires Valid() && addr < WORD && len < WORD && (alloc.Some? ==> alloc.value !in tree.mem)
      modifies this, tree
      ensures Valid()
      ensures ret == if !UserAccess(RoundDown(addr), RangeEnd(addr, len)) || !Misses(old(View()), RoundDown(addr), RangeEnd(addr, len))
                     then -E_INVAL else if alloc.None? then -E_NO_MEM else 0
      ensures ret != 0 ==> View() == old(View()) && store == None
      ensures ret == 0 ==> store == alloc && store.value in list && forall x: nat ::
                Lookup(View(), x) == if RoundDown(addr) <= x < RangeEnd(addr, len) then Some(flags & !VM_SHARE) else old(Lookup(View(), x))
      ensures len > 0 && addr + len < WORD ==> (ret == -E_INVAL <==>
                !(0x0020_0000 <= addr && addr + len <= 0xB000_0000 && forall x: nat :: Asked(addr, len, x) ==> old(Lookup(View(), x)) == None))
      ensures len > 0 && addr + len < WORD && ret == 0 ==> forall x: nat ::
                Lookup(View(), x) == if Asked(addr, len, x) then Some(flags & !VM_SHARE) else old(Lookup(View(), x))
    {
      if len > 0 && addr + len < WORD {
        AccessIs(addr, len);
      }
      var start, end: nat := RoundDown(addr), RangeEnd(addr, len);
      if !UserAccess(start, end) {
        return -E_INVAL, None;
      }
      FreeIsMisses(View(), start, end);
      if len > 0 && addr + len < WORD {
        RangeIs(addr, len);
      }
      ret := MapRange(start, end, flags & !VM_SHARE, alloc, junk);
      store := if ret == 0 then alloc else None;
    }

    method MapRange(start: nat, end: nat, flags: bv32, alloc: Option<Ptr>, junk: Node) returns (ret: int)
      requires Valid() && UserAccess(start, end) && start % PAGE_SIZE == 0 && end % PAGE_SIZE == 0
      requires alloc.Some? ==> alloc.value !in tree.mem
      modifies this, tree
      ensures Valid() && ret == if !Misses(old(View()), start, end) then -E_INVAL else if alloc.None? then -E_NO_MEM else 0
      ensures ret != 0 ==> View() == old(View())
      ensures ret == 0 ==> alloc.value in list
      ensures ret == 0 ==> forall x: nat :: Lookup(View(), x) == if start <= x < end then Some(flags) else old(Lookup(View(), x))
    {
      var vma := FindVma(start);
      AboveMeets(View(), start, end);
      if vma.Some? && end > tree.mem[vma.value].vma.start {
        return -E_INVAL;
      }
      FreeIsMisses(View(), start, end);
      ret := NewArea(start, end, flags, alloc, junk);
    }

    method NewArea(start: nat, end: nat, flags: bv32, alloc: Option<Ptr>, junk: Node) returns (ret: int)
      requires Valid() && UserAccess(start, end) && start % PAGE_SIZE == 0 && end % PAGE_SIZE == 0
      requires alloc.Some? ==> alloc.value !in tree.mem
      requires forall x: nat :: start <= x < end ==> Lookup(View(), x) == None
      modifies this, tree
      ensures Valid() && ret == if alloc.None? then -E_NO_MEM else 0
      ensures ret != 0 ==> View() == old(View())
      ensures ret == 0 ==> alloc.value in list
      ensures ret == 0 ==> forall x: nat :: Lookup(View(), x) == if start <= x < end then Some(flags) else old(Lookup(View(), x))
    {
      CreateVma(alloc, junk, Vma(start, end, flags));
      if alloc.None? {
        return -E_NO_MEM;
      }
      AddArea(alloc.value);
      return 0;
    }

    // ---- mm_brk

    /** The range is overwritten with a readable and writable area; if the new area cannot be made it is only unmapped. */
    method MmBrk(addr: nat, len: nat, alloc: Option<Ptr>, alloc2: Option<Ptr>, junk: Node) returns (ret: int)
      requires Valid() && addr < WORD && len < WORD
      requires (alloc.Some? ==> alloc.value !in tree.mem) && (alloc2.Some? ==> alloc2.value !in tree.mem && alloc2 != alloc)
      modifies this, tree
      ensures Valid()
      ensures ret == if !UserAccess(RoundDown(addr), RangeEnd(addr, len)) then -E_INVAL
                     else if alloc.None? && Inside(old(View()), RoundDown(addr), RangeEnd(addr, len)) then -E_NO_MEM
                     else if alloc2.None? && old(Lookup(View(), RoundDown(addr) - 1)) != Some(VM_READ | VM_WRITE) then -E_NO_MEM else 0
      ensures ret == 0 ==> forall x: nat ::
                Lookup(View(), x) == if RoundDown(addr) <= x < RangeEnd(addr, len) then Some(VM_READ | VM_WRITE) else old(Lookup(View(), x))
      ensures ret == -E_INVAL || (ret != 0 && alloc.None? && Inside(old(View()), RoundDown(addr), RangeEnd(addr, len))) ==>
                View() == old(View())
      ensures ret == -E_NO_MEM && !(alloc.None? && Inside(old(View()), RoundDown(addr), RangeEnd(addr, len))) ==> forall x: nat ::
                Lookup(View(), x) == if RoundDown(addr) <= x < RangeEnd(addr, len) then None else old(Lookup(View(), x))
      ensures len > 0 && addr + len < WORD ==> (ret == -E_INVAL <==> !(0x0020_0000 <= addr && addr + len <= 0xB000_0000))
      ensures len > 0 && addr + len < WORD && ret == 0 ==> forall x: nat ::
                Lookup(View(), x) == if Asked(addr, len, x) then Some(VM_READ | VM_WRITE) else old(Lookup(View(), x))
    {
      if len > 0 && addr + len < WORD {
        AccessIs(addr, len);
      }
      var start, end: nat := RoundDown(addr), RangeEnd(addr, len);
      if !UserAccess(start, end) {
        return -E_INVAL;
      }
      ret := Replace(start, end, alloc, alloc2, junk);
      if len > 0 && addr + len < WORD {
        RangeIs(addr, len);
      }
    }

    /** Unmap the range, then grow the area before it or make a new one. */
    method Replace(start: nat, end: nat, alloc: Option<Ptr>, alloc2: Option<Ptr>, junk: Node) returns (ret: int)
      requires Valid() && UserAccess(start, end) && start % PAGE_SIZE == 0 && end % PAGE_SIZE == 0
      requires (alloc.Some? ==> alloc.value !in tree.mem) && (alloc2.Some? ==> alloc2.value !in tree.mem && alloc2 != alloc)
      modifies this, tree
      ensures Valid()
      ensures ret == if alloc.None? && Inside(old(View()), start, end) then -E_NO_MEM
                     else if alloc2.None? && old(Lookup(View(), start - 1)) != Some(VM_READ | VM_WRITE) then -E_NO_MEM else 0
      ensures ret == 0 ==> forall x: nat ::
                Lookup(View(), x) == if start <= x < end then Some(VM_READ | VM_WRITE) else old(Lookup(View(), x))
      ensures ret != 0 && alloc.None? && Inside(old(View()), start, end) ==> View() == old(View())
      ensures ret != 0 && !(alloc.None? && Inside(old(View()), start, end)) ==> forall x: nat ::
                Lookup(View(), x) == if start <= x < end then None else old(Lookup(View(), x))
    {
      RoundedTwice(start, end);
      var ranges;
      ret, ranges := MmUnmap(start, end - start, alloc, junk);
      if ret != 0 {
        return;
      }
      ret := GrowOrMake(start, end, alloc2, junk);
    }

    method GrowOrMake(start: nat, end: nat, alloc: Option<Ptr>, junk: Node) returns (ret: int)
      requires Valid() && UserAccess(start, end) && start % PAGE_SIZE == 0 && end % PAGE_SIZE == 0
      requires alloc.Some? ==> alloc.value !in tree.mem
      requires forall x: nat :: start <= x < end ==> Lookup(View(), x) == None
      modifies this, tree
      ensures Valid() && ret == if alloc.None? && old(Lookup(View(), start - 1)) != Some(VM_READ | VM_WRITE) then -E_NO_MEM else 0
      ensures ret != 0 ==> View() == old(View())
      ensures ret == 0 ==> forall x: nat ::
                Lookup(View(), x) == if start <= x < end then Some(VM_READ | VM_WRITE) else old(Lookup(View(), x))
    {
      ghost var a := View();
      Neighbour(a, start);
      var vma := FindVma(start - 1);
      assert View() == a;
      if vma.Some? && tree.mem[vma.value].vma.end == start && tree.mem[vma.value].vma.flags == VM_READ | VM_WRITE {
        GrowArea(vma.value, end);
        return 0;
      }
      ret := NewArea(start, end, VM_READ | VM_WRITE, alloc, junk);
    }

    /** An area is extended over the free range behind it. */
    method GrowArea(vma: Ptr, end: nat)
      requires Valid() && vma in list && tree.mem[vma].vma.end < end <= USER_TOP && end % PAGE_SIZE == 0
      requires forall x: nat :: tree.mem[vma].vma.end <= x < end ==> Lookup(View(), x) == None
      modifies tree
      ensures Valid()
      ensures forall x: nat ::
                Lookup(View(), x) == if old(tree.mem[vma].vma.end) <= x < end then Some(old(tree.mem[vma].vma.flags)) else old(Lookup(View(), x))
    {
      ghost var a, k := View(), IndexOf(list, vma);
      GoodArea(tree.mem, tree.nil, list, vma);
      FreeIsMisses(a, a[k].end, end);
      GrowOk(a, k, end);
      AllCovered(a, k);
      Reshape(vma, tree.mem[vma].vma.start, end);
    }

    // ---- get_unmapped_area

    /** The highest free place of this size in user space, 0 if there is none. */
    method GetUnmappedArea(len: nat) returns (start: nat)
      requires Valid()
      ensures len == 0 ==> start == 0
      ensures start != 0 ==> Place(View(), start, len) && forall s :: s > start ==> !Place(View(), s, len)
      ensures start == 0 && len != 0 ==> forall s :: !Place(View(), s, len)
    {
      if len == 0 || len > USER_TOP {
        return 0;
      }
      start := USER_TOP - len;
      var i := |list|;
      ghost var a := View();
      while i > 0
        invariant 0 <= i <= |list| && start + len <= USER_TOP
        invariant Misses(a[i..], start, start + len) && forall s :: s > start ==> !Place(a, s, len)
      {
        i := i - 1;
        var vma := tree.mem[list[i]].vma;
        assert a[i] == vma && Good(vma) && a[i..] == [vma] + a[i + 1..];
        if start >= vma.end {
          PlaceFound(a, i, start, len);
          return;
        }
        if start + len > vma.start {
          NoPlaceAt(a, i, start, len);
          if len >= vma.start {
            return 0;
          }
          start := vma.start - len;
          PlaceBelow(a, i, start, len);
        }
      }
      assert a[0..] == a;
      if start < USER_BASE {
        return 0;
      }
    }
  }
}

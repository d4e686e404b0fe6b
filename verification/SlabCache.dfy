/** slab.c: one kmem_cache, whose slabs chain their free objects through an array of indices. */
module SlabCache {
  import opened BuddyMath
  import opened Lists
  import opened SlabGeometry

  const BUFCTL_END := 0xFFFF_FFFF

  type Addr = nat

  /** slab_t with its bufctl array; s_mem is the cache's offset past its first page. */
  datatype Slab = Slab(page: nat, inuse: nat, free: nat, bufctl: seq<nat>)

  // One slab.

  /** chain is the list of indices that starts at free and follows bufctl to BUFCTL_END. */
  ghost predicate Linked(bufctl: seq<nat>, free: nat, chain: seq<nat>)
    decreases |chain|
  {
    if chain == [] then free == BUFCTL_END
    else free == chain[0] && free < |bufctl| && Linked(bufctl, bufctl[free], chain[1..])
  }

  /** The chain has no cycle, ends at BUFCTL_END and has one index for every object not in use. */
  ghost predicate SlabOk(g: Geometry, s: Slab, chain: seq<nat>) {
    && |s.bufctl| == g.num && Linked(s.bufctl, s.free, chain) && Distinct(chain)
    && (forall i :: 0 <= i < |chain| ==> chain[i] < g.num)
    && s.inuse + |chain| == g.num
  }

  /** The fields of the slab determine the chain. */
  lemma {:induction false} ChainUnique(bufctl: seq<nat>, free: nat, a: seq<nat>, b: seq<nat>)
    requires Linked(bufctl, free, a) && Linked(bufctl, free, b) && |bufctl| <= BUFCTL_END
    ensures a == b
    decreases |a|
  {
    if a != [] && b != [] {
      ChainUnique(bufctl, bufctl[free], a[1..], b[1..]);
      assert a == [free] + a[1..] && b == [free] + b[1..];
    }
  }

  lemma {:induction false} LinkedElsewhere(bufctl: seq<nat>, i: nat, v: nat, free: nat, chain: seq<nat>)
    requires Linked(bufctl, free, chain) && i < |bufctl| && i !in chain
    ensures Linked(bufctl[i := v], free, chain)
    decreases |chain|
  {
    if chain != [] {
      HeadOrTail(chain, i);
      LinkedElsewhere(bufctl, i, v, bufctl[free], chain[1..]);
    }
  }

  /** The indices from i up. */
  function From(i: nat, n: nat): (r: seq<nat>)
    requires i <= n
    ensures |r| == n - i && forall k :: 0 <= k < |r| ==> r[k] == i + k
    decreases n - i
  {
    if i == n then [] else [i] + From(i + 1, n)
  }

  lemma {:induction false} FreshLinked(bufctl: seq<nat>, i: nat)
    requires 0 < |bufctl| < BUFCTL_END && i < |bufctl| && bufctl[|bufctl| - 1] == BUFCTL_END
    requires forall k :: 0 <= k < |bufctl| - 1 ==> bufctl[k] == k + 1
    ensures Linked(bufctl, i, From(i, |bufctl|))
    decreases |bufctl| - i
  {
    if i + 1 < |bufctl| {
      FreshLinked(bufctl, i + 1);
    } else {
      assert From(i, |bufctl|)[1..] == [];
    }
  }

  /** kmem_cache_alloc_one takes the head of the chain. */
  lemma PopOk(g: Geometry, s: Slab, chain: seq<nat>)
    requires SlabOk(g, s, chain) && chain != []
    ensures s.free == chain[0] < g.num
    ensures SlabOk(g, s.(inuse := s.inuse + 1, free := s.bufctl[s.free]), chain[1..])
    ensures chain[0] !in chain[1..]
  {
  }

  /** kmem_cache_free_one puts an index back in front. */
  lemma PushOk(g: Geometry, s: Slab, chain: seq<nat>, i: nat)
    requires SlabOk(g, s, chain) && i < g.num && i !in chain
    ensures s.inuse > 0
    ensures SlabOk(g, s.(bufctl := s.bufctl[i := s.free], free := i, inuse := s.inuse - 1), [i] + chain)
  {
    LinkedElsewhere(s.bufctl, i, s.free, s.free, chain);
    Crowd([i] + chain, g.num);
    assert ([i] + chain)[1..] == chain;
  }

  /** Different numbers below n are at most n. */
  lemma {:induction false} Crowd(s: seq<nat>, n: nat)
    requires Distinct(s) && forall i :: 0 <= i < |s| ==> s[i] < n
    ensures |s| <= n
    decreases n
  {
    assert |s| > 0 ==> s[0] < n;
    if n > 0 {
      var top: nat := n - 1;
      if top in s {
        var rest := Without<nat>(s, top);
        WithoutDistinct(s, top);
        WithoutSize(s, top);
        forall i | 0 <= i < |rest|
          ensures rest[i] < top
        {
          assert rest[i] in rest;
          WithoutMembers<nat>(s, top, rest[i]);
        }
        Crowd(rest, top);
      } else {
        Crowd(s, top);
      }
    }
  }

  // The cache: its slabs by the address of their slab_t, its two lists, and the pages' back pointers.

  datatype Cache = Cache(
    slabs: map<Addr, Slab>, partial: seq<Addr>, full: seq<Addr>, owner: map<nat, Addr>, chains: map<Addr, seq<nat>>)

  function Obj(g: Geometry, s: Slab, i: nat): Addr {
    s.page * PAGE_SIZE + g.offset + i * g.objsize
  }

  predicate InSlab(g: Geometry, s: Slab, pg: nat) {
    s.page <= pg < s.page + Pow2(g.order)
  }

  ghost predicate SlabsOk(g: Geometry, c: Cache) {
    && c.chains.Keys == c.slabs.Keys
    && forall d :: d in c.slabs ==>
         SlabOk(g, c.slabs[d], c.chains[d]) && (!g.offSlab ==> d == c.slabs[d].page * PAGE_SIZE)
  }

  /** A slab is on the full list when its chain is empty and on the partial list otherwise. */
  ghost predicate ListsOk(c: Cache) {
    && c.chains.Keys == c.slabs.Keys && Distinct(c.partial) && Distinct(c.full)
    && (forall d :: d in c.partial <==> d in c.slabs && c.chains[d] != [])
    && (forall d :: d in c.full <==> d in c.slabs && c.chains[d] == [])
  }

  /** Slabs share no page, and every page of a slab points to it. */
  ghost predicate OwnersOk(g: Geometry, c: Cache) {
    && (forall pg :: pg in c.owner ==> c.owner[pg] in c.slabs && InSlab(g, c.slabs[c.owner[pg]], pg))
    && forall d, pg :: d in c.slabs && InSlab(g, c.slabs[d], pg) ==> pg in c.owner && c.owner[pg] == d
  }

  datatype Part = Fit | Slabs | Linking | Owning

  ghost predicate CacheIn(part: Part, g: Geometry, c: Cache) {
    match part
    case Fit => Sound(g)
    case Slabs => SlabsOk(g, c)
    case Linking => ListsOk(c)
    case Owning => OwnersOk(g, c)
  }

  ghost predicate CacheOk(g: Geometry, c: Cache) {
    forall part :: CacheIn(part, g, c)
  }

  lemma CacheIs(g: Geometry, c: Cache)
    ensures CacheOk(g, c) <==> Sound(g) && SlabsOk(g, c) && ListsOk(c) && OwnersOk(g, c)
  {
    assert CacheOk(g, c) ==> CacheIn(Fit, g, c) && CacheIn(Slabs, g, c) && CacheIn(Linking, g, c) && CacheIn(Owning, g, c);
    if Sound(g) && SlabsOk(g, c) && ListsOk(c) && OwnersOk(g, c) {
      forall part
        ensures CacheIn(part, g, c)
      {
        match part
        case Fit =>
        case Slabs =>
        case Linking =>
        case Owning =>
      }
    }
  }

  /** Between calls no slab is empty: the last free gives it back. */
  ghost predicate Busy(c: Cache) {
    forall d :: d in c.slabs ==> c.slabs[d].inuse > 0
  }

  /** Object i of slab d is handed out. */
  ghost predicate IsLive(g: Geometry, c: Cache, d: Addr, i: nat) {
    d in c.slabs && d in c.chains && i < g.num && i !in c.chains[d]
  }

  // Objects do not overlap.

  lemma ObjInside(g: Geometry, s: Slab, i: nat)
    requires Sound(g) && i < g.num
    ensures s.page * PAGE_SIZE + g.offset <= Obj(g, s, i)
    ensures Obj(g, s, i) + g.objsize <= s.page * PAGE_SIZE + SlabSize(g.order)
  {
    Product(i + 1, g.num, g.objsize);
  }

  /** Two objects of a cache are apart. */
  lemma ObjectsApart(g: Geometry, c: Cache, d: Addr, i: nat, e: Addr, j: nat)
    requires CacheOk(g, c) && d in c.slabs && e in c.slabs && i < g.num && j < g.num && (d, i) != (e, j)
    ensures Obj(g, c.slabs[d], i) + g.objsize <= Obj(g, c.slabs[e], j)
      || Obj(g, c.slabs[e], j) + g.objsize <= Obj(g, c.slabs[d], i)
  {
    assert CacheIn(Fit, g, c);
    if d == e {
      if i < j {
        Product(i + 1, j, g.objsize);
      } else {
        Product(j + 1, i, g.objsize);
      }
    } else {
      ObjInside(g, c.slabs[d], i);
      ObjInside(g, c.slabs[e], j);
      SlabsApart(g, c, d, e);
    }
  }

  /** An object is apart from every control block that lies in a slab. */
  lemma HeadersApart(g: Geometry, c: Cache, d: Addr, i: nat, e: Addr)
    requires CacheOk(g, c) && !g.offSlab && d in c.slabs && e in c.slabs && i < g.num
    ensures e + HEADER_SIZE + BUFCTL_SIZE * g.num <= Obj(g, c.slabs[d], i) || Obj(g, c.slabs[d], i) + g.objsize <= e
  {
    assert CacheIn(Fit, g, c) && CacheIn(Slabs, g, c);
    ObjInside(g, c.slabs[d], i);
    ObjInside(g, c.slabs[e], 0);
    if d != e {
      SlabsApart(g, c, d, e);
    }
  }

  lemma SlabsApart(g: Geometry, c: Cache, d: Addr, e: Addr)
    requires CacheOk(g, c) && d in c.slabs && e in c.slabs && d != e
    ensures c.slabs[d].page * PAGE_SIZE + SlabSize(g.order) <= c.slabs[e].page * PAGE_SIZE
      || c.slabs[e].page * PAGE_SIZE + SlabSize(g.order) <= c.slabs[d].page * PAGE_SIZE
  {
    assert CacheIn(Owning, g, c);
    var p, q := c.slabs[d].page, c.slabs[e].page;
    OwnerIs(g, c, d, p);
    OwnerIs(g, c, e, q);
    if p <= q < p + Pow2(g.order) {
      OwnerIs(g, c, d, q);
      assert false;
    } else if q <= p < q + Pow2(g.order) {
      OwnerIs(g, c, e, p);
      assert false;
    }
  }

  lemma OwnerIs(g: Geometry, c: Cache, d: Addr, pg: nat)
    requires OwnersOk(g, c) && d in c.slabs && c.slabs[d].page <= pg < c.slabs[d].page + Pow2(g.order)
    ensures pg in c.owner && c.owner[pg] == d
  {
    assert InSlab(g, c.slabs[d], pg);
  }

  /** kfree finds the slab of an object from its page, and the index by dividing. */
  lemma FindObject(g: Geometry, c: Cache, d: Addr, i: nat)
    requires CacheOk(g, c) && d in c.slabs && i < g.num
    ensures Obj(g, c.slabs[d], i) / PAGE_SIZE in c.owner && c.owner[Obj(g, c.slabs[d], i) / PAGE_SIZE] == d
    ensures g.objsize > 0 && (Obj(g, c.slabs[d], i) - (c.slabs[d].page * PAGE_SIZE + g.offset)) / g.objsize == i
  {
    assert CacheIn(Fit, g, c) && CacheIn(Owning, g, c);
    ObjInside(g, c.slabs[d], i);
    assert InSlab(g, c.slabs[d], Obj(g, c.slabs[d], i) / PAGE_SIZE);
    Quotient(i, g.objsize);
  }

  lemma Quotient(i: nat, b: nat)
    requires b > 0
    ensures i * b / b == i
  {
    var q := i * b / b;
    assert i * b == q * b + i * b % b;
    if q < i {
      Product(q + 1, i, b);
    } else if q > i {
      Product(i + 1, q, b);
    }
  }

  // Growing the cache.

  ghost predicate FreshPages(g: Geometry, c: Cache, page: nat) {
    forall pg :: page <= pg < page + Pow2(g.order) ==> pg !in c.owner
  }

  ghost predicate FreshBufctl(g: Geometry, b: seq<nat>) {
    && |b| == g.num && g.num > 0 && b[g.num - 1] == BUFCTL_END
    && forall k :: 0 <= k < g.num - 1 ==> b[k] == k + 1
  }

  /** SET_PAGE_SLAB on n pages. */
  function Own(owner: map<nat, Addr>, page: nat, n: nat, d: Addr): (r: map<nat, Addr>)
    ensures forall pg :: pg in r <==> pg in owner || page <= pg < page + n
    ensures forall pg :: pg in r ==> r[pg] == if page <= pg < page + n then d else owner[pg]
  {
    if n == 0 then owner else Own(owner, page, n - 1, d)[page + n - 1 := d]
  }

  /** ClearPageSlab on n pages. */
  function Disown(owner: map<nat, Addr>, page: nat, n: nat): (r: map<nat, Addr>)
    ensures forall pg :: pg in r <==> pg in owner && !(page <= pg < page + n)
    ensures forall pg :: pg in r ==> r[pg] == owner[pg]
  {
    if n == 0 then owner else Disown(owner, page, n - 1) - {page + n - 1}
  }

  ghost function Grown(g: Geometry, c: Cache, page: nat, d: Addr, b: seq<nat>): Cache {
    Cache(c.slabs[d := Slab(page, 0, 0, b)], [d] + c.partial, c.full,
      Own(c.owner, page, Pow2(g.order), d), c.chains[d := From(0, g.num)])
  }

  lemma GrowKeeps(g: Geometry, c: Cache, page: nat, d: Addr, b: seq<nat>)
    requires CacheOk(g, c) && FreshPages(g, c, page) && FreshBufctl(g, b)
    requires if g.offSlab then d !in c.slabs else d == page * PAGE_SIZE
    ensures d !in c.slabs && CacheOk(g, Grown(g, c, page, d, b))
    ensures forall e: Addr, i: nat :: IsLive(g, Grown(g, c, page, d, b), e, i) <==> IsLive(g, c, e, i)
  {
    NewDesc(g, c, page, d);
    CacheIs(g, c);
    GrowSlabs(g, c, page, d, b);
    GrowOwners(g, c, page, d, b);
    GrowLists(g, c, page, d, b);
    CacheIs(g, Grown(g, c, page, d, b));
  }

  lemma NewDesc(g: Geometry, c: Cache, page: nat, d: Addr)
    requires CacheOk(g, c) && FreshPages(g, c, page)
    requires if g.offSlab then d !in c.slabs else d == page * PAGE_SIZE
    ensures d !in c.slabs
  {
    assert CacheIn(Slabs, g, c) && CacheIn(Owning, g, c);
    if d in c.slabs {
      OwnerIs(g, c, d, page);
      assert false;
    }
  }

  lemma GrowSlabs(g: Geometry, c: Cache, page: nat, d: Addr, b: seq<nat>)
    requires SlabsOk(g, c) && Sound(g) && FreshBufctl(g, b) && d !in c.slabs && (!g.offSlab ==> d == page * PAGE_SIZE)
    ensures SlabsOk(g, Grown(g, c, page, d, b))
  {
    FreshLinked(b, 0);
  }

  lemma GrowOwners(g: Geometry, c: Cache, page: nat, d: Addr, b: seq<nat>)
    requires OwnersOk(g, c) && FreshPages(g, c, page) && d !in c.slabs
    ensures OwnersOk(g, Grown(g, c, page, d, b))
  {
  }

  lemma GrowLists(g: Geometry, c: Cache, page: nat, d: Addr, b: seq<nat>)
    requires ListsOk(c) && Sound(g) && d !in c.slabs
    ensures ListsOk(Grown(g, c, page, d, b))
    ensures forall e: Addr, i: nat :: IsLive(g, Grown(g, c, page, d, b), e, i) <==> IsLive(g, c, e, i)
  {
    assert forall i :: 0 <= i < g.num ==> From(0, g.num)[i] == i;
    forall i: nat
      ensures i < g.num ==> i in From(0, g.num)
    {
      assert i < g.num ==> From(0, g.num)[i] == i;
    }
  }

  // Taking an object and giving it back.

  /** kmem_cache_alloc_one: a slab whose chain runs out moves to the full list. */
  function Popped(c: Cache, d: Addr): Cache
    requires d in c.slabs && d in c.chains && c.chains[d] != [] && c.slabs[d].free < |c.slabs[d].bufctl|
  {
    var s := c.slabs[d];
    var t := s.(inuse := s.inuse + 1, free := s.bufctl[s.free]);
    var last := t.free == BUFCTL_END;
    c.(slabs := c.slabs[d := t], chains := c.chains[d := c.chains[d][1..]],
       partial := if last then Without(c.partial, d) else c.partial, full := if last then [d] + c.full else c.full)
  }

  lemma PopKeeps(g: Geometry, c: Cache, d: Addr)
    requires CacheOk(g, c) && d in c.partial
    ensures d in c.slabs && d in c.chains && c.chains[d] != [] && c.slabs[d].free < g.num == |c.slabs[d].bufctl|
    ensures CacheOk(g, Popped(c, d))
  {
    CacheIs(g, c);
    PopOk(g, c.slabs[d], c.chains[d]);
    var t := Popped(c, d);
    RenewKeeps(g, c, d, t);
    assert t.slabs[d].free == BUFCTL_END <==> t.chains[d] == [];
    if t.chains[d] == [] {
      FilledKeeps(g, c, t, d);
    } else {
      SameLists(c, t, d);
    }
    CacheIs(g, t);
  }

  lemma PopLive(g: Geometry, c: Cache, d: Addr)
    requires SlabsOk(g, c) && d in c.slabs && c.chains[d] != [] && c.slabs[d].free < |c.slabs[d].bufctl|
    ensures !IsLive(g, c, d, c.slabs[d].free)
    ensures forall e: Addr, i: nat ::
      IsLive(g, Popped(c, d), e, i) <==> IsLive(g, c, e, i) || (e == d && i == c.slabs[d].free)
  {
    PopOk(g, c.slabs[d], c.chains[d]);
    HeadOrNot(c.chains[d]);
  }

  lemma HeadOrNot(chain: seq<nat>)
    requires chain != []
    ensures forall i: nat :: i in chain <==> i == chain[0] || i in chain[1..]
  {
    assert chain == [chain[0]] + chain[1..];
  }

  /** Only slab d changes, and not its pages. */
  ghost predicate Renewed(c: Cache, d: Addr, t: Cache) {
    && d in c.slabs && d in c.chains && d in t.slabs && d in t.chains
    && t.slabs == c.slabs[d := t.slabs[d]] && t.chains == c.chains[d := t.chains[d]] && t.owner == c.owner
    && t.slabs[d].page == c.slabs[d].page
  }

  lemma RenewKeeps(g: Geometry, c: Cache, d: Addr, t: Cache)
    requires SlabsOk(g, c) && OwnersOk(g, c) && Renewed(c, d, t) && SlabOk(g, t.slabs[d], t.chains[d])
    ensures SlabsOk(g, t) && OwnersOk(g, t)
  {
    RenewOwners(g, c, d, t);
    RenewSlabs(g, c, d, t);
  }

  lemma RenewOwners(g: Geometry, c: Cache, d: Addr, t: Cache)
    requires OwnersOk(g, c) && Renewed(c, d, t)
    ensures OwnersOk(g, t)
  {
    forall e, pg
      ensures e in t.slabs && InSlab(g, t.slabs[e], pg) ==> pg in t.owner && t.owner[pg] == e
    {
      assert e in t.slabs ==> (InSlab(g, t.slabs[e], pg) <==> InSlab(g, c.slabs[e], pg));
    }
    forall pg | pg in t.owner
      ensures t.owner[pg] in t.slabs && InSlab(g, t.slabs[t.owner[pg]], pg)
    {
      assert InSlab(g, c.slabs[c.owner[pg]], pg);
    }
  }

  lemma RenewSlabs(g: Geometry, c: Cache, d: Addr, t: Cache)
    requires SlabsOk(g, c) && Renewed(c, d, t) && SlabOk(g, t.slabs[d], t.chains[d])
    ensures SlabsOk(g, t)
  {
    forall e | e in t.slabs
      ensures SlabOk(g, t.slabs[e], t.chains[e]) && (!g.offSlab ==> e == t.slabs[e].page * PAGE_SIZE)
    {
      assert SlabOk(g, c.slabs[e], c.chains[e]);
    }
  }

  lemma SameLists(c: Cache, t: Cache, d: Addr)
    requires ListsOk(c) && Renewed(c, d, t) && c.chains[d] != [] && t.chains[d] != [] && t.partial == c.partial && t.full == c.full
    ensures ListsOk(t)
  {
  }

  /** A slab that has just lost its last free object changes lists. */
  lemma FilledKeeps(g: Geometry, c: Cache, t: Cache, d: Addr)
    requires CacheOk(g, c) && Renewed(c, d, t) && c.chains[d] != [] && t.chains[d] == []
    requires t.partial == Without(c.partial, d) && t.full == [d] + c.full
    ensures ListsOk(t)
  {
    assert CacheIn(Linking, g, c);
    WithoutAll(c.partial, d);
  }

  /** And so does one that has just got one. */
  lemma OpenedKeeps(g: Geometry, c: Cache, t: Cache, d: Addr)
    requires CacheOk(g, c) && Renewed(c, d, t) && c.chains[d] == [] && t.chains[d] != []
    requires t.full == Without(c.full, d) && t.partial == [d] + c.partial
    ensures ListsOk(t)
  {
    assert CacheIn(Linking, g, c);
    WithoutAll(c.full, d);
  }

  function Freed(s: Slab, i: nat): Slab
    requires i < |s.bufctl| && s.inuse > 0
  {
    s.(bufctl := s.bufctl[i := s.free], free := i, inuse := s.inuse - 1)
  }

  /** kmem_cache_free_one on a slab that stays: a full slab moves to the partial list. */
  function Pushed(g: Geometry, c: Cache, d: Addr, i: nat): Cache
    requires d in c.slabs && d in c.chains && i < |c.slabs[d].bufctl| && c.slabs[d].inuse > 0
  {
    var t := Freed(c.slabs[d], i);
    var first := t.inuse + 1 == g.num;
    c.(slabs := c.slabs[d := t], chains := c.chains[d := [i] + c.chains[d]],
       full := if first then Without(c.full, d) else c.full, partial := if first then [d] + c.partial else c.partial)
  }

  lemma PushKeeps(g: Geometry, c: Cache, d: Addr, i: nat)
    requires CacheOk(g, c) && IsLive(g, c, d, i)
    ensures |c.slabs[d].bufctl| == g.num && c.slabs[d].inuse > 0
    ensures CacheOk(g, Pushed(g, c, d, i))
  {
    CacheIs(g, c);
    PushOk(g, c.slabs[d], c.chains[d], i);
    var t := Pushed(g, c, d, i);
    RenewKeeps(g, c, d, t);
    if c.chains[d] == [] {
      OpenedKeeps(g, c, t, d);
    } else {
      SameLists(c, t, d);
    }
    CacheIs(g, t);
  }

  lemma PushLive(g: Geometry, c: Cache, d: Addr, i: nat)
    requires IsLive(g, c, d, i) && i < |c.slabs[d].bufctl| && c.slabs[d].inuse > 0
    ensures forall e: Addr, j: nat ::
      IsLive(g, Pushed(g, c, d, i), e, j) <==> IsLive(g, c, e, j) && !(e == d && j == i)
  {
  }

  /** kmem_cache_free_one on the last object in use: the slab leaves its list and kmem_slab_destory gives it back. */
  function Dropped(g: Geometry, c: Cache, d: Addr): Cache
    requires d in c.slabs
  {
    Cache(c.slabs - {d}, Without(c.partial, d), Without(c.full, d),
      Disown(c.owner, c.slabs[d].page, Pow2(g.order)), c.chains - {d})
  }

  lemma DropKeeps(g: Geometry, c: Cache, d: Addr)
    requires CacheOk(g, c) && d in c.slabs
    ensures CacheOk(g, Dropped(g, c, d))
    ensures forall e: Addr, j: nat :: IsLive(g, Dropped(g, c, d), e, j) <==> IsLive(g, c, e, j) && e != d
  {
    CacheIs(g, c);
    var t := Dropped(g, c, d);
    WithoutAll(c.partial, d);
    WithoutAll(c.full, d);
    DropOwners(g, c, d);
    assert SlabsOk(g, t);
    assert ListsOk(t);
    CacheIs(g, t);
  }

  lemma DropOwners(g: Geometry, c: Cache, d: Addr)
    requires OwnersOk(g, c) && d in c.slabs
    ensures OwnersOk(g, Dropped(g, c, d))
  {
    var t := Dropped(g, c, d);
    forall pg | pg in t.owner
      ensures t.owner[pg] in t.slabs && InSlab(g, t.slabs[t.owner[pg]], pg)
    {
      assert c.owner[pg] in c.slabs && InSlab(g, c.slabs[c.owner[pg]], pg);
    }
    forall e, pg | e in t.slabs && InSlab(g, t.slabs[e], pg)
      ensures pg in t.owner && t.owner[pg] == e
    {
      OwnerIs(g, c, e, pg);
      assert !InSlab(g, c.slabs[d], pg);
    }
  }

  /** With one object in use, the slab that goes holds no other live object. */
  lemma LastObject(g: Geometry, c: Cache, d: Addr, i: nat, j: nat)
    requires CacheOk(g, c) && IsLive(g, c, d, i) && IsLive(g, c, d, j) && c.slabs[d].inuse == 1
    ensures i == j
  {
    assert CacheIn(Slabs, g, c);
    if i != j {
      var all := [i, j] + c.chains[d];
      assert Distinct(all);
      Crowd(all, g.num);
    }
  }

  // What a step does to a cache, for those who look at several.

  /** Page pg is one of the n pages from `page` on. */
  predicate InRun(page: nat, n: nat, pg: nat) {
    page <= pg < page + n
  }

  /** The slabs of c that are in t have not moved. */
  ghost predicate Unmoved(c: Cache, t: Cache) {
    forall e :: e in c.slabs && e in t.slabs ==> t.slabs[e].page == c.slabs[e].page
  }

  datatype ChangePart = Whole | SlabSet | PageSet | Lives

  ghost predicate GainsIn(part: ChangePart, g: Geometry, c: Cache, t: Cache, d: Addr, i: nat) {
    match part
    case Whole => CacheOk(g, t)
    case SlabSet => t.slabs.Keys == c.slabs.Keys && Unmoved(c, t)
    case PageSet => t.owner == c.owner
    case Lives =>
      && !IsLive(g, c, d, i)
      && forall e: Addr, j: nat :: IsLive(g, t, e, j) <==> IsLive(g, c, e, j) || (e == d && j == i)
  }

  /** Object i of slab d has been taken. */
  ghost predicate Gains(g: Geometry, c: Cache, t: Cache, d: Addr, i: nat) {
    forall part :: GainsIn(part, g, c, t, d, i)
  }

  ghost predicate GrowsIn(part: ChangePart, g: Geometry, c: Cache, t: Cache, page: nat, d: Addr) {
    match part
    case Whole => CacheOk(g, t)
    case SlabSet => d !in c.slabs && t.slabs.Keys == c.slabs.Keys + {d} && t.slabs[d].page == page && Unmoved(c, t)
    case PageSet => forall pg :: pg in t.owner <==> pg in c.owner || InRun(page, Pow2(g.order), pg)
    case Lives => forall e: Addr, j: nat :: IsLive(g, t, e, j) <==> IsLive(g, c, e, j)
  }

  /** Slab d has been added on the pages from `page` on. */
  ghost predicate Grows(g: Geometry, c: Cache, t: Cache, page: nat, d: Addr) {
    forall part :: GrowsIn(part, g, c, t, page, d)
  }

  ghost predicate LosesIn(part: ChangePart, g: Geometry, c: Cache, t: Cache, d: Addr, i: nat, gone: bool) {
    match part
    case Whole => CacheOk(g, t)
    case SlabSet => d in c.slabs && t.slabs.Keys == (if gone then c.slabs.Keys - {d} else c.slabs.Keys) && Unmoved(c, t)
    case PageSet =>
      d in c.slabs && forall pg :: pg in t.owner <==> pg in c.owner && !(gone && InRun(c.slabs[d].page, Pow2(g.order), pg))
    case Lives => forall e: Addr, j: nat :: IsLive(g, t, e, j) <==> IsLive(g, c, e, j) && !(e == d && j == i)
  }

  /** Object i of slab d has been given back, and with it the slab if it was the last one. */
  ghost predicate Loses(g: Geometry, c: Cache, t: Cache, d: Addr, i: nat, gone: bool) {
    forall part :: LosesIn(part, g, c, t, d, i, gone)
  }

  lemma GainsAre(g: Geometry, c: Cache, t: Cache, d: Addr, i: nat)
    ensures Gains(g, c, t, d, i) <==>
      && GainsIn(Whole, g, c, t, d, i) && GainsIn(SlabSet, g, c, t, d, i)
      && GainsIn(PageSet, g, c, t, d, i) && GainsIn(Lives, g, c, t, d, i)
  {
    if GainsIn(Whole, g, c, t, d, i) && GainsIn(SlabSet, g, c, t, d, i)
       && GainsIn(PageSet, g, c, t, d, i) && GainsIn(Lives, g, c, t, d, i) {
      forall part
        ensures GainsIn(part, g, c, t, d, i)
      {
        match part {
          case Whole =>
          case SlabSet =>
          case PageSet =>
          case Lives =>
        }
      }
    }
  }

  lemma GrowsAre(g: Geometry, c: Cache, t: Cache, page: nat, d: Addr)
    ensures Grows(g, c, t, page, d) <==>
      && GrowsIn(Whole, g, c, t, page, d) && GrowsIn(SlabSet, g, c, t, page, d)
      && GrowsIn(PageSet, g, c, t, page, d) && GrowsIn(Lives, g, c, t, page, d)
  {
    if GrowsIn(Whole, g, c, t, page, d) && GrowsIn(SlabSet, g, c, t, page, d)
       && GrowsIn(PageSet, g, c, t, page, d) && GrowsIn(Lives, g, c, t, page, d) {
      forall part
        ensures GrowsIn(part, g, c, t, page, d)
      {
        match part {
          case Whole =>
          case SlabSet =>
          case PageSet =>
          case Lives =>
        }
      }
    }
  }

  lemma LosesAre(g: Geometry, c: Cache, t: Cache, d: Addr, i: nat, gone: bool)
    ensures Loses(g, c, t, d, i, gone) <==>
      && LosesIn(Whole, g, c, t, d, i, gone) && LosesIn(SlabSet, g, c, t, d, i, gone)
      && LosesIn(PageSet, g, c, t, d, i, gone) && LosesIn(Lives, g, c, t, d, i, gone)
  {
    if LosesIn(Whole, g, c, t, d, i, gone) && LosesIn(SlabSet, g, c, t, d, i, gone)
       && LosesIn(PageSet, g, c, t, d, i, gone) && LosesIn(Lives, g, c, t, d, i, gone) {
      forall part
        ensures LosesIn(part, g, c, t, d, i, gone)
      {
        match part {
          case Whole =>
          case SlabSet =>
          case PageSet =>
          case Lives =>
        }
      }
    }
  }
}

/** slab.c: kmalloc and kfree over the thirteen caches. */
module SlabKmalloc {
  import opened BuddyMath
  import opened Lists
  import opened SlabGeometry
  import opened SlabCache
  import opened SlabPool
  import opened Slab

  const SLAB_CACHE_NUM: nat := MAX_SIZE_ORDER - MIN_SIZE_ORDER + 1

  ghost function States(cs: seq<KmemCache>): (r: seq<Cache>)
    reads cs
    ensures |r| == |cs| && forall i :: 0 <= i < |cs| ==> r[i] == cs[i].St()
  {
    if cs == [] then [] else States(cs[..|cs| - 1]) + [cs[|cs| - 1].St()]
  }

  function Geometries(cs: seq<KmemCache>): (r: seq<Geometry>)
    ensures |r| == |cs| && forall i :: 0 <= i < |cs| ==> r[i] == cs[i].g
  {
    if cs == [] then [] else Geometries(cs[..|cs| - 1]) + [cs[|cs| - 1].g]
  }

  /** Only cache k has changed. */
  lemma OneChanged(a: seq<Cache>, b: seq<Cache>, k: nat)
    requires |a| == |b| && k < |a| && forall i :: 0 <= i < |a| && i != k ==> b[i] == a[i]
    ensures b == a[k := b[k]]
  {
  }

  const EMPTY: Cache := Cache(map[], [], [], map[], map[])

  /** What init_kmem_cache makes of the i-th cache. */
  ghost predicate Made(i: nat, c: KmemCache, control: nat)
    reads c
  {
    && c.St() == EMPTY && c.Valid() && i < SLAB_CACHE_NUM && c.g.objsize == ObjSize(i) && (c.g.offSlab <==> i >= 4)
    && control < 4 && (c.g.offSlab ==> MgmtSize(c.g.num) <= ObjSize(control))
  }

  /** The loop of slab_init. */
  method MakeCaches() returns (cs: seq<KmemCache>, ctl: seq<nat>)
    ensures |cs| == |ctl| == SLAB_CACHE_NUM && Distinct(cs)
    ensures forall i :: 0 <= i < |cs| ==> fresh(cs[i]) && Made(i, cs[i], ctl[i])
  {
    cs, ctl := [], [];
    while |cs| < SLAB_CACHE_NUM
      invariant |cs| == |ctl| <= SLAB_CACHE_NUM && Distinct(cs)
      invariant forall i :: 0 <= i < |cs| ==> fresh(cs[i]) && Made(i, cs[i], ctl[i])
    {
      var g, control := InitKmemCache(|cs|);
      SizeClass(|cs|);
      var c := new KmemCache(g);
      assert c.St() == EMPTY;
      assert forall i :: 0 <= i < |cs| ==> Made(i, cs[i], ctl[i]);
      cs, ctl := cs + [c], ctl + [control];
    }
  }

  lemma EmptyPool(p: Pool)
    requires Even(p) && p.kind == map[] && p.where == map[] && p.users == map[]
    requires forall k :: 0 <= k < |p.all| ==> p.all[k] == EMPTY
    requires FormOk(p)
    ensures PoolOk(p)
  {
    PoolIs(p);
  }

  method MakePool(ghost pages: set<nat>) returns (cs: seq<KmemCache>, ctl: seq<nat>, ghost p: Pool)
    ensures |cs| == |ctl| == SLAB_CACHE_NUM && Distinct(cs) && fresh(cs)
    ensures forall i :: 0 <= i < |cs| ==> cs[i].g.objsize == ObjSize(i) && ctl[i] < |cs|
    ensures p == Pool(Geometries(cs), ctl, States(cs), map[], pages, map[], map[]) && PoolOk(p)
  {
    cs, ctl := MakeCaches();
    p := Pool(Geometries(cs), ctl, States(cs), map[], pages, map[], map[]);
    assert forall i :: 0 <= i < |cs| ==> Made(i, cs[i], ctl[i]);
    EmptyPool(p);
  }

  /** The least of the thirteen sizes that is enough. */
  ghost function ClassOf(size: nat): (k: nat)
    requires size <= Pow2(MAX_SIZE_ORDER)
    ensures k < SLAB_CACHE_NUM && size <= ObjSize(k) && (k > 0 ==> ObjSize(k - 1) < size)
  {
    ClassFrom(size, 0)
  }

  ghost function ClassFrom(size: nat, k: nat): (r: nat)
    requires size <= Pow2(MAX_SIZE_ORDER) && k < SLAB_CACHE_NUM && (k > 0 ==> ObjSize(k - 1) < size)
    ensures r < SLAB_CACHE_NUM && size <= ObjSize(r) && (r > 0 ==> ObjSize(r - 1) < size)
    decreases SLAB_CACHE_NUM - k
  {
    if size <= ObjSize(k) then k else ClassFrom(size, k + 1)
  }

  lemma ClassUnique(size: nat, order: nat)
    requires size <= Pow2(MAX_SIZE_ORDER) && MIN_SIZE_ORDER <= order <= MAX_SIZE_ORDER && size <= Pow2(order)
    requires order > MIN_SIZE_ORDER ==> Pow2(order - 1) < size
    ensures ClassOf(size) == order - MIN_SIZE_ORDER
  {
    SameClass(size, ClassOf(size) + MIN_SIZE_ORDER, order);
  }

  lemma SameClass(size: nat, a: nat, b: nat)
    requires a >= MIN_SIZE_ORDER && b >= MIN_SIZE_ORDER && size <= Pow2(a) && size <= Pow2(b)
    requires (a > MIN_SIZE_ORDER ==> Pow2(a - 1) < size) && (b > MIN_SIZE_ORDER ==> Pow2(b - 1) < size)
    ensures a == b
  {
    if b > MIN_SIZE_ORDER {
      AtLeast(size, a, b);
    }
    if a > MIN_SIZE_ORDER {
      AtLeast(size, b, a);
    }
  }

  lemma AtLeast(size: nat, a: nat, b: nat)
    requires b > 0 && Pow2(b - 1) < size <= Pow2(a)
    ensures b <= a
  {
    if a < b {
      PowMono(a, b - 1);
    }
  }

  method ClassFor(size: nat) returns (k: nat)
    requires size <= Pow2(MAX_SIZE_ORDER)
    ensures k == ClassOf(size) < SLAB_CACHE_NUM
  {
    var order := GetOrder(size);
    ClassUnique(size, order);
    k := order - MIN_SIZE_ORDER;
  }

  class Kmalloc {
    const caches: seq<KmemCache>
    const ctl: seq<nat>
    var kind: map<nat, nat>
    ghost var pool: Pool

    ghost predicate Mirrored()
      reads this, caches
    {
      pool.geos == Geometries(caches) && pool.ctl == ctl && pool.all == States(caches) && pool.kind == kind
    }

    ghost predicate Valid()
      reads this, caches
    {
      && |caches| == |ctl| == SLAB_CACHE_NUM && Distinct(caches) && Mirrored() && PoolOk(pool)
      && forall i :: 0 <= i < |caches| ==> caches[i].g.objsize == ObjSize(i) && ctl[i] < |caches|
    }

    /** slab_init, with the pages that are in no slab. */
    constructor (pages: set<nat>)
      ensures Valid() && fresh(caches) && Held(pool) == {} && pool.spare == pages && kind == map[]
    {
      var cs, ct;
      ghost var p;
      cs, ct, p := MakePool(pages);
      caches, ctl, kind, pool := cs, ct, map[], p;
    }

    /** kmem_cache_alloc on a cache that has a free object. */
    method Take(k: nat) returns (obj: Addr, ghost x: Spot)
      requires Valid() && k < |caches| && caches[k].partial != []
      modifies this`pool, caches[k]
      ensures Valid() && obj !in old(pool).where && x.k == k
      ensures pool == old(pool).(all := States(caches), where := old(pool).where[obj := x])
    {
      ghost var q;
      obj, x, q := PopObject(k);
      pool := q;
    }

    method PopObject(k: nat) returns (obj: Addr, ghost x: Spot, ghost q: Pool)
      requires Valid() && k < |caches| && caches[k].partial != []
      modifies caches[k]
      ensures PoolOk(q) && obj !in pool.where && x.k == k
      ensures q == pool.(all := States(caches), where := pool.where[obj := x])
    {
      assert PoolIn(Form, pool);
      ghost var d, i;
      obj, d, i := caches[k].Pop();
      x := Spot(k, d, i);
      TakeKeeps(pool, k, caches[k].St(), d, i);
      q := Taken(pool, k, caches[k].St(), d, i);
      OneChanged(pool.all, States(caches), k);
    }

    /** kmem_cache_grow once it has its pages and, for a control block outside, the object for it. */
    method AddSlab(k: nat, page: nat, desc: Addr)
      requires k < |caches| && Valid() && Ready(pool, k, page, desc)
      modifies this, caches[k]
      ensures Valid() && caches[k].partial != [] && pool == Added(old(pool), k, caches[k].St(), page, desc)
    {
      GrowCache(k, page, desc);
      ghost var q := Added(pool, k, caches[k].St(), page, desc);
      assert q.all == States(caches) && q.geos == pool.geos && q.ctl == pool.ctl && q.kind == Own(kind, page, Pow2(caches[k].g.order), k);
      SetPageCache(page, k);
      pool := q;
    }

    method GrowCache(k: nat, page: nat, desc: Addr)
      requires k < |caches| && Valid() && Ready(pool, k, page, desc)
      modifies caches[k]
      ensures States(caches) == old(pool).all[k := caches[k].St()]
      ensures caches[k].partial != [] && PoolOk(Added(old(pool), k, caches[k].St(), page, desc))
    {
      PoolFresh(pool, k, page, desc);
      var ok := caches[k].Grow(Some(page), Some(desc));
      ghost var d := caches[k].partial[0];
      AddKeeps(pool, k, caches[k].St(), page, d);
      assert Added(pool, k, caches[k].St(), page, desc) == Added(pool, k, caches[k].St(), page, d);
      OneChanged(pool.all, States(caches), k);
    }

    /** kmem_cache_alloc on a cache that keeps its control blocks inside. */
    method Control(k: nat, page: Option<nat>) returns (obj: Option<Addr>)
      requires Valid() && k < |caches| && !caches[k].g.offSlab
      requires page.Some? ==> Span(page.value, Pow2(caches[k].g.order)) <= pool.spare
      modifies this, caches[k]
      ensures Valid() && (obj.None? <==> old(caches[k].partial) == [] && page.None?)
      ensures obj.None? ==> pool == old(pool)
      ensures obj.Some? ==> Lent(old(pool), pool, k, page, obj.value)
    {
      ghost var p := pool;
      if caches[k].partial == [] {
        if page == None {
          return None;
        }
        AddSlab(k, page.value, 0);
        AddedPages(p, k, caches[k].St(), page.value, 0);
      }
      ghost var q := pool;
      var a;
      ghost var x;
      a, x := Take(k);
      LentBy(p, q, pool, k, page, a, x);
      obj := Some(a);
    }

    /** kmem_cache_grow on cache k: its pages, then an object for the control block if that goes outside. */
    method Grow(k: nat, page: Option<nat>, page2: Option<nat>) returns (ok: bool)
      requires Valid() && k < |caches| && Offered(pool, k, page, page2)
      modifies this, caches
      ensures Valid() && (ok <==> page.Some? && (caches[k].g.offSlab ==> page2.Some? || old(caches[ctl[k]].partial) != []))
      ensures if ok then caches[k].partial != [] && Ampler(old(pool), pool) else pool == old(pool)
    {
      if page == None {
        return false;
      }
      if caches[k].g.offSlab {
        ok := GrowOutside(k, page.value, page2);
      } else {
        ghost var p := pool;
        AddSlab(k, page.value, 0);
        AddedPages(p, k, caches[k].St(), page.value, 0);
        return true;
      }
    }

    method GrowOutside(k: nat, page: nat, page2: Option<nat>) returns (ok: bool)
      requires Valid() && k < |caches| && caches[k].g.offSlab && Offered(pool, k, Some(page), page2)
      modifies this, caches
      ensures Valid() && (ok <==> page2.Some? || old(caches[ctl[k]].partial) != [])
      ensures if ok then caches[k].partial != [] && Ampler(old(pool), pool) else pool == old(pool)
    {
      ghost var p := pool;
      assert PoolIn(Form, pool);
      var desc := Control(ctl[k], page2);
      if desc == None {
        return false;
      }
      ghost var q := pool;
      LentReady(p, q, k, page, page2, desc.value);
      AddSlab(k, page, desc.value);
      LentAdded(p, q, k, caches[k].St(), page, page2, desc.value);
      return true;
    }

    /** kmem_cache_alloc on cache k. `page` is what alloc_pages answers for a new slab of it, `page2` for one of the cache its
        control blocks go to. Nothing comes back exactly when a slab is needed and cannot be had, and then nothing changes. */
    method Alloc(k: nat, page: Option<nat>, page2: Option<nat>) returns (obj: Option<Addr>)
      requires Valid() && k < |caches| && Offered(pool, k, page, page2)
      modifies this, caches
      ensures Valid() && Pages(pool) == old(Pages(pool))
      ensures obj.None? <==>
        && old(caches[k].partial) == []
        && (page.None? || (caches[k].g.offSlab && page2.None? && old(caches[ctl[k]].partial) == []))
      ensures obj.None? ==> pool == old(pool)
      ensures obj.Some? ==> obj.value !in old(pool).where && Held(pool) == old(Held(pool)) + {obj.value}
      ensures obj.Some? ==> pool.where[obj.value].k == k
    {
      ghost var p := pool;
      if caches[k].partial == [] {
        var ok := Grow(k, page, page2);
        if !ok {
          return None;
        }
      }
      ghost var q := pool;
      var a;
      ghost var x;
      a, x := Take(k);
      NowHeld(p, q, pool, a, x);
      obj := Some(a);
    }

    /** kmalloc: `page` and `page2` as for Alloc on the cache of the least size that is enough. */
    method Malloc(size: nat, page: Option<nat>, page2: Option<nat>) returns (obj: Option<Addr>, ghost k: nat)
      requires Valid() && 0 < size <= Pow2(MAX_SIZE_ORDER)
      requires Offered(pool, ClassOf(size), page, page2)
      modifies this, caches
      ensures Valid() && Pages(pool) == old(Pages(pool)) && k == ClassOf(size)
      ensures obj.None? ==> pool == old(pool)
      ensures obj.None? <==>
        && old(caches[k].partial) == []
        && (page.None? || (caches[k].g.offSlab && page2.None? && old(caches[ctl[k]].partial) == []))
      ensures obj.Some? ==> obj.value !in old(pool).where && Held(pool) == old(Held(pool)) + {obj.value} && pool.where[obj.value].k == k
    {
      var c := ClassFor(size);
      k := c;
      obj := Alloc(c, page, page2);
    }

    /** kmem_cache_free: the object goes back to its cache, and its slab to the allocator if it was the last one. */
    method GiveBack(obj: Addr) returns (k: nat, released: Option<Addr>)
      requires Valid() && obj in Held(pool)
      modifies this, caches
      ensures Valid() && k < |caches| && Returned(old(pool), pool, obj, k, if caches[k].g.offSlab then released else None)
    {
      HomeOf(pool, obj);
      k := kind[obj / PAGE_SIZE];
      var page := caches[k].slabs[caches[k].owner[obj / PAGE_SIZE]].page;
      ghost var q;
      released, q := FreeIn(k, obj, page);
      if released.Some? {
        ClearPageCache(page, k);
      }
      pool := q;
    }

    method FreeIn(k: nat, obj: Addr, page: nat) returns (released: Option<Addr>, ghost q: Pool)
      requires Valid() && obj in Held(pool) && pool.where[obj].k == k < |caches| && pool.where[obj].d in caches[k].slabs
      requires page == caches[k].slabs[pool.where[obj].d].page
      modifies caches[k]
      ensures PoolOk(q) && q.geos == pool.geos && q.ctl == pool.ctl && q.all == States(caches)
      ensures q.kind == if released.Some? then Disown(kind, page, Pow2(caches[k].g.order)) else kind
      ensures Returned(pool, q, obj, k, if caches[k].g.offSlab then released else None)
    {
      ghost var x, p := pool.where[obj], pool;
      SpotOf(p, obj);
      released := caches[k].Free(obj, x.d, x.i);
      ghost var t := caches[k].St();
      q := Given(p, k, t, x.d, x.i, released.Some?);
      OneChanged(p.all, States(caches), k);
      LetGo(p, k, t, x, released.Some?);
    }

    /** kfree. A control block outside its slab goes back too when the slab does. */
    method Free(obj: Addr)
      requires Valid() && obj in Held(pool)
      modifies this, caches
      ensures Valid() && Pages(pool) == old(Pages(pool)) && Held(pool) == old(Held(pool)) - {obj}
    {
      ghost var p := pool;
      UsersLive(p);
      var k, released := GiveBack(obj);
      if released.Some? && caches[k].g.offSlab {
        ghost var q := pool;
        ReturnedHeld(p, q, obj, k, released.value);
        var k2, released2 := GiveBack(released.value);
        ReturnedBoth(p, q, pool, obj, k, released.value, k2, if caches[k2].g.offSlab then released2 else None);
      }
    }

    /** ClearPageSlab on the pages of a slab that goes. */
    method ClearPageCache(page: nat, k: nat)
      requires k < |caches|
      modifies this`kind
      ensures kind == Disown(old(kind), page, Pow2(caches[k].g.order))
    {
      for n := 0 to Pow2(caches[k].g.order)
        invariant kind == Disown(old(kind), page, n)
      {
        kind := kind - {page + n};
      }
    }

    /** SET_PAGE_CACHE on the pages of a new slab. */
    method SetPageCache(page: nat, k: nat)
      requires k < |caches|
      modifies this`kind
      ensures kind == Own(old(kind), page, Pow2(caches[k].g.order), k)
    {
      for n := 0 to Pow2(caches[k].g.order)
        invariant kind == Own(old(kind), page, n, k)
      {
        kind := kind[page + n := k];
      }
    }
  }

  ghost function Pages(p: Pool): set<nat> {
    p.spare + p.kind.Keys
  }

  /** What alloc_pages gives is in no slab, and it does not give a page twice. */
  ghost predicate Offered(p: Pool, k: nat, page: Option<nat>, page2: Option<nat>) {
    && Even(p) && k < |p.all|
    && (page.Some? ==> Span(page.value, Pow2(p.geos[k].order)) <= p.spare)
    && (p.geos[k].offSlab && page2.Some? ==>
          && p.ctl[k] < |p.all|
          && Span(page2.value, Pow2(p.geos[p.ctl[k]].order)) <= p.spare
          && (page.Some? ==> Span(page2.value, Pow2(p.geos[p.ctl[k]].order)) !! Span(page.value, Pow2(p.geos[k].order))))
  }

  datatype LentPart = LentObject | LentPages

  ghost predicate LentIn(part: LentPart, p: Pool, q: Pool, k: nat, page: Option<nat>, a: Addr) {
    match part
    case LentObject =>
      && a !in p.where && q.users == p.users && a in q.where && q.where == p.where[a := q.where[a]] && q.where[a].k == k
      && q.geos == p.geos && q.ctl == p.ctl
    case LentPages =>
      && Pages(q) == Pages(p) && k < |p.geos|
      && forall pg :: pg in p.spare && !(page.Some? && InRun(page.value, Pow2(p.geos[k].order), pg)) ==> pg in q.spare
  }

  /** Object a of cache k has been handed out, for which the pages from `page` on may have been used up. */
  ghost predicate Lent(p: Pool, q: Pool, k: nat, page: Option<nat>, a: Addr) {
    forall part :: LentIn(part, p, q, k, page, a)
  }

  lemma LentBy(p: Pool, q: Pool, r: Pool, k: nat, page: Option<nat>, a: Addr, x: Spot)
    requires Even(p) && k < |p.all| && Pages(q) == Pages(p) && q.where == p.where && q.users == p.users && q.geos == p.geos && q.ctl == p.ctl
    requires q == p || (page.Some? && q.spare == p.spare - Span(page.value, Pow2(p.geos[k].order)))
    requires r == q.(all := r.all, where := q.where[a := x]) && a !in q.where && x.k == k
    ensures Lent(p, r, k, page, a)
  {
    forall part
      ensures LentIn(part, p, r, k, page, a)
    {
      match part
      case LentObject =>
      case LentPages =>
    }
  }

  lemma AddedPages(p: Pool, k: nat, t: Cache, page: nat, d: Addr)
    requires PoolOk(p) && Ready(p, k, page, d)
    ensures Pages(Added(p, k, t, page, d)) == Pages(p)
  {
  }

  lemma LentReady(p: Pool, q: Pool, k: nat, page: nat, page2: Option<nat>, a: Addr)
    requires PoolOk(p) && PoolOk(q) && Offered(p, k, Some(page), page2) && p.geos[k].offSlab && Lent(p, q, p.ctl[k], page2, a)
    ensures Ready(q, k, page, a)
  {
    assert LentIn(LentObject, p, q, p.ctl[k], page2, a) && LentIn(LentPages, p, q, p.ctl[k], page2, a);
    UsersLive(p);
    PoolIs(q);
    forall pg | pg in Span(page, Pow2(p.geos[k].order))
      ensures pg in q.spare
    {
      assert page2.Some? ==> pg !in Span(page2.value, Pow2(p.geos[p.ctl[k]].order));
    }
  }

  /** The pages are the same and callers hold the same, though more objects may be live. */
  ghost predicate Ampler(p: Pool, q: Pool) {
    Pages(q) == Pages(p) && Held(q) == Held(p) && p.where.Keys <= q.where.Keys
  }

  lemma NowHeld(p: Pool, q: Pool, r: Pool, a: Addr, x: Spot)
    requires PoolOk(q) && Ampler(p, q) && r == q.(all := r.all, where := q.where[a := x]) && a !in q.where
    ensures Pages(r) == Pages(p) && a !in p.where && Held(r) == Held(p) + {a}
  {
    UsersLive(q);
  }

  lemma LentAdded(p: Pool, q: Pool, k: nat, t: Cache, page: nat, page2: Option<nat>, a: Addr)
    requires PoolOk(p) && Ready(q, k, page, a) && Even(p) && k < |p.ctl| && q.geos[k].offSlab && Lent(p, q, p.ctl[k], page2, a)
    ensures Ampler(p, Added(q, k, t, page, a))
  {
    assert LentIn(LentObject, p, q, p.ctl[k], page2, a) && LentIn(LentPages, p, q, p.ctl[k], page2, a);
    AddedPages(q, k, t, page, a);
    UsersLive(p);
  }

  /** An object's page leads to its cache and its slab. */
  lemma HomeOf(p: Pool, a: Addr)
    requires PoolOk(p) && a in p.where
    ensures Slot(p, p.where[a]) && a / PAGE_SIZE in p.kind && p.kind[a / PAGE_SIZE] == p.where[a].k
    ensures var c := p.all[p.where[a].k]; a / PAGE_SIZE in c.owner && c.owner[a / PAGE_SIZE] == p.where[a].d
  {
    WhereIs(p, a);
    PoolIs(p);
    var x := p.where[a];
    FindObject(p.geos[x.k], p.all[x.k], x.d, x.i);
    assert a / PAGE_SIZE in p.all[x.k].owner <==> a / PAGE_SIZE in p.kind && p.kind[a / PAGE_SIZE] == x.k;
  }

  /** Object a of cache k is no longer live, and slab d no longer uses the control block it had outside. */
  ghost predicate Returned(p: Pool, q: Pool, a: Addr, k: nat, d: Option<Addr>) {
    && a in p.where && q.where == p.where - {a} && Pages(q) == Pages(p) && p.where[a].k == k
    && (d.Some? ==> Even(p) && Serves(p, d.value, k) && d.value in p.users && p.users[d.value] == k)
    && q.users == if d.Some? then p.users - {d.value} else p.users
  }

  lemma SpotOf(p: Pool, a: Addr)
    requires PoolOk(p) && a in p.where
    ensures LiveAt(p, p.where[a]) && Slot(p, p.where[a]) && Where(p, p.where[a]) == a
    ensures CacheOk(p.geos[p.where[a].k], p.all[p.where[a].k])
  {
    PoolIs(p);
    assert LiveAt(p, p.where[a]);
  }

  lemma GivenBack(p: Pool, k: nat, t: Cache, x: Spot, gone: bool)
    requires PoolOk(p) && Slot(p, x) && x.k == k && Where(p, x) in p.where && p.where[Where(p, x)] == x
    ensures Returned(p, Given(p, k, t, x.d, x.i, gone), Where(p, x), k, if gone && p.geos[k].offSlab then Some(x.d) else None)
  {
    PoolIs(p);
    var n, page := Pow2(p.geos[k].order), p.all[k].slabs[x.d].page;
    forall pg | InRun(page, n, pg)
      ensures pg in p.kind
    {
      SlabPage(p, k, x.d, pg);
    }
    assert Pages(Given(p, k, t, x.d, x.i, gone)) == Pages(p);
    if p.geos[k].offSlab {
      assert x.d in p.users;
      assert Serves(p, x.d, p.users[x.d]);
    }
  }

  lemma LetGo(p: Pool, k: nat, t: Cache, x: Spot, gone: bool)
    requires PoolOk(p) && LiveAt(p, x) && Slot(p, x) && x.k == k && Where(p, x) in Held(p) && p.where[Where(p, x)] == x
    requires Loses(p.geos[k], p.all[k], t, x.d, x.i, gone)
    ensures PoolOk(Given(p, k, t, x.d, x.i, gone))
    ensures Returned(p, Given(p, k, t, x.d, x.i, gone), Where(p, x), k, if gone && p.geos[k].offSlab then Some(x.d) else None)
  {
    GiveKeeps(p, k, t, x.d, x.i, gone);
    GivenBack(p, k, t, x, gone);
  }

  /** The control block of a slab that is gone can be freed. */
  lemma ReturnedHeld(p: Pool, q: Pool, a: Addr, k: nat, d: Addr)
    requires Returned(p, q, a, k, Some(d)) && a in Held(p)
    ensures d in Held(q) && q.where[d].k == p.ctl[k]
  {
  }

  /** The cache it goes back to keeps its own inside, so nothing more follows. */
  lemma ReturnedBoth(p: Pool, q: Pool, r: Pool, a: Addr, k: nat, d: Addr, m: nat, e: Option<Addr>)
    requires PoolOk(p) && PoolOk(r) && Returned(p, q, a, k, Some(d)) && a in Held(p) && Returned(q, r, d, m, e)
    requires e.Some? ==> m < |p.geos| && p.geos[m].offSlab
    ensures Pages(r) == Pages(p) && Held(r) == Held(p) - {a}
  {
    assert PoolIn(Form, p);
  }

  /** Control blocks are live objects. */
  lemma UsersLive(p: Pool)
    requires PoolOk(p)
    ensures p.users.Keys <= p.where.Keys
  {
    assert PoolIn(Described, p);
    forall a | a in p.users
      ensures a in p.where
    {
      assert Serves(p, a, p.users[a]);
    }
  }

  /** Pages in no slab are not in this cache's, and an object no slab uses is not the control block of one. */
  lemma PoolFresh(p: Pool, k: nat, page: nat, d: Addr)
    requires Ready(p, k, page, d)
    ensures FreshPages(p.geos[k], p.all[k], page) && CacheOk(p.geos[k], p.all[k]) && (p.geos[k].offSlab ==> d !in p.all[k].slabs)
  {
    PoolIs(p);
    forall pg | page <= pg < page + Pow2(p.geos[k].order)
      ensures pg !in p.all[k].owner
    {
      assert InRun(page, Pow2(p.geos[k].order), pg);
      assert pg in p.all[k].owner ==> pg in p.kind;
    }
  }
}

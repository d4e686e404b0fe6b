/** slab.c: the caches together. Their slabs share no page, and a control block outside its slab is a live object of
    another cache that nobody else uses. */
module SlabPool {
  import opened BuddyMath
  import opened SlabGeometry
  import opened SlabCache

  /** Object i of slab d of cache k. */
  datatype Spot = Spot(k: nat, d: Addr, i: nat)

  /** The caches, and for each where its control blocks go when they are outside. kind is the page's pointer to its cache.
      spare are the pages outside every slab, where tells the live objects by address, users which cache a control block
      outside belongs to. */
  datatype Pool = Pool(geos: seq<Geometry>, ctl: seq<nat>, all: seq<Cache>, kind: map<nat, nat>, spare: set<nat>,
                       where: map<Addr, Spot>, users: map<Addr, nat>)

  ghost function Span(page: nat, n: nat): (r: set<nat>)
    ensures forall pg :: pg in r <==> InRun(page, n, pg)
  {
    if n == 0 then {} else Span(page, n - 1) + {page + n - 1}
  }

  predicate Even(p: Pool) {
    |p.geos| == |p.ctl| == |p.all|
  }

  /** There is such an object, in use or not. */
  predicate Slot(p: Pool, x: Spot) {
    Even(p) && x.k < |p.all| && x.d in p.all[x.k].slabs && x.i < p.geos[x.k].num
  }

  ghost predicate LiveAt(p: Pool, x: Spot) {
    Even(p) && x.k < |p.all| && IsLive(p.geos[x.k], p.all[x.k], x.d, x.i)
  }

  function Where(p: Pool, x: Spot): Addr
    requires Slot(p, x)
  {
    Obj(p.geos[x.k], p.all[x.k].slabs[x.d], x.i)
  }

  // The invariant.

  ghost predicate FormOk(p: Pool) {
    && Even(p)
    && forall k :: 0 <= k < |p.all| ==>
         && CacheOk(p.geos[k], p.all[k])
         && (p.geos[k].offSlab ==>
               p.ctl[k] < |p.all| && !p.geos[p.ctl[k]].offSlab && MgmtSize(p.geos[k].num) <= p.geos[p.ctl[k]].objsize)
  }

  ghost predicate PagesOk(p: Pool) {
    && (forall pg, k :: 0 <= k < |p.all| ==> (pg in p.all[k].owner <==> pg in p.kind && p.kind[pg] == k))
    && forall pg :: pg in p.kind ==> p.kind[pg] < |p.all| && pg !in p.spare
  }

  ghost predicate SpotsOk(p: Pool) {
    && (forall a :: a in p.where ==> LiveAt(p, p.where[a]) && Where(p, p.where[a]) == a)
    && forall x: Spot :: LiveAt(p, x) ==> Where(p, x) in p.where && p.where[Where(p, x)] == x
  }

  /** Slab a of cache k has its control block outside, as an object of the cache for such blocks. */
  ghost predicate Serves(p: Pool, a: Addr, k: nat) {
    Even(p) && a in p.where && k < |p.all| && p.geos[k].offSlab && a in p.all[k].slabs && p.where[a].k == p.ctl[k]
  }

  ghost predicate UsersOk(p: Pool) {
    && Even(p)
    && (forall a :: a in p.users ==> Serves(p, a, p.users[a]))
    && forall k, d :: 0 <= k < |p.all| && p.geos[k].offSlab && d in p.all[k].slabs ==> d in p.users && p.users[d] == k
  }

  datatype PoolPart = Form | Paged | Spotted | Described

  ghost predicate PoolIn(part: PoolPart, p: Pool) {
    match part
    case Form => FormOk(p)
    case Paged => PagesOk(p)
    case Spotted => SpotsOk(p)
    case Described => UsersOk(p)
  }

  ghost predicate PoolOk(p: Pool) {
    forall part :: PoolIn(part, p)
  }

  lemma PoolIs(p: Pool)
    ensures PoolOk(p) <==> FormOk(p) && PagesOk(p) && SpotsOk(p) && UsersOk(p)
  {
    assert PoolOk(p) ==> PoolIn(Form, p) && PoolIn(Paged, p) && PoolIn(Spotted, p) && PoolIn(Described, p);
    if FormOk(p) && PagesOk(p) && SpotsOk(p) && UsersOk(p) {
      forall part
        ensures PoolIn(part, p)
      {
        match part
        case Form =>
        case Paged =>
        case Spotted =>
        case Described =>
      }
    }
  }

  /** What callers hold: every live object but the control blocks. */
  ghost function Held(p: Pool): set<Addr> {
    p.where.Keys - p.users.Keys
  }

  // Nothing overlaps.

  /** Objects of two caches that share no page are apart. */
  lemma CachesApart(g: Geometry, c: Cache, d: Addr, i: nat, h: Geometry, k: Cache, e: Addr, j: nat)
    requires CacheOk(g, c) && CacheOk(h, k) && c.owner.Keys !! k.owner.Keys
    requires d in c.slabs && i < g.num && e in k.slabs && j < h.num
    ensures Obj(g, c.slabs[d], i) + g.objsize <= Obj(h, k.slabs[e], j)
      || Obj(h, k.slabs[e], j) + h.objsize <= Obj(g, c.slabs[d], i)
  {
    assert CacheIn(Fit, g, c) && CacheIn(Fit, h, k) && CacheIn(Owning, g, c) && CacheIn(Owning, h, k);
    ObjInside(g, c.slabs[d], i);
    ObjInside(h, k.slabs[e], j);
    var p, q := c.slabs[d].page, k.slabs[e].page;
    OwnerIs(g, c, d, p);
    OwnerIs(h, k, e, q);
    if p <= q < p + Pow2(g.order) {
      OwnerIs(g, c, d, q);
      assert false;
    } else if q <= p < q + Pow2(h.order) {
      OwnerIs(h, k, e, p);
      assert false;
    }
  }

  lemma OwnersApart(p: Pool, k: nat, m: nat)
    requires PagesOk(p) && k < |p.all| && m < |p.all| && k != m
    ensures p.all[k].owner.Keys !! p.all[m].owner.Keys
  {
    forall pg | pg in p.all[k].owner
      ensures pg !in p.all[m].owner
    {
      assert pg in p.kind && p.kind[pg] == k;
    }
  }

  /** Two objects of any caches are apart, in use or not. */
  lemma SlotsApart(p: Pool, x: Spot, y: Spot)
    requires FormOk(p) && PagesOk(p) && Slot(p, x) && Slot(p, y) && x != y
    ensures Where(p, x) + p.geos[x.k].objsize <= Where(p, y) || Where(p, y) + p.geos[y.k].objsize <= Where(p, x)
  {
    var c, e := p.all[x.k], p.all[y.k];
    if x.k == y.k {
      ObjectsApart(p.geos[x.k], c, x.d, x.i, y.d, y.i);
    } else {
      OwnersApart(p, x.k, y.k);
      CachesApart(p.geos[x.k], c, x.d, x.i, p.geos[y.k], e, y.d, y.i);
    }
  }

  lemma SlotsDiffer(p: Pool, x: Spot, y: Spot)
    requires FormOk(p) && PagesOk(p) && Slot(p, x) && Slot(p, y) && x != y
    ensures Where(p, x) != Where(p, y)
  {
    SlotsApart(p, x, y);
    assert CacheIn(Fit, p.geos[x.k], p.all[x.k]) && CacheIn(Fit, p.geos[y.k], p.all[y.k]);
  }

  function SizeAt(p: Pool, a: Addr): nat
    requires a in p.where && p.where[a].k < |p.geos|
  {
    p.geos[p.where[a].k].objsize
  }

  lemma WhereIs(p: Pool, a: Addr)
    requires PoolOk(p) && a in p.where
    ensures Slot(p, p.where[a]) && Where(p, p.where[a]) == a
  {
    assert PoolIn(Spotted, p) && PoolIn(Form, p);
    assert LiveAt(p, p.where[a]);
  }

  /** Live objects never overlap, whichever caches they come from. */
  lemma LiveApart(p: Pool, a: Addr, b: Addr)
    requires PoolOk(p) && a in p.where && b in p.where && a != b
    ensures p.where[a].k < |p.geos| && p.where[b].k < |p.geos|
    ensures a + SizeAt(p, a) <= b || b + SizeAt(p, b) <= a
  {
    WhereIs(p, a);
    WhereIs(p, b);
    PoolIs(p);
    SlotsApart(p, p.where[a], p.where[b]);
  }

  /** Nor does what a caller holds overlap a slab_t and its bufctl array, inside its slab or outside. */
  lemma ControlApart(p: Pool, k: nat, d: Addr, a: Addr)
    requires PoolOk(p) && k < |p.all| && d in p.all[k].slabs && a in Held(p)
    ensures |p.geos| == |p.all| && p.where[a].k < |p.geos|
    ensures d + HEADER_SIZE + BUFCTL_SIZE * p.geos[k].num <= a || a + SizeAt(p, a) <= d
  {
    WhereIs(p, a);
    PoolIs(p);
    if p.geos[k].offSlab {
      ControlOutside(p, k, d, a);
    } else {
      ControlInside(p, k, d, p.where[a]);
    }
  }

  lemma ControlOutside(p: Pool, k: nat, d: Addr, a: Addr)
    requires PoolOk(p) && k < |p.geos| == |p.all| && p.geos[k].offSlab && d in p.all[k].slabs && a in Held(p)
    ensures p.where[a].k < |p.geos|
    ensures d + HEADER_SIZE + BUFCTL_SIZE * p.geos[k].num <= a || a + SizeAt(p, a) <= d
  {
    PoolIs(p);
    assert d in p.users && Serves(p, d, k);
    LiveApart(p, a, d);
  }

  lemma ControlInside(p: Pool, k: nat, d: Addr, x: Spot)
    requires FormOk(p) && PagesOk(p) && k < |p.all| && !p.geos[k].offSlab && d in p.all[k].slabs && Slot(p, x)
    ensures d + HEADER_SIZE + BUFCTL_SIZE * p.geos[k].num <= Where(p, x) || Where(p, x) + p.geos[x.k].objsize <= d
  {
    var c := p.all[k];
    assert CacheIn(Fit, p.geos[k], c) && CacheIn(Slabs, p.geos[k], c) && CacheIn(Fit, p.geos[x.k], p.all[x.k]);
    if x.k == k {
      HeadersApart(p.geos[k], c, x.d, x.i, d);
    } else {
      SlabPagesApart(p, k, d, x.k, x.d);
      ObjInside(p.geos[x.k], p.all[x.k].slabs[x.d], x.i);
      ObjInside(p.geos[k], c.slabs[d], 0);
    }
  }

  lemma SlabPagesApart(p: Pool, k: nat, d: Addr, m: nat, e: Addr)
    requires FormOk(p) && PagesOk(p) && k < |p.all| && m < |p.all| && k != m && d in p.all[k].slabs && e in p.all[m].slabs
    ensures p.all[k].slabs[d].page * PAGE_SIZE + SlabSize(p.geos[k].order) <= p.all[m].slabs[e].page * PAGE_SIZE
      || p.all[m].slabs[e].page * PAGE_SIZE + SlabSize(p.geos[m].order) <= p.all[k].slabs[d].page * PAGE_SIZE
  {
    var u, v := p.all[k].slabs[d].page, p.all[m].slabs[e].page;
    assert CacheIn(Owning, p.geos[k], p.all[k]) && CacheIn(Owning, p.geos[m], p.all[m]);
    OwnersApart(p, k, m);
    OwnerIs(p.geos[k], p.all[k], d, u);
    OwnerIs(p.geos[m], p.all[m], e, v);
    if u <= v < u + Pow2(p.geos[k].order) {
      OwnerIs(p.geos[k], p.all[k], d, v);
      assert false;
    } else if v <= u < v + Pow2(p.geos[m].order) {
      OwnerIs(p.geos[m], p.all[m], e, u);
      assert false;
    }
  }

  lemma FormStays(p: Pool, q: Pool, k: nat)
    requires FormOk(p) && k < |p.all| == |q.all| && q.geos == p.geos && q.ctl == p.ctl && q.all == p.all[k := q.all[k]]
    requires CacheOk(p.geos[k], q.all[k])
    ensures FormOk(q)
  {
  }

  // Taking an object.

  ghost function Taken(p: Pool, k: nat, t: Cache, d: Addr, i: nat): Pool
    requires Even(p) && k < |p.all| && d in t.slabs
  {
    p.(all := p.all[k := t], where := p.where[Obj(p.geos[k], t.slabs[d], i) := Spot(k, d, i)])
  }

  lemma TakeKeeps(p: Pool, k: nat, t: Cache, d: Addr, i: nat)
    requires PoolOk(p) && Even(p) && k < |p.all| && Gains(p.geos[k], p.all[k], t, d, i)
    ensures d in t.slabs && Obj(p.geos[k], t.slabs[d], i) !in p.where && PoolOk(Taken(p, k, t, d, i))
  {
    assert GainsIn(Whole, p.geos[k], p.all[k], t, d, i) && GainsIn(PageSet, p.geos[k], p.all[k], t, d, i) && GainsIn(Lives, p.geos[k], p.all[k], t, d, i);
    PoolIs(p);
    assert IsLive(p.geos[k], t, d, i);
    FormStays(p, Taken(p, k, t, d, i), k);
    TakePages(p, k, t, d, i);
    TakeFresh(p, k, t, d, i);
    TakeSpots(p, k, t, d, i);
    TakeUsers(p, k, t, d, i);
    PoolIs(Taken(p, k, t, d, i));
  }

  lemma TakePages(p: Pool, k: nat, t: Cache, d: Addr, i: nat)
    requires PagesOk(p) && Even(p) && k < |p.all| && d in t.slabs && t.owner == p.all[k].owner
    ensures PagesOk(Taken(p, k, t, d, i))
  {
  }

  lemma TakeFresh(p: Pool, k: nat, t: Cache, d: Addr, i: nat)
    requires FormOk(p) && PagesOk(p) && SpotsOk(p) && k < |p.all| && Gains(p.geos[k], p.all[k], t, d, i) && IsLive(p.geos[k], t, d, i)
    ensures Obj(p.geos[k], t.slabs[d], i) !in p.where
  {
    assert GainsIn(SlabSet, p.geos[k], p.all[k], t, d, i) && GainsIn(Lives, p.geos[k], p.all[k], t, d, i);
    var a := Obj(p.geos[k], t.slabs[d], i);
    var x := Spot(k, d, i);
    assert Slot(p, x) && Where(p, x) == a;
    if a in p.where {
      assert LiveAt(p, p.where[a]) && Slot(p, p.where[a]);
      SlotsDiffer(p, x, p.where[a]);
    }
  }

  lemma TakeSpots(p: Pool, k: nat, t: Cache, d: Addr, i: nat)
    requires FormOk(p) && SpotsOk(p) && k < |p.all| && Gains(p.geos[k], p.all[k], t, d, i) && IsLive(p.geos[k], t, d, i)
    requires Obj(p.geos[k], t.slabs[d], i) !in p.where
    ensures SpotsOk(Taken(p, k, t, d, i))
  {
    assert GainsIn(SlabSet, p.geos[k], p.all[k], t, d, i) && GainsIn(Lives, p.geos[k], p.all[k], t, d, i);
    var q := Taken(p, k, t, d, i);
    forall x: Spot | LiveAt(q, x)
      ensures Where(q, x) in q.where && q.where[Where(q, x)] == x
    {
      assert x != Spot(k, d, i) ==> LiveAt(p, x) && Where(q, x) == Where(p, x);
    }
    forall a | a in q.where
      ensures LiveAt(q, q.where[a]) && Where(q, q.where[a]) == a
    {
      assert a in p.where ==> LiveAt(p, p.where[a]) && Slot(p, p.where[a]);
    }
  }

  lemma TakeUsers(p: Pool, k: nat, t: Cache, d: Addr, i: nat)
    requires FormOk(p) && UsersOk(p) && k < |p.all| && Gains(p.geos[k], p.all[k], t, d, i) && d in t.slabs
    requires Obj(p.geos[k], t.slabs[d], i) !in p.where
    ensures UsersOk(Taken(p, k, t, d, i))
  {
    assert GainsIn(SlabSet, p.geos[k], p.all[k], t, d, i);
    var q := Taken(p, k, t, d, i);
    forall a | a in q.users
      ensures Serves(q, a, q.users[a])
    {
      assert Serves(p, a, p.users[a]);
    }
  }

  // Adding a slab.

  ghost function Added(p: Pool, k: nat, t: Cache, page: nat, d: Addr): Pool
    requires Even(p) && k < |p.all|
  {
    var n := Pow2(p.geos[k].order);
    p.(all := p.all[k := t], kind := Own(p.kind, page, n, k), spare := p.spare - Span(page, n),
       users := if p.geos[k].offSlab then p.users[d := k] else p.users)
  }

  /** A control block outside is an object just allocated for it. */
  ghost predicate Ready(p: Pool, k: nat, page: nat, d: Addr) {
    && PoolOk(p) && Even(p) && k < |p.all| && Span(page, Pow2(p.geos[k].order)) <= p.spare
    && (p.geos[k].offSlab ==> d in Held(p) && p.where[d].k == p.ctl[k])
  }

  lemma AddKeeps(p: Pool, k: nat, t: Cache, page: nat, d: Addr)
    requires Ready(p, k, page, d) && Grows(p.geos[k], p.all[k], t, page, d)
    ensures PoolOk(Added(p, k, t, page, d))
  {
    assert GrowsIn(Whole, p.geos[k], p.all[k], t, page, d);
    PoolIs(p);
    FormStays(p, Added(p, k, t, page, d), k);
    AddPages(p, k, t, page, d);
    AddSpots(p, k, t, page, d);
    AddUsers(p, k, t, page, d);
    PoolIs(Added(p, k, t, page, d));
  }

  lemma AddPages(p: Pool, k: nat, t: Cache, page: nat, d: Addr)
    requires FormOk(p) && PagesOk(p) && k < |p.all| && Grows(p.geos[k], p.all[k], t, page, d)
    requires Span(page, Pow2(p.geos[k].order)) <= p.spare
    ensures PagesOk(Added(p, k, t, page, d))
  {
    assert GrowsIn(PageSet, p.geos[k], p.all[k], t, page, d);
    var q := Added(p, k, t, page, d);
    forall pg, m | 0 <= m < |q.all|
      ensures pg in q.all[m].owner <==> pg in q.kind && q.kind[pg] == m
    {
      assert pg in p.all[m].owner <==> pg in p.kind && p.kind[pg] == m;
      assert InRun(page, Pow2(p.geos[k].order), pg) ==> pg in p.spare;
    }
  }

  lemma AddSpots(p: Pool, k: nat, t: Cache, page: nat, d: Addr)
    requires FormOk(p) && SpotsOk(p) && k < |p.all| && Grows(p.geos[k], p.all[k], t, page, d)
    ensures SpotsOk(Added(p, k, t, page, d))
  {
    assert GrowsIn(SlabSet, p.geos[k], p.all[k], t, page, d) && GrowsIn(Lives, p.geos[k], p.all[k], t, page, d);
    var q := Added(p, k, t, page, d);
    forall x: Spot
      ensures LiveAt(q, x) <==> LiveAt(p, x)
      ensures LiveAt(p, x) ==> Where(q, x) == Where(p, x)
    {
    }
  }

  lemma AddUsers(p: Pool, k: nat, t: Cache, page: nat, d: Addr)
    requires FormOk(p) && UsersOk(p) && k < |p.all| && Grows(p.geos[k], p.all[k], t, page, d)
    requires p.geos[k].offSlab ==> d in Held(p) && p.where[d].k == p.ctl[k]
    ensures UsersOk(Added(p, k, t, page, d))
  {
    assert GrowsIn(SlabSet, p.geos[k], p.all[k], t, page, d);
    var q := Added(p, k, t, page, d);
    forall a | a in q.users
      ensures Serves(q, a, q.users[a])
    {
      assert a in p.users ==> Serves(p, a, p.users[a]);
    }
  }

  // Giving an object back.

  ghost function Given(p: Pool, k: nat, t: Cache, d: Addr, i: nat, gone: bool): Pool
    requires Slot(p, Spot(k, d, i))
  {
    var n, page := Pow2(p.geos[k].order), p.all[k].slabs[d].page;
    p.(all := p.all[k := t], where := p.where - {Where(p, Spot(k, d, i))},
       kind := if gone then Disown(p.kind, page, n) else p.kind,
       spare := if gone then p.spare + Span(page, n) else p.spare,
       users := if gone && p.geos[k].offSlab then p.users - {d} else p.users)
  }

  lemma GiveKeeps(p: Pool, k: nat, t: Cache, d: Addr, i: nat, gone: bool)
    requires PoolOk(p) && LiveAt(p, Spot(k, d, i)) && Loses(p.geos[k], p.all[k], t, d, i, gone)
    requires Slot(p, Spot(k, d, i)) && Where(p, Spot(k, d, i)) !in p.users
    ensures PoolOk(Given(p, k, t, d, i, gone))
  {
    assert LosesIn(Whole, p.geos[k], p.all[k], t, d, i, gone);
    PoolIs(p);
    FormStays(p, Given(p, k, t, d, i, gone), k);
    GivePages(p, k, t, d, i, gone);
    GiveSpots(p, k, t, d, i, gone);
    GiveUsers(p, k, t, d, i, gone);
    PoolIs(Given(p, k, t, d, i, gone));
  }

  lemma GivePages(p: Pool, k: nat, t: Cache, d: Addr, i: nat, gone: bool)
    requires FormOk(p) && PagesOk(p) && Slot(p, Spot(k, d, i)) && Loses(p.geos[k], p.all[k], t, d, i, gone)
    ensures PagesOk(Given(p, k, t, d, i, gone))
  {
    assert LosesIn(PageSet, p.geos[k], p.all[k], t, d, i, gone);
    var q, page, n := Given(p, k, t, d, i, gone), p.all[k].slabs[d].page, Pow2(p.geos[k].order);
    forall pg | InRun(page, n, pg)
      ensures pg in p.kind && p.kind[pg] == k
    {
      SlabPage(p, k, d, pg);
    }
    forall pg, m | 0 <= m < |q.all|
      ensures pg in q.all[m].owner <==> pg in q.kind && q.kind[pg] == m
    {
      assert pg in p.all[m].owner <==> pg in p.kind && p.kind[pg] == m;
    }
    forall pg | pg in q.kind
      ensures q.kind[pg] < |q.all| && pg !in q.spare
    {
      assert pg in p.kind;
    }
  }

  lemma SlabPage(p: Pool, k: nat, d: Addr, pg: nat)
    requires FormOk(p) && PagesOk(p) && k < |p.all| && d in p.all[k].slabs
    requires InRun(p.all[k].slabs[d].page, Pow2(p.geos[k].order), pg)
    ensures pg in p.kind && p.kind[pg] == k
  {
    assert CacheIn(Owning, p.geos[k], p.all[k]);
    OwnerIs(p.geos[k], p.all[k], d, pg);
    assert pg in p.all[k].owner <==> pg in p.kind && p.kind[pg] == k;
  }

  lemma GiveSpots(p: Pool, k: nat, t: Cache, d: Addr, i: nat, gone: bool)
    requires FormOk(p) && SpotsOk(p) && Slot(p, Spot(k, d, i)) && LiveAt(p, Spot(k, d, i)) && Loses(p.geos[k], p.all[k], t, d, i, gone)
    ensures SpotsOk(Given(p, k, t, d, i, gone))
  {
    assert LosesIn(SlabSet, p.geos[k], p.all[k], t, d, i, gone) && LosesIn(Lives, p.geos[k], p.all[k], t, d, i, gone);
    var q := Given(p, k, t, d, i, gone);
    forall x: Spot
      ensures LiveAt(q, x) <==> LiveAt(p, x) && x != Spot(k, d, i)
      ensures LiveAt(q, x) ==> Where(q, x) == Where(p, x)
    {
    }
    forall a | a in q.where
      ensures LiveAt(q, q.where[a]) && Where(q, q.where[a]) == a
    {
      assert LiveAt(p, p.where[a]);
    }
  }

  lemma GiveUsers(p: Pool, k: nat, t: Cache, d: Addr, i: nat, gone: bool)
    requires FormOk(p) && UsersOk(p) && Slot(p, Spot(k, d, i)) && Loses(p.geos[k], p.all[k], t, d, i, gone)
    requires Where(p, Spot(k, d, i)) !in p.users
    ensures UsersOk(Given(p, k, t, d, i, gone))
  {
    assert LosesIn(SlabSet, p.geos[k], p.all[k], t, d, i, gone);
    var q := Given(p, k, t, d, i, gone);
    forall a | a in q.users
      ensures Serves(q, a, q.users[a])
    {
      GiveServes(p, k, t, d, i, gone, a);
    }
    forall m, e | 0 <= m < |q.all| && q.geos[m].offSlab && e in q.all[m].slabs
      ensures e in q.users && q.users[e] == m
    {
      GiveUsed(p, k, t, d, i, gone, m, e);
    }
  }

  lemma GiveUsed(p: Pool, k: nat, t: Cache, d: Addr, i: nat, gone: bool, m: nat, e: Addr)
    requires UsersOk(p) && Slot(p, Spot(k, d, i)) && Loses(p.geos[k], p.all[k], t, d, i, gone)
    requires m < |p.all| && p.geos[m].offSlab && e in Given(p, k, t, d, i, gone).all[m].slabs
    ensures var q := Given(p, k, t, d, i, gone); e in q.users && q.users[e] == m
  {
    assert LosesIn(SlabSet, p.geos[k], p.all[k], t, d, i, gone);
    assert e in p.all[m].slabs;
    assert p.geos[k].offSlab ==> d in p.users && p.users[d] == k;
  }

  lemma GiveServes(p: Pool, k: nat, t: Cache, d: Addr, i: nat, gone: bool, a: Addr)
    requires UsersOk(p) && Slot(p, Spot(k, d, i)) && Loses(p.geos[k], p.all[k], t, d, i, gone)
    requires Where(p, Spot(k, d, i)) !in p.users && a in Given(p, k, t, d, i, gone).users
    ensures Serves(Given(p, k, t, d, i, gone), a, p.users[a])
  {
    assert LosesIn(SlabSet, p.geos[k], p.all[k], t, d, i, gone);
    assert Serves(p, a, p.users[a]);
  }
}

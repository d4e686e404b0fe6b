/** slab.c: the cache as an object, with kmem_cache_alloc, kmem_cache_free and the accounting of slab_allocated. */
module Slab {
  import opened BuddyMath
  import opened Lists
  import opened SlabGeometry
  import opened SlabCache

  // Counting live objects.

  ghost function LiveIn(g: Geometry, c: Cache, q: seq<Addr>): set<(Addr, nat)> {
    set d, i | d in q && 0 <= i < g.num && IsLive(g, c, d, i) :: (d, i)
  }

  /** Every live object of the cache, as its slab and index. */
  ghost function Live(g: Geometry, c: Cache): set<(Addr, nat)> {
    set d, i | d in c.slabs && 0 <= i < g.num && IsLive(g, c, d, i) :: (d, i)
  }

  ghost function LiveOf(g: Geometry, c: Cache, d: Addr): set<(Addr, nat)> {
    set i | 0 <= i < g.num && IsLive(g, c, d, i) :: (d, i)
  }

  ghost function InUse(c: Cache, q: seq<Addr>): nat
    requires forall d :: d in q ==> d in c.slabs
  {
    if q == [] then 0 else c.slabs[q[0]].inuse + InUse(c, q[1..])
  }

  ghost function Range(n: nat): (r: set<nat>)
    ensures forall i: nat :: i in r <==> i < n
  {
    if n == 0 then {} else Range(n - 1) + {n - 1}
  }

  lemma {:induction false} RangeSize(n: nat)
    ensures |Range(n)| == n
  {
    if n > 0 {
      RangeSize(n - 1);
    }
  }

  lemma {:induction false} ElementsSize(s: seq<nat>)
    requires Distinct(s)
    ensures |set i: nat | i in s| == |s|
  {
    if s == [] {
      assert (set i: nat | i in s) == {};
    } else {
      ElementsSize(s[1..]);
      assert s == [s[0]] + s[1..];
      assert (set i: nat | i in s) == (set i: nat | i in s[1..]) + {s[0]};
    }
  }

  ghost function Tag(d: Addr, s: set<nat>): set<(Addr, nat)> {
    set i | i in s :: (d, i)
  }

  lemma {:induction false} TagSize(d: Addr, s: set<nat>)
    ensures |Tag(d, s)| == |s|
  {
    if s == {} {
      assert Tag(d, s) == {};
    } else {
      var x :| x in s;
      TagSize(d, s - {x});
      assert Tag(d, s) == Tag(d, s - {x}) + {(d, x)};
    }
  }

  lemma OneSlab(g: Geometry, c: Cache, d: Addr)
    requires SlabsOk(g, c) && d in c.slabs
    ensures |LiveOf(g, c, d)| == c.slabs[d].inuse
  {
    var chain := c.chains[d];
    var busy := set i: nat | i in chain;
    ElementsSize(chain);
    RangeSize(g.num);
    assert busy <= Range(g.num);
    TagSize(d, Range(g.num) - busy);
    assert LiveOf(g, c, d) == Tag(d, Range(g.num) - busy);
  }

  lemma {:induction false} ManySlabs(g: Geometry, c: Cache, q: seq<Addr>)
    requires SlabsOk(g, c) && Distinct(q) && forall d :: d in q ==> d in c.slabs
    ensures |LiveIn(g, c, q)| == InUse(c, q)
  {
    if q == [] {
      assert LiveIn(g, c, q) == {};
    } else {
      ManySlabs(g, c, q[1..]);
      OneSlab(g, c, q[0]);
      assert q == [q[0]] + q[1..];
      assert LiveIn(g, c, q) == LiveOf(g, c, q[0]) + LiveIn(g, c, q[1..]);
      assert LiveOf(g, c, q[0]) !! LiveIn(g, c, q[1..]);
    }
  }

  /** The slabs on the two lists account for every live object. */
  lemma AllSlabs(g: Geometry, c: Cache)
    requires CacheOk(g, c)
    ensures (forall d :: d in c.full || d in c.partial ==> d in c.slabs)
    ensures |Live(g, c)| == InUse(c, c.full) + InUse(c, c.partial)
  {
    CacheIs(g, c);
    ManySlabs(g, c, c.full);
    ManySlabs(g, c, c.partial);
    TwoLists(g, c);
  }

  lemma TwoLists(g: Geometry, c: Cache)
    requires ListsOk(c)
    ensures |Live(g, c)| == |LiveIn(g, c, c.full)| + |LiveIn(g, c, c.partial)|
  {
    assert Live(g, c) == LiveIn(g, c, c.full) + LiveIn(g, c, c.partial);
    assert LiveIn(g, c, c.full) !! LiveIn(g, c, c.partial);
  }

  /** Slab d is there and has a free object. */
  ghost predicate Holds(c: Cache, d: Addr) {
    d in c.slabs && d in c.chains && c.chains[d] != [] && c.slabs[d].free < |c.slabs[d].bufctl|
  }

  lemma PopGains(g: Geometry, c: Cache, d: Addr)
    requires CacheOk(g, c) && d in c.partial && Holds(c, d)
    ensures Gains(g, c, Popped(c, d), d, c.slabs[d].free)
  {
    PopKeeps(g, c, d);
    assert CacheIn(Slabs, g, c);
    PopLive(g, c, d);
    GainsAre(g, c, Popped(c, d), d, c.slabs[d].free);
  }

  lemma PushLoses(g: Geometry, c: Cache, d: Addr, i: nat)
    requires CacheOk(g, c) && IsLive(g, c, d, i) && |c.slabs[d].bufctl| == g.num && c.slabs[d].inuse > 0
    ensures Loses(g, c, Pushed(g, c, d, i), d, i, false)
  {
    PushKeeps(g, c, d, i);
    PushLive(g, c, d, i);
    LosesAre(g, c, Pushed(g, c, d, i), d, i, false);
  }

  lemma DropLoses(g: Geometry, c: Cache, d: Addr, i: nat)
    requires CacheOk(g, c) && IsLive(g, c, d, i) && c.slabs[d].inuse == 1
    ensures Loses(g, c, Dropped(g, c, d), d, i, true)
  {
    DropKeeps(g, c, d);
    forall j: nat | IsLive(g, c, d, j)
      ensures j == i
    {
      LastObject(g, c, d, i, j);
    }
    LosesAre(g, c, Dropped(g, c, d), d, i, true);
  }

  lemma GrownGrows(g: Geometry, c: Cache, page: nat, d: Addr, b: seq<nat>)
    requires CacheOk(g, c) && FreshPages(g, c, page) && FreshBufctl(g, b)
    requires if g.offSlab then d !in c.slabs else d == page * PAGE_SIZE
    ensures Grows(g, c, Grown(g, c, page, d, b), page, d)
  {
    GrowKeeps(g, c, page, d, b);
    GrowsAre(g, c, Grown(g, c, page, d, b), page, d);
  }

  class KmemCache {
    const g: Geometry
    var slabs: map<Addr, SlabCache.Slab>
    var partial: seq<Addr>
    var full: seq<Addr>
    var owner: map<nat, Addr>
    ghost var chains: map<Addr, seq<nat>>

    ghost function St(): Cache
      reads this
    {
      Cache(slabs, partial, full, owner, chains)
    }

    ghost predicate Valid()
      reads this
    {
      CacheOk(g, St())
    }

    constructor (g: Geometry)
      requires Sound(g)
      ensures this.g == g && Valid() && St() == Cache(map[], [], [], map[], map[])
    {
      this.g := g;
      slabs, partial, full, owner, chains := map[], [], [], map[], map[];
      new;
      CacheIs(g, St());
    }

    /** kmem_cache_grow, given what alloc_pages returned and, for a control block outside, what the other cache
        returned. Without either the pages go back and nothing changes. */
    method Grow(page: Option<nat>, desc: Option<Addr>) returns (ok: bool)
      requires Valid() && (page.Some? ==> FreshPages(g, St(), page.value))
      requires g.offSlab && desc.Some? ==> desc.value !in slabs
      modifies this
      ensures Valid() && (ok <==> page.Some? && (g.offSlab ==> desc.Some?))
      ensures !ok ==> St() == old(St())
      ensures ok ==> partial != [] && Grows(g, old(St()), St(), page.value, partial[0])
      ensures ok ==> partial[0] == if g.offSlab then desc.value else page.value * PAGE_SIZE
      ensures ok && old(Busy(St())) ==> forall d :: d in slabs && d != partial[0] ==> slabs[d].inuse > 0
    {
      if page.None? || (g.offSlab && desc.None?) {
        return false;
      }
      assert CacheIn(Fit, g, St());
      var d := if g.offSlab then desc.value else page.value * PAGE_SIZE;
      var b := InitBufctl();
      ghost var c := St();
      GrownGrows(g, c, page.value, d, b);
      SetPages(page.value, d);
      slabs := slabs[d := SlabCache.Slab(page.value, 0, 0, b)];
      partial := [d] + partial;
      chains := chains[d := From(0, g.num)];
      ok := true;
      assert St() == Grown(g, c, page.value, d, b);
      assert GrowsIn(Whole, g, c, St(), page.value, d);
    }

    method InitBufctl() returns (b: seq<nat>)
      requires Sound(g)
      ensures FreshBufctl(g, b)
    {
      b := [];
      for i := 0 to g.num
        invariant |b| == i && forall k :: 0 <= k < i ==> b[k] == k + 1
      {
        b := b + [i + 1];
      }
      b := b[g.num - 1 := BUFCTL_END];
    }

    method SetPages(page: nat, d: Addr)
      modifies this`owner
      ensures owner == Own(old(owner), page, Pow2(g.order), d)
    {
      for n := 0 to Pow2(g.order)
        invariant owner == Own(old(owner), page, n, d)
      {
        owner := owner[page + n := d];
      }
    }

    /** kmem_cache_alloc_one. */
    method AllocOne(d: Addr) returns (obj: Addr)
      requires Valid() && d in partial
      modifies this
      ensures old(Holds(St(), d)) && St() == Popped(old(St()), d) && Valid()
      ensures Gains(g, old(St()), St(), d, old(slabs[d].free)) && d in slabs
      ensures obj == Obj(g, old(slabs[d]), old(slabs[d].free))
    {
      ghost var c := St();
      PopKeeps(g, c, d);
      var s := slabs[d];
      obj := s.page * PAGE_SIZE + g.offset + s.free * g.objsize;
      slabs := slabs[d := s.(inuse := s.inuse + 1, free := s.bufctl[s.free])];
      chains := chains[d := chains[d][1..]];
      if slabs[d].free == BUFCTL_END {
        partial := Without(partial, d);
        full := [d] + full;
      }
      assert St() == Popped(c, d);
      PopGains(g, c, d);
    }

    /** kmem_cache_alloc where some slab has a free object. */
    method Pop() returns (obj: Addr, ghost d: Addr, ghost i: nat)
      requires Valid() && partial != []
      modifies this
      ensures Valid() && Gains(g, old(St()), St(), d, i) && d == old(partial[0]) && d in slabs && obj == Obj(g, slabs[d], i)
      ensures old(forall e :: e in slabs && e != partial[0] ==> slabs[e].inuse > 0) ==> Busy(St())
    {
      assert CacheIn(Linking, g, St());
      d, i := partial[0], slabs[partial[0]].free;
      obj := AllocOne(partial[0]);
    }

    /** kmem_cache_alloc: an object nobody holds, or nothing when no slab has one and none can be made. */
    method Alloc(page: Option<nat>, desc: Option<Addr>) returns (obj: Option<Addr>, ghost d: Addr, ghost i: nat)
      requires Valid() && (page.Some? ==> FreshPages(g, St(), page.value))
      requires g.offSlab && desc.Some? ==> desc.value !in slabs
      modifies this
      ensures Valid() && (old(Busy(St())) ==> Busy(St()))
      ensures obj.None? <==> old(partial) == [] && (page.None? || (g.offSlab && desc.None?))
      ensures obj.None? ==> St() == old(St())
      ensures obj.Some? ==> d in slabs && obj.value == Obj(g, slabs[d], i) && !old(IsLive(g, St(), d, i))
      ensures obj.Some? ==> forall e: Addr, j: nat ::
        IsLive(g, St(), e, j) <==> old(IsLive(g, St(), e, j)) || (e == d && j == i)
    {
      d, i := 0, 0;
      ghost var c := St();
      if partial == [] {
        var ok := Grow(page, desc);
        if !ok {
          return None, 0, 0;
        }
        assert GrowsIn(Lives, g, c, St(), page.value, partial[0]);
      }
      ghost var m := St();
      var a;
      a, d, i := Pop();
      assert GainsIn(Lives, g, m, St(), d, i);
      obj := Some(a);
    }

    /** kfree of object i of slab d: the slab is found from the page and the index by dividing.
        When the last object goes, so do the pages and the control block. */
    method Free(obj: Addr, ghost d: Addr, ghost i: nat) returns (released: Option<Addr>)
      requires Valid() && IsLive(g, St(), d, i) && obj == Obj(g, slabs[d], i)
      modifies this
      ensures Valid() && (released == if old(slabs[d].inuse) == 1 then Some(d) else None)
      ensures Loses(g, old(St()), St(), d, i, released.Some?) && (old(Busy(St())) ==> Busy(St()))
    {
      FindObject(g, St(), d, i);
      var s := owner[obj / PAGE_SIZE];
      var n := (obj - (slabs[s].page * PAGE_SIZE + g.offset)) / g.objsize;
      released := FreeOne(s, n);
    }

    method FreeOne(d: Addr, i: nat) returns (released: Option<Addr>)
      requires Valid() && IsLive(g, St(), d, i)
      modifies this
      ensures Valid() && (released == if old(slabs[d].inuse) == 1 then Some(d) else None)
      ensures Loses(g, old(St()), St(), d, i, released.Some?) && (old(Busy(St())) ==> Busy(St()))
    {
      ghost var c := St();
      PushKeeps(g, c, d, i);
      if slabs[d].inuse == 1 {
        DestroySlab(d, i);
        released := Some(d);
      } else {
        PutBack(d, i);
        released := None;
      }
      assert LosesIn(Whole, g, c, St(), d, i, released.Some?);
    }

    method PutBack(d: Addr, i: nat)
      requires Valid() && IsLive(g, St(), d, i) && slabs[d].inuse > 1 && |slabs[d].bufctl| == g.num
      modifies this
      ensures Loses(g, old(St()), St(), d, i, false) && (old(Busy(St())) ==> Busy(St()))
    {
      ghost var c := St();
      PushLoses(g, c, d, i);
      var s := slabs[d];
      slabs := slabs[d := s.(bufctl := s.bufctl[i := s.free], free := i, inuse := s.inuse - 1)];
      chains := chains[d := [i] + chains[d]];
      if slabs[d].inuse == g.num - 1 {
        full := Without(full, d);
        partial := [d] + partial;
      }
      assert St() == Pushed(g, c, d, i);
    }

    /** list_del and kmem_slab_destory. */
    method DestroySlab(d: Addr, ghost i: nat)
      requires Valid() && IsLive(g, St(), d, i) && slabs[d].inuse == 1
      modifies this
      ensures Loses(g, old(St()), St(), d, i, true) && (old(Busy(St())) ==> Busy(St()))
    {
      ghost var c := St();
      DropLoses(g, c, d, i);
      ClearPages(slabs[d].page);
      partial := Without(partial, d);
      full := Without(full, d);
      slabs := slabs - {d};
      chains := chains - {d};
      assert St() == Dropped(g, c, d);
    }

    method ClearPages(page: nat)
      modifies this`owner
      ensures owner == Disown(old(owner), page, Pow2(g.order))
    {
      for n := 0 to Pow2(g.order)
        invariant owner == Disown(old(owner), page, n)
      {
        owner := owner - {page + n};
      }
    }

    /** This cache's share of slab_allocated: the bytes of its live objects. */
    method Allocated() returns (total: nat)
      requires Valid()
      ensures total == g.objsize * |Live(g, St())|
    {
      AllSlabs(g, St());
      var a := FullBytes();
      var b := PartialBytes();
      total := a + b;
    }

    method FullBytes() returns (total: nat)
      requires Valid() && forall d :: d in full ==> d in slabs
      ensures total == g.objsize * InUse(St(), full)
    {
      total := 0;
      var k := 0;
      while k < |full|
        invariant 0 <= k <= |full| && total == g.objsize * InUse(St(), full[..k])
      {
        FullSlab(g, St(), full[k]);
        NextInUse(St(), full, k);
        total := total + g.num * g.objsize;
        k := k + 1;
      }
      assert full[..k] == full;
    }

    method PartialBytes() returns (total: nat)
      requires Valid() && forall d :: d in partial ==> d in slabs
      ensures total == g.objsize * InUse(St(), partial)
    {
      total := 0;
      var k := 0;
      while k < |partial|
        invariant 0 <= k <= |partial| && total == g.objsize * InUse(St(), partial[..k])
      {
        NextInUse(St(), partial, k);
        total := total + g.objsize * slabs[partial[k]].inuse;
        k := k + 1;
      }
      assert partial[..k] == partial;
    }
  }

  lemma FullSlab(g: Geometry, c: Cache, d: Addr)
    requires CacheOk(g, c) && d in c.full
    ensures d in c.slabs && c.slabs[d].inuse == g.num
  {
    CacheIs(g, c);
  }

  lemma {:induction false} NextInUse(c: Cache, q: seq<Addr>, k: nat)
    requires k < |q| && forall d :: d in q ==> d in c.slabs
    ensures InUse(c, q[..k + 1]) == InUse(c, q[..k]) + c.slabs[q[k]].inuse
  {
    assert q[..k + 1][1..] == q[1..k + 1];
    if k > 0 {
      assert q[1..][..k] == q[1..k + 1] && q[1..][..k - 1] == q[1..k] == q[..k][1..];
      NextInUse(c, q[1..], k - 1);
    }
  }

  // All caches.

  ghost function LiveBytes(caches: seq<KmemCache>): nat
    reads caches
  {
    if caches == [] then 0
    else LiveBytes(caches[..|caches| - 1]) + caches[|caches| - 1].g.objsize * |Live(caches[|caches| - 1].g, caches[|caches| - 1].St())|
  }

  /** slab_allocated: the bytes of the live objects of every cache. */
  method SlabAllocated(caches: seq<KmemCache>) returns (total: nat)
    requires forall c :: c in caches ==> c.Valid()
    ensures total == LiveBytes(caches)
  {
    total := 0;
    var k := 0;
    while k < |caches|
      invariant 0 <= k <= |caches| && total == LiveBytes(caches[..k])
    {
      var bytes := caches[k].Allocated();
      assert caches[..k + 1][..k] == caches[..k];
      total := total + bytes;
      k := k + 1;
    }
    assert caches[..k] == caches;
  }
}

/** buddy_pmm.c: splitting, coalescing and cutting arbitrary ranges into blocks. */
module BuddyPmm {
  import opened Lists
  import opened BuddyMath
  import opened BuddyBlocks
  import opened BuddyLists

  class FreeArea {
    var lists: seq<seq<Page>>
    var nr: seq<nat>
    var heads: Heads
    var sizes: seq<nat>
    ghost var free: set<Page>

    ghost function St(): State
      reads this
    {
      State(lists, nr, heads, free, sizes)
    }

    ghost predicate Valid()
      reads this
    {
      Ok(St())
    }

    /** buddy_alloc_pages_sub, the part for the first order with a block: take its first block and split it. */
    method Split(top: nat, order: nat) returns (page: Page)
      requires Valid() && order <= top <= MAX_ORDER && top < |lists| && lists[top] != []
      modifies this
      ensures Fits(sizes, page, order) && Taken(old(St()), St(), page, Pow2(order))
    {
      ghost var s0 := St();
      page := TakeFirst(top);
      GiveHalves(page, top, order, s0.free);
      CuttingIs(St(), page, order, s0.free);
      heads := heads - {page};
      TakenIs(s0, St(), page, Pow2(order));
    }

    method TakeFirst(top: nat) returns (page: Page)
      requires Valid() && top <= MAX_ORDER && top < |lists| && lists[top] != []
      modifies this
      ensures sizes == old(sizes) && Cutting(St(), page, top, old(free))
    {
      page := lists[top][0];
      FirstIsBlock(St(), top);
      DropOk(St(), page, top);
      lists := lists[top := Without(lists[top], page)];
      nr := nr[top := nr[top] - 1];
      free := free - Run(page, Pow2(top));
      CuttingIs(St(), page, top, old(free));
    }

    /** Halve the block until it has the wanted order, putting the upper halves back. */
    method GiveHalves(page: Page, top: nat, order: nat, ghost was: set<Page>)
      requires order <= top && Cutting(St(), page, top, was)
      modifies this
      ensures sizes == old(sizes) && Cutting(St(), page, order, was)
    {
      var cur := top;
      while cur > order
        invariant order <= cur && sizes == old(sizes) && Cutting(St(), page, cur, was)
      {
        cur := cur - 1;
        SplitStep(St(), page, cur, was);
        var buddy := Page(page.zone, page.idx + Pow2(cur));
        heads := heads[buddy := cur];
        nr := nr[cur := nr[cur] + 1];
        lists := lists[cur := [buddy] + lists[cur]];
        free := free + Run(buddy, Pow2(cur));
      }
    }

    method AllocSub(order: nat) returns (page: Option<Page>)
      requires Valid() && order <= MAX_ORDER
      modifies this
      ensures Valid() && sizes == old(sizes)
      ensures page.None? ==> St() == old(St())
      ensures page.Some? <==> HasRun(old(free), order)
      ensures page.Some? ==> Fits(sizes, page.value, order) && Taken(old(St()), St(), page.value, Pow2(order))
    {
      BlockOrRun(St(), order);
      var cur := order;
      while cur <= MAX_ORDER
        invariant order <= cur <= MAX_ORDER + 1 && Valid() && St() == old(St())
        invariant HasBlock(heads, order) <==> HasBlock(heads, cur)
      {
        SearchStep(St(), cur);
        if lists[cur] != [] {
          var p := Split(cur, order);
          TakenIs(old(St()), St(), p, Pow2(order));
          return Some(p);
        }
        cur := cur + 1;
      }
      SearchEnd(St());
      return None;
    }

    /** buddy_free_pages_sub: put one aligned run back, merging it with free buddies as far up as they go. */
    method FreeSub(base: Page, order: nat)
      requires Valid() && Held(St(), base, Pow2(order)) && Aligned(base.idx, order) && order <= MAX_ORDER
      modifies this
      ensures Gained(old(St()), St(), base, Pow2(order))
    {
      ghost var s0 := St();
      HeldFits(s0, base, order);
      NotHeads(s0, base, Pow2(order));
      MergingIs(s0, base, order, s0.free + Run(base, Pow2(order)));
      var page, cur := Coalesce(base, order, s0.free + Run(base, Pow2(order)));
      Link(page, cur, s0.free + Run(base, Pow2(order)));
      GainedIs(s0, St(), base, Pow2(order));
    }

    method Coalesce(base: Page, order: nat, ghost all: set<Page>) returns (page: Page, cur: nat)
      requires order <= MAX_ORDER && Merging(St(), base, order, all)
      modifies this
      ensures sizes == old(sizes) && cur <= MAX_ORDER && Merging(St(), page, cur, all)
      ensures cur < MAX_ORDER ==> !IsBlock(heads, Buddy(page, cur), cur)
    {
      page, cur := base, order;
      while cur < MAX_ORDER
        invariant sizes == old(sizes) && cur <= MAX_ORDER && Merging(St(), page, cur, all)
        decreases MAX_ORDER - cur
      {
        var buddy := Buddy(page, cur);
        if !IsBlock(heads, buddy, cur) {
          return;
        }
        MergeStep(St(), page, cur, all);
        nr := nr[cur := nr[cur] - 1];
        lists := lists[cur := Without(lists[cur], buddy)];
        heads := heads - {buddy};
        free := free - Run(buddy, Pow2(cur));
        page := Page(page.zone, Parent(page.idx, cur));
        cur := cur + 1;
      }
    }

    method Link(page: Page, order: nat, ghost all: set<Page>)
      requires order <= MAX_ORDER && Merging(St(), page, order, all) && (order < MAX_ORDER ==> !IsBlock(heads, Buddy(page, order), order))
      modifies this
      ensures Valid() && sizes == old(sizes) && free == all
    {
      MergingIs(St(), page, order, all);
      PutOk(St(), page, order);
      heads := heads[page := order];
      nr := nr[order := nr[order] + 1];
      lists := lists[order := [page] + lists[order]];
      free := free + Run(page, Pow2(order));
    }

    /** Free the next block of a range, `done` pages of which have been freed. */
    method FreeNext(start: Page, len: nat, done: nat, order: nat, ghost s0: State)
      requires Valid() && Held(s0, start, len) && Gained(s0, St(), start, done) && done + Pow2(order) <= len
      requires Aligned(start.idx + done, order) && order <= MAX_ORDER
      modifies this
      ensures Valid() && Gained(s0, St(), start, done + Pow2(order))
    {
      ghost var s := St();
      HeldAfter(s0, s, start, len, done, Pow2(order));
      FreeSub(Page(start.zone, start.idx + done), order);
      GainedBoth(s0, s, St(), start, done, Pow2(order));
      GainedIs(s0, St(), start, done + Pow2(order));
    }

    /** The first loop of buddy_free_pages: blocks of growing order, up to the alignment of what is left. */
    method FreeLow(start: Page, len: nat) returns (ok: bool, done: nat, order: nat)
      requires Valid() && len > 0 && Held(St(), start, len)
      modifies this
      ensures ok <==> len < Pow2(MAX_ORDER + 1) + Slack(start.idx, MAX_ORDER + 1)
      ensures Valid() && Gained(old(St()), St(), start, done) && done <= len
      ensures ok ==> order <= MAX_ORDER + 1 && Aligned(start.idx + done, order) && len - done < Pow2(order)
    {
      ghost var s0 := St();
      GainedNothing(s0, start);
      done, order := 0, 0;
      while len - done >= Pow2(order)
        invariant Valid() && Gained(s0, St(), start, done) && order <= MAX_ORDER + 1 && done <= len
        invariant done == Slack(start.idx, order)
        decreases MAX_ORDER + 1 - order
      {
        if order > MAX_ORDER {
          return false, done, order;
        }
        SlackAligns(start.idx, order);
        SlackStep(start.idx, order);
        done := LowStep(start, len, done, order, s0);
        order := order + 1;
      }
      SlackAligns(start.idx, order);
      SlackMono(start.idx, order, MAX_ORDER + 1);
      ok := true;
    }

    method LowStep(start: Page, len: nat, done: nat, order: nat, ghost s0: State) returns (done': nat)
      requires Valid() && Held(s0, start, len) && Gained(s0, St(), start, done) && done + Pow2(order) <= len
      requires order <= MAX_ORDER && Aligned(start.idx + done, order)
      modifies this
      ensures Valid() && Gained(s0, St(), start, done')
      ensures done' == if Aligned(start.idx + done, order + 1) then done else done + Pow2(order)
    {
      done' := done;
      if !Aligned(start.idx + done, order + 1) {
        FreeNext(start, len, done, order, s0);
        done' := done + Pow2(order);
      }
    }

    /** The second loop: blocks of falling order. */
    method FreeHigh(start: Page, len: nat, done0: nat, order0: nat, ghost s0: State)
      requires Valid() && Held(s0, start, len) && Gained(s0, St(), start, done0) && done0 <= len
      requires order0 <= MAX_ORDER + 1 && Aligned(start.idx + done0, order0) && len - done0 < Pow2(order0)
      modifies this
      ensures Valid() && Gained(s0, St(), start, len)
    {
      var done: nat, order: nat := done0, order0;
      while done != len
        invariant Valid() && Gained(s0, St(), start, done) && done <= len
        invariant order <= MAX_ORDER + 1 && Aligned(start.idx + done, order) && len - done < Pow2(order)
        decreases len - done
      {
        done, order := HighStep(start, len, done, order, s0);
      }
    }

    method HighStep(start: Page, len: nat, done: nat, above: nat, ghost s0: State) returns (done': nat, order: nat)
      requires Valid() && Held(s0, start, len) && Gained(s0, St(), start, done) && done < len
      requires above <= MAX_ORDER + 1 && Aligned(start.idx + done, above) && len - done < Pow2(above)
      modifies this
      ensures Valid() && Gained(s0, St(), start, done') && done < done' <= len
      ensures order <= MAX_ORDER && Aligned(start.idx + done', order) && len - done' < Pow2(order)
    {
      order := Fitting(len - done, above);
      AlignedLe(start.idx + done, order, above);
      FreeNext(start, len, done, order, s0);
      Shift(start.idx + done, order, order);
      done' := done + Pow2(order);
    }

    /** buddy_free_pages. Its assertion on the order fails exactly if `ok` comes back false. */
    method FreePages(base: Page, n: nat) returns (ok: bool)
      requires Valid() && n > 0 && Held(St(), base, n)
      modifies this
      ensures ok <==> n < Pow2(MAX_ORDER + 1) + Slack(base.idx, MAX_ORDER + 1)
      ensures ok ==> Valid() && Gained(old(St()), St(), base, n)
    {
      if n == 1 {
        FreeSub(base, 0);
        GainedIs(old(St()), St(), base, 1);
        ok := true;
      } else {
        var done, order;
        ok, done, order := FreeLow(base, n);
        if ok {
          FreeHigh(base, n, done, order, old(St()));
        }
      }
    }

    /** n pages that were free, from the front of a run of the smallest sufficient order; the rest of it stays free. */
    method AllocPages(n: nat) returns (page: Option<Page>)
      requires Valid() && 0 < n <= Pow2(MAX_ORDER)
      modifies this
      ensures Valid() && (page.Some? <==> HasRun(old(free), OrderOf(n)))
      ensures page.None? ==> St() == old(St())
      ensures page.Some? ==> Taken(old(St()), St(), page.value, n) && Held(St(), page.value, n) && Aligned(page.value.idx, OrderOf(n))
    {
      var order := GetOrder(n);
      page := AllocSub(order);
      if page.Some? {
        FreeTail(page.value, n, order, old(St()));
        TakenIs(old(St()), St(), page.value, n);
        TakenHeld(old(St()), St(), page.value, n);
      }
    }

    /** Freeing what was just allocated leaves the same free blocks. */
    method AllocThenFree(n: nat) returns (page: Option<Page>)
      requires Valid() && 0 < n <= Pow2(MAX_ORDER)
      modifies this
      ensures Valid() && free == old(free) && heads == old(heads)
      ensures page.Some? <==> HasRun(old(free), OrderOf(n))
    {
      page := AllocPages(n);
      if page.Some? {
        ghost var s := St();
        var ok := FreePages(page.value, n);
        FreeUndoesAlloc(old(St()), s, St(), page.value, n);
      }
    }

    /** Free all but the first n pages of a run just taken. */
    method FreeTail(page: Page, n: nat, order: nat, ghost s0: State)
      requires Valid() && Taken(s0, St(), page, Pow2(order)) && Fits(sizes, page, order) && 0 < n <= Pow2(order)
      modifies this
      ensures Valid() && Taken(s0, St(), page, n)
    {
      if n != Pow2(order) {
        ghost var s := St();
        var tail, rest := Page(page.zone, page.idx + n), Pow2(order) - n;
        TailHeld(s0, s, page, n, Pow2(order));
        PowMono(order, MAX_ORDER);
        var ok := FreePages(tail, rest);
        TailBack(s0, s, St(), page, n, Pow2(order));
      }
    }

    /** buddy_nr_free_pages counts the free pages. */
    method NrFreePages() returns (ret: nat)
      requires Valid()
      ensures ret == |free|
    {
      CountIs(St());
      ret := 0;
      var order := 0;
      while order <= MAX_ORDER
        invariant order <= MAX_ORDER + 1 && ret + Total(nr, order) == |free|
      {
        ret := ret + nr[order] * Pow2(order);
        order := order + 1;
      }
    }

    constructor ()
      ensures Valid() && sizes == [] && free == {}
    {
      lists := seq(MAX_ORDER + 1, i => []);
      nr := seq(MAX_ORDER + 1, i => 0);
      heads := map[];
      sizes := [];
      free := {};
      new;
      EmptyOk(St());
    }

    /** buddy_init_memmap: a new zone, cut into blocks from the largest down. */
    method InitMemmap(n0: nat)
      requires Valid() && n0 > 0 && |sizes| < MAX_ZONE_NUM
      modifies this
      ensures Valid() && Gained(old(St()).(sizes := old(sizes) + [n0]), St(), Page(|old(sizes)|, 0), n0)
    {
      var zone := |sizes|;
      NewZone(St(), n0);
      sizes := sizes + [n0];
      ghost var s0 := St();
      GainedNothing(s0, Page(zone, 0));
      var idx: nat, order: int := 0, MAX_ORDER;
      while idx != n0
        invariant Valid() && Gained(s0, St(), Page(zone, 0), idx) && idx <= n0 && -1 <= order <= MAX_ORDER
        invariant idx != n0 ==> order >= 0 && Aligned(idx, order + 1) && (order < MAX_ORDER ==> n0 - idx < Pow2(order + 1))
        decreases order + 1
      {
        idx := CutOrder(zone, idx, order, n0, s0);
        order := order - 1;
      }
    }

    /** As many blocks of one order as fit. */
    method CutOrder(zone: nat, idx0: nat, order: nat, len: nat, ghost s0: State) returns (idx: nat)
      requires Valid() && Held(s0, Page(zone, 0), len) && Gained(s0, St(), Page(zone, 0), idx0) && idx0 <= len && order <= MAX_ORDER
      requires zone < |s0.sizes| && s0.sizes[zone] == len
      requires Aligned(idx0, order + 1) && (order < MAX_ORDER ==> len - idx0 < Pow2(order + 1))
      modifies this
      ensures Valid() && Gained(s0, St(), Page(zone, 0), idx) && idx <= len < idx + Pow2(order) && Aligned(idx, order)
    {
      idx := idx0;
      Halves(idx0, order);
      while len - idx >= Pow2(order)
        invariant Valid() && Gained(s0, St(), Page(zone, 0), idx) && idx <= len && Aligned(idx, order)
        invariant len - idx >= Pow2(order) && order < MAX_ORDER ==> Aligned(idx, order + 1)
        invariant order < MAX_ORDER ==> len - idx < Pow2(order + 1)
        decreases len - idx
      {
        CutOne(zone, idx, order, len, s0);
        Shift(idx, order, order);
        idx := idx + Pow2(order);
      }
    }

    /** Put one block behind those cut so far. */
    method CutOne(zone: nat, idx: nat, order: nat, len: nat, ghost s0: State)
      requires Valid() && Held(s0, Page(zone, 0), len) && Gained(s0, St(), Page(zone, 0), idx) && idx + Pow2(order) <= len
      requires zone < |s0.sizes| && s0.sizes[zone] == len
      requires order <= MAX_ORDER && Aligned(idx, order) && (order < MAX_ORDER ==> Aligned(idx, order + 1) && len < idx + Pow2(order + 1))
      modifies this
      ensures Valid() && Gained(s0, St(), Page(zone, 0), idx + Pow2(order))
    {
      ghost var s := St();
      var p := Page(zone, idx);
      CutOk(s0, s, p, order, len);
      heads := heads[p := order];
      lists := lists[order := [p] + lists[order]];
      nr := nr[order := nr[order] + 1];
      free := free + Run(p, Pow2(order));
      CutGains(s0, s, St(), p, order);
    }
  }

  const MAX_ZONE_NUM: nat := 10

  /** The largest order whose block is no larger than n. */
  method Fitting(n: nat, above: nat) returns (order: nat)
    requires 0 < n < Pow2(above)
    ensures order < above && Pow2(order) <= n < Pow2(order + 1)
  {
    order := above;
    while n < Pow2(order)
      invariant 0 < order <= above || (order == 0 && Pow2(order) <= n)
      invariant order < above ==> n < Pow2(order + 1)
    {
      order := order - 1;
    }
  }

  datatype TakePart = OkStill | Fewer | Counted

  ghost predicate TakeIn(part: TakePart, s: State, s': State, p: Page, n: nat) {
    match part
    case OkStill => Ok(s') && s'.sizes == s.sizes
    case Fewer => Run(p, n) <= s.free && s'.free == s.free - Run(p, n)
    case Counted => |s'.free| == |s.free| - n
  }

  /** Exactly the n pages from p on, which were free, have been taken. */
  ghost predicate Taken(s: State, s': State, p: Page, n: nat) {
    forall part :: TakeIn(part, s, s', p, n)
  }

  lemma TakenIs(s: State, s': State, p: Page, n: nat)
    ensures Taken(s, s', p, n) <==> Ok(s') && s'.sizes == s.sizes && Run(p, n) <= s.free && s'.free == s.free - Run(p, n)
  {
    RunSize(p, n);
    if Taken(s, s', p, n) {
      assert TakeIn(OkStill, s, s', p, n) && TakeIn(Fewer, s, s', p, n);
    }
    if Ok(s') && s'.sizes == s.sizes && Run(p, n) <= s.free && s'.free == s.free - Run(p, n) {
      forall part ensures TakeIn(part, s, s', p, n) {
        match part
        case OkStill =>
        case Fewer =>
        case Counted =>
      }
    }
  }

  lemma TailHeld(s0: State, s: State, p: Page, n: nat, len: nat)
    requires Taken(s0, s, p, len) && n <= len && p.zone < |s.sizes| && p.idx + len <= s.sizes[p.zone]
    ensures Held(s, Page(p.zone, p.idx + n), len - n)
  {
    TakenIs(s0, s, p, len);
    RunSplit(p, n, len - n);
    HeldIs(s, Page(p.zone, p.idx + n), len - n);
  }

  /** Of a run taken out, all but the first n pages are put back. */
  lemma TailBack(s0: State, s: State, s': State, p: Page, n: nat, len: nat)
    requires Taken(s0, s, p, len) && n <= len && Gained(s, s', Page(p.zone, p.idx + n), len - n)
    ensures Taken(s0, s', p, n)
  {
    TakenIs(s0, s, p, len);
    GainedIs(s, s', Page(p.zone, p.idx + n), len - n);
    RunSplit(p, n, len - n);
    TakenIs(s0, s', p, n);
  }

  /** A caller that holds two blocks of the largest order, side by side, cannot free them in one call. */
  method FreeTooMany() returns (ok: bool)
    ensures !ok
  {
    var area := new FreeArea();
    area.InitMemmap(2 * Pow2(MAX_ORDER));
    ghost var s0 := area.St();
    ZoneIs(s0, 2 * Pow2(MAX_ORDER));
    assert OrderOf(Pow2(MAX_ORDER)) == MAX_ORDER;
    WholeRun(s0.free, MAX_ORDER);
    var p := area.AllocPages(Pow2(MAX_ORDER));
    ghost var s1 := area.St();
    HalfLeft(s0, s1, p.value, MAX_ORDER);
    var q := area.AllocPages(Pow2(MAX_ORDER));
    AllTaken(s0, s1, area.St(), p.value, q.value, Pow2(MAX_ORDER));
    ZeroAligned(MAX_ORDER + 1);
    ok := area.FreePages(Page(0, 0), 2 * Pow2(MAX_ORDER));
  }

  lemma ZoneIs(s: State, n: nat)
    requires exists e: State :: e.free == {} && e.sizes == [n] && Gained(e, s, Page(0, 0), n)
    ensures s.sizes == [n] && s.free == Run(Page(0, 0), n)
  {
    var e: State :| e.free == {} && e.sizes == [n] && Gained(e, s, Page(0, 0), n);
    GainedIs(e, s, Page(0, 0), n);
  }

  lemma {:induction false} ZeroAligned(o: nat)
    ensures Aligned(0, o) && Slack(0, o) == 0
  {
    if o > 0 {
      ZeroAligned(o - 1);
      assert 0 / 2 == 0;
    }
  }

  lemma {:induction false} PowAligned(o: nat)
    ensures Aligned(Pow2(o), o)
  {
    if o > 0 {
      PowAligned(o - 1);
      assert Pow2(o) % 2 == 0 && Pow2(o) / 2 == Pow2(o - 1);
    }
  }

  lemma WholeRun(free: set<Page>, o: nat)
    requires Run(Page(0, 0), Pow2(o)) <= free || Run(Page(0, Pow2(o)), Pow2(o)) <= free
    ensures HasRun(free, o)
  {
    ZeroAligned(o);
    PowAligned(o);
    var p := if Run(Page(0, 0), Pow2(o)) <= free then Page(0, 0) else Page(0, Pow2(o));
    forall x | Spans(p, o, x)
      ensures x in free
    {
      RunMember(p, Pow2(o), x);
    }
    assert Aligned(p.idx, o) && AllFree(free, p, o);
  }

  lemma HalfLeft(s: State, s1: State, p: Page, o: nat)
    requires s.free == Run(Page(0, 0), 2 * Pow2(o)) && Taken(s, s1, p, Pow2(o)) && Aligned(p.idx, o)
    ensures HasRun(s1.free, o)
  {
    TakenIs(s, s1, p, Pow2(o));
    ZeroAligned(o);
    RunMember(p, Pow2(o), p);
    RunMember(Page(0, 0), 2 * Pow2(o), p);
    var last := Page(p.zone, p.idx + Pow2(o) - 1);
    RunMember(p, Pow2(o), last);
    RunMember(Page(0, 0), 2 * Pow2(o), last);
    if p.idx > 0 {
      Gap(0, p.idx, o);
    }
    WholeRun(s1.free, o);
  }

  lemma AllTaken(s: State, s1: State, s2: State, p: Page, q: Page, n: nat)
    requires s.sizes == [2 * n] && s.free == Run(Page(0, 0), 2 * n) && Taken(s, s1, p, n) && Taken(s1, s2, q, n)
    ensures Held(s2, Page(0, 0), 2 * n)
  {
    TakenIs(s, s1, p, n);
    TakenIs(s1, s2, q, n);
    RunSize(p, n);
    RunSize(q, n);
    RunSize(Page(0, 0), 2 * n);
    assert |s1.free| == n && |s2.free| == 0;
    HeldIs(s2, Page(0, 0), 2 * n);
  }

  /** The smallest order whose blocks hold n pages. */
  function OrderOf(n: nat): (o: nat)
    requires n <= Pow2(MAX_ORDER)
    ensures o <= MAX_ORDER && n <= Pow2(o) && (o > 0 ==> Pow2(o - 1) < n)
  {
    LeastOrder(n, 0)
  }

  function LeastOrder(n: nat, from: nat): (o: nat)
    requires n <= Pow2(MAX_ORDER) && from <= MAX_ORDER && (from > 0 ==> Pow2(from - 1) < n)
    ensures from <= o <= MAX_ORDER && n <= Pow2(o) && (o > 0 ==> Pow2(o - 1) < n)
    decreases MAX_ORDER - from
  {
    if n <= Pow2(from) then from else LeastOrder(n, from + 1)
  }

  method GetOrder(n: nat) returns (order: nat)
    requires 0 < n <= Pow2(MAX_ORDER)
    ensures order == OrderOf(n)
  {
    order := 0;
    var size := 1;
    while n > size
      invariant order <= MAX_ORDER && size == Pow2(order) && (order > 0 ==> Pow2(order - 1) < n)
      invariant OrderOf(n) == LeastOrder(n, order)
      decreases MAX_ORDER - order
    {
      order := order + 1;
      size := size * 2;
    }
  }

  lemma TakenHeld(s0: State, s: State, p: Page, n: nat)
    requires Taken(s0, s, p, n) && p.zone < |s.sizes| && p.idx + n <= s.sizes[p.zone]
    ensures Held(s, p, n)
  {
    TakenIs(s0, s, p, n);
    HeldIs(s, p, n);
  }

  /** Putting back what was taken out gives the same blocks, whatever run it was. */
  lemma FreeUndoesAlloc(before: State, mid: State, after: State, p: Page, n: nat)
    requires Ok(before) && Taken(before, mid, p, n) && Gained(mid, after, p, n)
    ensures after.free == before.free && after.heads == before.heads
  {
    TakenIs(before, mid, p, n);
    GainedIs(mid, after, p, n);
    assert Holds(Blocks, before) && Holds(Blocks, after);
    assert after.free == before.free;
    BlocksUnique(before.heads, after.heads, before.free, before.sizes, after.sizes);
  }

  // ---- setting up

  lemma EmptyOk(s: State)
    requires s.lists == seq(MAX_ORDER + 1, i => []) && s.nr == seq(MAX_ORDER + 1, i => 0)
    requires s.heads == map[] && s.free == {} && s.sizes == []
    ensures Ok(s)
  {
    forall part ensures Holds(part, s) {
      match part
      case Blocks =>
      case Links => assert forall o :: 0 <= o <= MAX_ORDER ==> ListOk(s.lists[o], s.nr[o], o, s.heads);
      case Count => ZeroTotal(s.nr, 0);
    }
  }

  lemma {:induction false} ZeroTotal(nr: seq<nat>, o: nat)
    requires o <= |nr| && forall i :: 0 <= i < |nr| ==> nr[i] == 0
    ensures Total(nr, o) == 0
    decreases |nr| - o
  {
    if o < |nr| {
      ZeroTotal(nr, o + 1);
    }
  }

  lemma NewZone(s: State, n: nat)
    requires Ok(s)
    ensures var s' := s.(sizes := s.sizes + [n]); Ok(s') && Held(s', Page(|s.sizes|, 0), n)
  {
    assert Holds(Blocks, s) && Holds(Links, s) && Holds(Count, s);
    var s', z := s.(sizes := s.sizes + [n]), Page(|s.sizes|, 0);
    forall part ensures Holds(part, s') {
      match part
      case Blocks =>
        forall p | p in s.heads ensures Fits(s'.sizes, p, s.heads[p]) {
          assert Fits(s.sizes, p, s.heads[p]);
        }
      case Links =>
      case Count =>
    }
    forall x | x in s.free ensures x !in Run(z, n) {
      RunMember(z, n, x);
      assert Covered(s.heads, x);
      var p :| p in s.heads && Spans(p, s.heads[p], x);
      assert Fits(s.sizes, p, s.heads[p]);
    }
    HeldIs(s', z, n);
  }

  /** Behind the blocks cut so far, another one can be put; below the largest order it is the lower of two buddies. */
  lemma CutOk(s0: State, s: State, p: Page, order: nat, len: nat)
    requires Held(s0, Page(p.zone, 0), len) && Gained(s0, s, Page(p.zone, 0), p.idx) && p.idx + Pow2(order) <= len
    requires p.zone < |s0.sizes| && s0.sizes[p.zone] == len && order <= MAX_ORDER && Aligned(p.idx, order)
    requires order < MAX_ORDER ==> Aligned(p.idx, order + 1) && len < p.idx + Pow2(order + 1)
    ensures |s.lists| == |s.nr| == MAX_ORDER + 1
    ensures Ok(Put(s, p, order).(free := s.free + Run(p, Pow2(order))))
  {
    GainedIs(s0, s, Page(p.zone, 0), p.idx);
    HeldAfter(s0, s, Page(p.zone, 0), len, p.idx, Pow2(order));
    HeldFits(s, p, order);
    if order < MAX_ORDER {
      TooLong(s, p, order, len);
    }
    PutOk(s, p, order);
  }

  lemma CutGains(s0: State, s: State, s': State, p: Page, order: nat)
    requires Gained(s0, s, Page(p.zone, 0), p.idx) && Ok(s') && s'.sizes == s.sizes && s'.free == s.free + Run(p, Pow2(order))
    ensures Gained(s0, s', Page(p.zone, 0), p.idx + Pow2(order))
  {
    GainedIs(s, s', p, Pow2(order));
    GainedBoth(s0, s, s', Page(p.zone, 0), p.idx, Pow2(order));
  }

  lemma TooLong(s: State, p: Page, order: nat, len: nat)
    requires Ok(s) && p.zone < |s.sizes| && s.sizes[p.zone] == len
    requires Aligned(p.idx, order + 1) && len < p.idx + Pow2(order + 1)
    ensures !IsBlock(s.heads, Buddy(p, order), order)
  {
    assert Holds(Blocks, s);
    var b := Buddy(p, order);
    assert b in s.heads ==> Fits(s.sizes, b, s.heads[b]);
  }
}

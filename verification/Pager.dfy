/** swap.c, pmm.c, shmem.c and do_page_fault as code over the kernel's tables, each function a sequence of machine steps. */
module Pager {
  import opened Lists
  import opened PageState
  import opened PageSteps
  import opened PageEntrySteps
  import opened PageCacheSteps
  import opened PageRuns
  import opened PageFaults

  /** Whether the scan that starts at `from` visits `a` before `b`. */
  ghost predicate Before(a: nat, b: nat, from: nat) {
    if a >= from then b > a || b < from else a < b < from
  }

  ghost predicate Absent(m: seq<nat>, v: nat) {
    forall k :: 0 < k < |m| ==> m[k] != v
  }

  /** Every swap entry is in use. */
  ghost predicate NoEntry(s: State) {
    Absent(s.memMap, 0) && Absent(s.memMap, SWAP_UNUSED)
  }

  ghost predicate StaysFull(s: State, t: State) {
    NoEntry(s) ==> NoEntry(t) && t.index == s.index
  }

  /** `e` is the first cell with value `v` that a scan from `from` meets. */
  ghost predicate FirstFrom(m: seq<nat>, v: nat, from: nat, e: nat) {
    0 < e < |m| && m[e] == v && forall k :: 0 < k < |m| && Before(k, e, from) ==> m[k] != v
  }

  /** The scan of try_alloc_swap_entry: once around from the cursor, stopping at the first unused cell. */
  method ScanSwapMap(m: seq<nat>, from: nat) returns (empty: nat, zero: nat, next: nat)
    requires 1 < |m| && 0 < from < |m|
    ensures 0 < next < |m|
    ensures if empty == 0 then Absent(m, SWAP_UNUSED) && next == from
            else FirstFrom(m, SWAP_UNUSED, from, empty) && next == (if empty + 1 == |m| then 1 else empty + 1)
    ensures zero != 0 ==> FirstFrom(m, 0, from, zero)
    ensures zero == 0 && empty == 0 ==> Absent(m, 0)
  {
    empty, zero, next := 0, 0, from;
    var more := true;
    ghost var wrapped := false;
    while more
      invariant 0 < next < |m|
      invariant if wrapped then next <= from else from <= next
      invariant more ==> empty == 0 && (wrapped ==> next < from)
      invariant !more && empty == 0 ==> wrapped && next == from
      invariant empty == 0 ==>
                  forall k :: 0 < k < |m| && (if wrapped then k >= from || k < next else from <= k < next) ==>
                    m[k] != SWAP_UNUSED
      invariant empty != 0 ==> FirstFrom(m, SWAP_UNUSED, from, empty) && next == (if empty + 1 == |m| then 1 else empty + 1)
      invariant zero == 0 ==>
                  forall k :: 0 < k < |m| && (if wrapped then k >= from || k < next else from <= k < next) ==> m[k] != 0
      invariant zero != 0 ==> FirstFrom(m, 0, from, zero)
      decreases more, if wrapped then from - next else |m| + from - next
    {
      if m[next] == SWAP_UNUSED {
        empty := next;
      } else if m[next] == 0 {
        if zero == 0 {
          zero := next;
        }
      }
      next := next + 1;
      if next == |m| {
        next := 1;
        wrapped := true;
      }
      more := empty == 0 && next != from;
    }
  }

  /** An entry with count 0 is not the one being written out. */
  lemma NotInFlight(s: State, e: Entry)
    requires Core(s) && 0 < e < |s.memMap| && s.memMap[e] == 0 && e in s.cache
    ensures s.laundering != Some(s.cache[e]) && UncachePre(s, s.cache[e], true)
  {
    assert Holds(SwapMap, s) && Holds(Cache, s);
    assert Pin(s, e) == 0;
  }

  /** Only slot `sl` and shared-memory entries differ. */
  ghost predicate OnlyAt(s: State, t: State, sl: Slot) {
    t.area == s.area && forall y: Slot :: y.User? && y != sl ==> Lookup(t.pte, y) == Lookup(s.pte, y)
  }

  /** No program can tell the two states apart. */
  ghost predicate Same(s: State, t: State) {
    Legible(s) && Legible(t) && View(t) == View(s)
  }

  class Kernel {
    var st: State
    var next: nat              // the static cursor of try_alloc_swap_entry
    ghost var origin: State    // the state the machine started in
    ghost var log: seq<Step>   // the machine steps made since

    ghost predicate Valid()
      reads this
    {
      Inv(st) && Reaches(origin, log, st) && 1 < |st.memMap| && 0 < next < |st.memMap|
    }

    constructor (s: State)
      requires Booted(s) && 1 < |s.memMap|
      ensures Valid() && st == s && next == 1 && origin == s && log == []
    {
      st, origin := s, s;
      next := 1;
      log := [];
      new;
      BootInv(s);
    }

    /** Record that the code just made one machine step from `s0`. */
    ghost method Commit(s0: State, step: Step)
      requires Inv(s0) && Reaches(origin, log, s0) && 1 < |s0.memMap| && 0 < next < |s0.memMap|
      requires Enabled(s0, step) && st == Apply(s0, step)
      modifies this`log
      ensures Valid() && log == old(log) + [step]
      ensures Legible(s0) && Legible(st) && PlainNext(View(s0), step, View(st))
    {
      StepRefines(s0, step);
      ReachStep(origin, log, s0, step);
      ApplyLength(s0, step);
      log := log + [step];
    }

    // ---- list and cache primitives

    method SwapListDel(p: Page)
      requires ListsOk(st) && p in st.index && st.laundering != Some(p)
      modifies this`st
      ensures st == old(st).(active := Without(old(st).active, p), inactive := Without(old(st).inactive, p))
    {
      WithoutAbsent(if p in st.hot then st.inactive else st.active, p);
      if p in st.hot {
        st := st.(active := Without(st.active, p));
      } else {
        st := st.(inactive := Without(st.inactive, p));
      }
    }

    method SwapPageDel(p: Page)
      requires p in st.index
      modifies this`st
      ensures st == old(st).(index := old(st).index - {p}, cache := old(st).cache - {old(st).index[p]})
    {
      st := st.(cache := st.cache - {st.index[p]});
      st := st.(index := st.index - {p});
    }

    /** free_page: the allocator resets the flags of what it takes back. */
    method FreePage(p: Page)
      modifies this`st
      ensures st == old(st).(free := old(st).free + {p}, dirty := old(st).dirty - {p}, hot := old(st).hot - {p})
    {
      st := st.(free := st.free + {p}, dirty := st.dirty - {p}, hot := st.hot - {p});
    }

    /** The body that entry stealing, swap_remove_entry and page_launder share for a page nobody names. */
    method DiscardFields(p: Page)
      requires ListsOk(st) && UncachePre(st, p, true)
      modifies this`st
      ensures st == Uncache(old(st), p, true)
    {
      var e := st.index[p];
      SwapListDel(p);
      if st.ref[p] == 0 {
        SwapPageDel(p);
        FreePage(p);
      } else {
        SwapPageDel(p);
      }
      st := st.(memMap := st.memMap[e := SWAP_UNUSED]);
    }

    method Discard(p: Page)
      requires Valid() && UncachePre(st, p, true)
      modifies this`st, this`log
      ensures Valid() && st == Uncache(old(st), p, true) && log == old(log) + [Dropped(p)]
      ensures Same(old(st), st)
    {
      ghost var s0 := st;
      assert Holds(Lists, st);
      DiscardFields(p);
      Commit(s0, Dropped(p));
    }

    /** try_alloc_swap_entry: the first unused entry after the cursor, else steal the first that nobody names. */
    method TryAllocSwapEntry() returns (e: Entry)
      requires Valid()
      modifies this`st, this`next, this`log
      ensures Valid() && Same(old(st), st)
      ensures e == 0 <==> Absent(old(st).memMap, 0) && Absent(old(st).memMap, SWAP_UNUSED)
      ensures e == 0 ==> st == old(st)
      ensures e != 0 ==> 0 < e < |st.memMap| == |old(st).memMap| && st.memMap[e] == SWAP_UNUSED
      ensures e != 0 && old(st).memMap[e] == SWAP_UNUSED ==>
                st == old(st) && FirstFrom(old(st).memMap, SWAP_UNUSED, old(next), e)
      ensures e != 0 && old(st).memMap[e] != SWAP_UNUSED ==>
                && e in old(st).cache && UncachePre(old(st), old(st).cache[e], true)
                && st == Uncache(old(st), old(st).cache[e], true)
                && Absent(old(st).memMap, SWAP_UNUSED) && FirstFrom(old(st).memMap, 0, old(next), e)
    {
      CoreLegible(st);
      var empty, zero;
      empty, zero, next := ScanSwapMap(st.memMap, next);
      e := 0;
      if empty != 0 {
        e := empty;
      } else if zero != 0 {
        e := zero;
        assert Holds(Cache, st);
        NotInFlight(st, zero);
        Discard(st.cache[zero]);
      }
    }

    method Enter(p: Page, e: Entry)
      requires Valid() && AdoptPre(st, p, e, false)
      modifies this`st, this`log
      ensures Valid() && Same(old(st), st) && st == Adopt(old(st), p, e, false) && log == old(log) + [Adopted(p, e)]
    {
      ghost var s0 := st;
      st := st.(memMap := st.memMap[e := 0]);
      st := st.(dirty := st.dirty + {p});
      st := st.(index := st.index[p := e], cache := st.cache[e := p]);
      st := st.(hot := st.hot + {p}, active := st.active + [p]);
      assert st.free == s0.free - {p};
      Commit(s0, Adopted(p, e));
    }

    /** swap_page_add with entry 0, and the move to the active list that always follows it. */
    method SwapPageAdd(p: Page) returns (ok: bool)
      requires Valid() && p in st.ref && p !in st.free && p !in st.index
      modifies this`st, this`next, this`log
      ensures Valid() && Same(old(st), st)
      ensures st.pte == old(st).pte && st.area == old(st).area && st.ref == old(st).ref
      ensures ok ==> p in st.index && p in st.dirty && st.index[p] < |st.memMap| && st.memMap[st.index[p]] == 0
      ensures !ok <==> Absent(old(st).memMap, 0) && Absent(old(st).memMap, SWAP_UNUSED)
      ensures !ok ==> st == old(st)
    {
      var e := TryAllocSwapEntry();
      if e == 0 {
        return false;
      }
      Enter(p, e);
      return true;
    }

    /** One present entry becomes its swap entry: swap_duplicate, page_ref_dec and the write of the entry. */
    method RepointFields(sl: Slot)
      requires Core(st) && EvictPre(st, sl)
      modifies this`st
      ensures st == Evict(old(st), sl)
    {
      var p, e, d := st.pte[sl].page, st.index[st.pte[sl].page], st.pte[sl].d;
      EvictShape(st, sl);
      if d {
        st := st.(dirty := st.dirty + {p});
      }
      st := st.(memMap := st.memMap[e := st.memMap[e] + 1]);
      st := st.(ref := st.ref[p := st.ref[p] - 1]);
      st := st.(pte := st.pte[sl := Swapped(e)]);
    }

    method Repoint(sl: Slot)
      requires Valid() && EvictPre(st, sl)
      modifies this`st, this`log
      ensures Valid() && Same(old(st), st) && log == old(log) + [Evicted(sl)]
      ensures var p := old(st).pte[sl].page;
              && st.pte == old(st).pte[sl := Swapped(old(st).index[p])]
              && st.index == old(st).index && st.area == old(st).area && |st.memMap| == |old(st).memMap|
              && p in old(st).ref && old(st).ref[p] > 0 && st.ref == old(st).ref[p := old(st).ref[p] - 1]
      ensures StaysFull(old(st), st)
    {
      ghost var s0 := st;
      RepointFields(sl);
      Commit(s0, Evicted(sl));
      EvictShape(s0, sl);
    }

    /** One address of swap_out_vma: give a second chance, else give the page a swap entry and point the entry at it. */
    method SwapOutEntry(sl: Slot) returns (out: bool, panicked: bool)
      requires Valid() && sl.User?
      modifies this`st, this`next, this`log
      ensures Valid() && Same(old(st), st) && OnlyAt(old(st), st, sl)
      ensures out <==> sl in old(st).pte && old(st).pte[sl].Present? && sl in st.pte && st.pte[sl].Swapped?
      ensures out ==> !old(st).pte[sl].a
      ensures sl in old(st).pte && old(st).pte[sl].Present? && old(st).pte[sl].a ==>
                !panicked && st == Flag(old(st), sl, old(st).pte[sl].w, false, old(st).pte[sl].d)
      ensures NotRecent(st, sl) && (panicked ==> !Absent(st.memMap, MAX_SWAP_REF))
      ensures StaysFull(old(st), st) && (!panicked ==> OutOrFull(old(st), st, sl))
      ensures out && !panicked ==> ShmFollows(st, sl)
    {
      CoreLegible(st);
      if sl in st.pte && st.pte[sl].Present? {
        if st.pte[sl].a {
          ClearAccessedBit(sl);
          return false, false;
        }
        out, panicked := SwapOutPage(sl);
      } else {
        return false, false;
      }
    }

    method ClearAccessedBit(sl: Slot)
      requires Valid() && sl.User? && sl in st.pte && st.pte[sl].Present?
      modifies this`st, this`log
      ensures Valid() && Same(old(st), st) && st == Flag(old(st), sl, old(st).pte[sl].w, false, old(st).pte[sl].d)
    {
      ghost var s0 := st;
      st := st.(pte := st.pte[sl := st.pte[sl].(a := false)]);
      Commit(s0, ClearAccessed(sl));
    }

    method SwapOutPage(sl: Slot) returns (out: bool, panicked: bool)
      requires Valid() && sl.User? && sl in st.pte && st.pte[sl].Present?
      modifies this`st, this`next, this`log
      ensures Valid() && Same(old(st), st) && OnlyAt(old(st), st, sl)
      ensures sl in st.pte && (if out then st.pte[sl].Swapped? else st.pte[sl] == old(st).pte[sl])
      ensures out && !panicked ==> ShmFollows(st, sl)
      ensures panicked ==> !Absent(st.memMap, MAX_SWAP_REF)
      ensures StaysFull(old(st), st)
      ensures !out && !panicked ==> st.pte[sl].page !in st.index && NoEntry(st)
    {
      var p := st.pte[sl].page;
      PresentPage(st, sl);
      CoreLegible(st);
      if p !in st.index {
        var ok := SwapPageAdd(p);
        if !ok {
          return false, false;
        }
      }
      out, panicked := EvictWithShm(sl);
    }

    method EvictWithShm(sl: Slot) returns (out: bool, panicked: bool)
      requires Valid() && sl.User? && sl in st.pte && st.pte[sl].Present? && st.pte[sl].page in st.index
      modifies this`st, this`log
      ensures Valid() && Same(old(st), st) && OnlyAt(old(st), st, sl)
      ensures sl in st.pte && (if out then st.pte[sl].Swapped? else st.pte[sl] == old(st).pte[sl])
      ensures out && !panicked ==> ShmFollows(st, sl)
      ensures out || panicked
      ensures panicked ==> !Absent(st.memMap, MAX_SWAP_REF)
      ensures StaysFull(old(st), st)
    {
      var p := st.pte[sl].page;
      CoreLegible(st);
      assert Holds(Cache, st);
      if st.memMap[st.index[p]] >= MAX_SWAP_REF {
        PageLimit(st, p);
        return false, true;
      }
      Repoint(sl);
      out, panicked := true, false;
      if Class(st.area, sl).Some? {
        panicked := EvictShm(sl, p);
      }
    }

    /** The last user of a shared page is gone: its shared-memory entry follows to the swap entry. */
    method EvictShm(sl: Slot, p: Page) returns (panicked: bool)
      requires Valid() && sl.User? && sl in st.pte && p in st.index && st.pte[sl] == Swapped(st.index[p])
      requires Class(st.area, sl).Some?
      modifies this`st, this`log
      ensures Valid() && Same(old(st), st) && OnlyAt(old(st), st, sl)
      ensures sl in st.pte && st.pte[sl] == old(st).pte[sl]
      ensures !panicked ==> ShmFollows(st, sl)
      ensures panicked ==> !Absent(st.memMap, MAX_SWAP_REF)
      ensures StaysFull(old(st), st)
    {
      var sh := Class(st.area, sl).value;
      SharedEntry(st, sl, p);
      CoreLegible(st);
      if st.ref[p] == 1 && st.pte[sh].Present? {
        if st.memMap[st.index[p]] >= MAX_SWAP_REF {
          PageLimit(st, p);
          return true;
        }
        Repoint(sh);
      }
      return false;
    }

    /** swap_out_vma: walk the pages of an area from `addr` until `require` entries are out. `cursor` is mm->swap_address, which
        ends behind the last of them. */
    method SwapOutVma(mm: nat, vmStart: nat, vmEnd: nat, addr: nat, require: nat, cursor0: nat)
      returns (count: nat, panicked: bool, cursor: nat)
      requires Valid()
      modifies this`st, this`next, this`log
      ensures Valid() && Same(old(st), st) && count <= require
      ensures !(vmStart <= addr < vmEnd) ==> count == 0 && st == old(st)
      ensures panicked ==> !Absent(st.memMap, MAX_SWAP_REF)
      ensures !panicked && count < require && vmStart <= addr < vmEnd ==>
                forall v :: addr / PAGE_SIZE <= v < (vmEnd + PAGE_SIZE - 1) / PAGE_SIZE ==>
                  NotRecent(st, User(mm, v)) && OutOrFull(old(st), st, User(mm, v))
      ensures count == OutCount(old(st), st, mm, addr / PAGE_SIZE, (vmEnd + PAGE_SIZE - 1) / PAGE_SIZE)
      ensures if count == 0 then cursor == cursor0
              else LastOut(old(st), st, mm, addr / PAGE_SIZE, (vmEnd + PAGE_SIZE - 1) / PAGE_SIZE, cursor)
    {
      count, panicked, cursor := 0, false, cursor0;
      CoreLegible(st);
      var first, end := addr / PAGE_SIZE, (vmEnd + PAGE_SIZE - 1) / PAGE_SIZE;
      if require == 0 || !(vmStart <= addr < vmEnd) {
        NoneOut(st, mm, first, end);
        return;
      }
      count, panicked, cursor := SwapOutPages(mm, first, end, require, cursor0);
    }

    method SwapOutPages(mm: nat, first: nat, end: nat, require: nat, cursor0: nat)
      returns (count: nat, panicked: bool, cursor: nat)
      requires Valid()
      modifies this`st, this`next, this`log
      ensures Valid() && Same(old(st), st) && count <= require
      ensures panicked ==> !Absent(st.memMap, MAX_SWAP_REF)
      ensures !panicked && count < require ==>
                forall v :: first <= v < end ==> NotRecent(st, User(mm, v)) && OutOrFull(old(st), st, User(mm, v))
      ensures count == OutCount(old(st), st, mm, first, end)
      ensures if count == 0 then cursor == cursor0 else LastOut(old(st), st, mm, first, end, cursor)
    {
      count, panicked, cursor := 0, false, cursor0;
      CoreLegible(st);
      var vpn := first;
      while vpn < end && count != require
        invariant Valid() && Same(old(st), st) && count <= require && first <= vpn && (vpn <= end || vpn == first) && !panicked
        invariant forall part :: SweptIn(part, old(st), st, mm, first, end, vpn, count, cursor0, cursor, true)
        decreases end - vpn
      {
        var out;
        ghost var before, was, at := st, count, cursor;
        out, panicked := SwapOutEntry(User(mm, vpn));
        if out {
          cursor := (vpn + 1) * PAGE_SIZE;
          count := count + 1;
        }
        vpn := vpn + 1;
        SweptNext(old(st), before, st, mm, first, end, vpn - 1, was, cursor0, at, vpn, count, cursor, out, !panicked);
        if panicked {
          break;
        }
      }
      SweptDone(old(st), st, mm, first, end, vpn, count, cursor0, cursor, !panicked);
    }

    // ---- the two lists

    /** swap_list_del followed by swap_active_list_add or swap_inactive_list_add. */
    method Relist(p: Page, hot: bool)
      requires Valid() && p in st.index && st.laundering != Some(p)
      modifies this`st, this`log
      ensures Valid() && Same(old(st), st) && st == Move(old(st), p, hot)
    {
      ghost var s0 := st;
      assert Holds(Lists, st);
      SwapListDel(p);
      if hot {
        st := st.(hot := st.hot + {p}, active := st.active + [p]);
      } else {
        st := st.(hot := st.hot - {p}, inactive := st.inactive + [p]);
      }
      Commit(s0, if hot then Heated(p) else Cooled(p));
    }

    /** refill_inactive_scan: unmapped pages leave the active list, in order, for the tail of the inactive list. */
    method RefillInactiveScan()
      requires Valid() && st.laundering == None
      modifies this`st, this`log
      ensures Valid() && Same(old(st), st)
      ensures st.active == Pick(old(st).active, old(st).ref, true)
      ensures st.inactive == old(st).inactive + Pick(old(st).active, old(st).ref, false)
      ensures forall p :: p in old(st).active ==>
                p in st.ref && if st.ref[p] != 0 then p in st.active && p !in st.inactive else p in st.inactive && p !in st.active
      ensures st.pte == old(st).pte && st.ref == old(st).ref && st.memMap == old(st).memMap
    {
      var todo := st.active;
      ghost var s0 := st;
      CoreLegible(st);
      RefillStart(s0);
      for i := 0 to |todo|
        invariant Valid() && Same(s0, st) && todo == s0.active && Refilled(s0, st, i)
      {
        ActivePage(s0, i);
        if st.ref[todo[i]] == 0 {
          CoolNext(todo[i], s0, i);
        } else {
          RefillSkip(s0, st, i);
        }
      }
      RefillEnd(s0, st);
    }

    method CoolNext(p: Page, ghost s0: State, ghost i: nat)
      requires Valid() && Core(s0) && Same(s0, st) && i < |s0.active| && Refilled(s0, st, i)
      requires p == s0.active[i] && p in st.ref && st.ref[p] == 0
      modifies this`st, this`log
      ensures Valid() && Same(s0, st) && Refilled(s0, st, i + 1)
    {
      ActivePage(s0, i);
      NotInactive(s0, st, i);
      WithoutAbsent(st.inactive, p);
      Relist(p, false);
    }

    // ---- page_launder

    method PinFields(p: Page)
      requires ListsOk(st) && PinPre(st, p)
      modifies this`st
      ensures st == PinDown(old(st), p)
    {
      WithoutAbsent(st.active, p);
      SwapListDel(p);
      st := st.(dirty := st.dirty - {p});
      st := st.(memMap := st.memMap[st.index[p] := st.memMap[st.index[p]] + 1], laundering := Some(p), sent := false);
    }

    /** The part of page_launder before the disk write. */
    method LaunderBegin(p: Page)
      requires Valid() && PinPre(st, p)
      modifies this`st, this`log
      ensures Valid() && Same(old(st), st) && st == PinDown(old(st), p)
    {
      ghost var s0 := st;
      assert Holds(Lists, st);
      PinFields(p);
      Commit(s0, WriteBegun(p));
    }

    /** swapfs_write, once it has the disk: `v` is what reaches the frame. Other processes may have run since LaunderBegin,
        and may run before LaunderEnd. */
    method LaunderWrite(v: Data)
      requires Valid() && st.laundering.Some? && !st.sent
      modifies this`st, this`log
      ensures Valid() && Same(old(st), st) && Writing(old(st)) && st == Transfer(old(st), v)
    {
      ghost var s0 := st;
      WritingHolds(st);
      var p := st.laundering.value;
      st := st.(disk := st.disk[st.index[p] := v]);
      st := st.(sent := v == st.data[p]);
      Commit(s0, Transferred(v));
    }

    /** The accounting after the write; `ok` is what swapfs_write answered. */
    method LaunderEnd(ok: bool)
      requires Valid() && st.laundering.Some? && (ok ==> st.sent)
      modifies this`st, this`log
      ensures Valid() && Same(old(st), st) && Writing(old(st)) && st == Unpin(old(st), ok)
    {
      ghost var s0 := st;
      WritingHolds(st);
      var p, e := st.laundering.value, st.index[st.laundering.value];
      if !ok {
        st := st.(dirty := st.dirty + {p});
      }
      st := st.(memMap := st.memMap[e := st.memMap[e] - 1], laundering := None, sent := false);
      if st.ref[p] != 0 {
        st := st.(hot := st.hot + {p}, active := st.active + [p]);
      } else {
        st := st.(inactive := st.inactive + [p]);
      }
      Commit(s0, WriteEnded(ok));
    }

    method DropFields(p: Page)
      requires ListsOk(st) && UncachePre(st, p, false)
      modifies this`st
      ensures st == Uncache(old(st), p, false)
    {
      SwapListDel(p);
      SwapPageDel(p);
      FreePage(p);
    }

    /** A clean page whose bytes are on disk goes; its entry stays. */
    method DropCleanPage(p: Page)
      requires Valid() && UncachePre(st, p, false)
      modifies this`st, this`log
      ensures Valid() && Same(old(st), st) && st == Uncache(old(st), p, false)
    {
      ghost var s0 := st;
      assert Holds(Lists, st);
      DropFields(p);
      Commit(s0, DroppedClean(p));
    }

    /** One round of page_launder; `ok` is what swapfs_write answers. */
    method LaunderOne(p: Page, ok: bool) returns (fate: Fate)
      requires Valid() && st.laundering == None && p in st.inactive
      modifies this`st, this`log
      ensures Valid() && Same(old(st), st) && st.laundering == None
      ensures p in old(st).ref && p in old(st).index && old(st).index[p] < |old(st).memMap|
      ensures fate == FateOf(old(st), p, ok)
      ensures Settled(old(st), st, p, fate)
      ensures Aside(old(st), st, p) && (fate != Freed ==> Undisturbed(old(st), st, p))
    {
      InactivePage(st, p);
      CoreLegible(st);
      WithoutAbsent(st.active, p);
      if st.ref[p] != 0 {
        Relist(p, true);
        MoveAside(old(st), p, true);
        return Activated;
      }
      var e := st.index[p];
      if st.memMap[e] == 0 {
        Discard(p);
        UncacheAside(old(st), p, true);
        return Freed;
      }
      if p in st.dirty {
        if st.memMap[e] >= MAX_SWAP_REF {
          return Panicked;
        }
        fate := WriteOut(p, ok);
        return;
      }
      DropCleanPage(p);
      UncacheAside(old(st), p, false);
      return Freed;
    }

    // ---- swap_in_page

    method LoadFields(p: Page, e: Entry)
      requires Core(st) && AdoptPre(st, p, e, true)
      modifies this`st
      ensures e < |old(st).disk| && st == Adopt(old(st), p, e, true)
    {
      AdoptFacts(st, p, e, true);
      st := st.(free := st.free - {p});
      st := st.(data := st.data[p := st.disk[e]]);
      st := st.(index := st.index[p := e], cache := st.cache[e := p]);
      st := st.(hot := st.hot + {p}, active := st.active + [p]);
    }

    /** Find the page of a swap entry, or read it into page `q`; `readOk` is what swapfs_read answers. */
    method SwapInPage(e: Entry, q: Option<Page>, readOk: bool) returns (r: Code, p: Page)
      requires Valid() && 0 < e < |st.memMap| && st.memMap[e] != SWAP_UNUSED && (q.Some? ==> q.value in st.free)
      modifies this`st, this`log
      ensures Valid() && Same(old(st), st)
      ensures st.pte == old(st).pte && st.area == old(st).area && st.ref == old(st).ref && st.memMap == old(st).memMap
      ensures e in old(st).cache ==> st == old(st)
      ensures st.free == old(st).free - (if r == Ok && e !in old(st).cache then {p} else {})
      ensures r == Ok ==> e in st.cache && st.cache[e] == p && (e !in old(st).cache ==> q == Some(p))
      ensures r == if e in old(st).cache then Ok else if q == None then NoMem else if !readOk then SwapFault else Ok
    {
      CoreLegible(st);
      if e in st.cache {
        return Ok, st.cache[e];
      }
      if q == None {
        return NoMem, 0;
      }
      if !readOk {
        return SwapFault, 0;
      }
      p := q.value;
      ghost var s0 := st;
      FreeUncached(st, p);
      LoadFields(p, e);
      Commit(s0, Loaded(p, e));
      return Ok, p;
    }

    // ---- what a page fault can do to one entry

    /** page_insert where the entry is zero. */
    method InsertNew(sl: Slot, p: Page, w: bool)
      requires p in st.ref && sl !in st.pte
      modifies this`st
      ensures st == SetPte(old(st), sl, Some(Present(p, w, false, false)))
    {
      st := st.(free := st.free - {p});
      st := st.(ref := st.ref[p := st.ref[p] + 1]);
      st := st.(pte := st.pte[sl := Present(p, w, false, false)]);
    }

    /** page_insert of the page the entry names already: PTE_D is lost without a trace. */
    method InsertSame(sl: Slot)
      requires sl in st.pte && st.pte[sl].Present? && st.pte[sl].page in st.ref
      modifies this`st
      ensures st == Reuse(old(st), sl)
    {
      var p := st.pte[sl].page;
      st := st.(ref := st.ref[p := st.ref[p] + 1]);
      st := st.(ref := st.ref[p := st.ref[p] - 1]);
      assert st.ref == old(st).ref;
      st := st.(pte := st.pte[sl := Present(p, true, false, false)]);
    }

    /** page_insert where the entry names another page, which page_remove_pte lets go of. */
    method InsertOverPage(sl: Slot, p: Page, w: bool)
      requires p in st.ref && sl in st.pte && st.pte[sl].Present? && st.pte[sl].page != p && Counted(st, sl)
      modifies this`st
      ensures st == SetPte(old(st), sl, Some(Present(p, w, false, false)))
    {
      var q, d := st.pte[sl].page, st.pte[sl].d;
      st := st.(free := st.free - {p});
      st := st.(ref := st.ref[p := st.ref[p] + 1]);
      LetGo(q, d);
      st := st.(pte := st.pte[sl := Present(p, w, false, false)]);
    }

    /** The present half of page_remove_pte: one reference less, and PTE_D passed on to a cached page. */
    method LetGo(q: Page, d: bool)
      requires q in st.ref && st.ref[q] > 0
      modifies this`st
      ensures var gone := q !in old(st).index && old(st).ref[q] == 1;
        st == old(st).(ref := old(st).ref[q := old(st).ref[q] - 1],
                       dirty := if gone then old(st).dirty - {q}
                                else if d && q in old(st).index then old(st).dirty + {q} else old(st).dirty,
                       hot := if gone then old(st).hot - {q} else old(st).hot,
                       free := if gone then old(st).free + {q} else old(st).free)
    {
      st := st.(ref := st.ref[q := st.ref[q] - 1]);
      if q !in st.index {
        if st.ref[q] == 0 {
          FreePage(q);
        }
      } else if d {
        st := st.(dirty := st.dirty + {q});
      }
    }

    /** page_insert where the entry names a swap entry, and the swap_decrease that follows it. */
    method InsertOverSwap(sl: Slot, p: Page, w: bool)
      requires p in st.ref && sl in st.pte && st.pte[sl].Swapped? && Counted(st, sl)
      modifies this`st
      ensures st == SetPte(old(st), sl, Some(Present(p, w, false, false)))
    {
      var e := st.pte[sl].entry;
      st := st.(free := st.free - {p});
      st := st.(ref := st.ref[p := st.ref[p] + 1]);
      st := st.(pte := st.pte[sl := Present(p, w, false, false)]);
      st := st.(memMap := st.memMap[e := st.memMap[e] - 1]);
      if st.memMap[e] == 0 && e !in st.cache {
        st := st.(memMap := st.memMap[e := SWAP_UNUSED]);
      }
    }

    method RestoreFields(sl: Slot, w: bool)
      requires Core(st) && RestorePre(st, sl, w)
      modifies this`st
      ensures st == Restore(old(st), sl, w)
    {
      CoreCounts(st, sl);
      assert Holds(Cache, st);
      InsertOverSwap(sl, st.cache[st.pte[sl].entry], w);
    }

    method PointBack(sl: Slot, w: bool)
      requires Valid() && RestorePre(st, sl, w)
      modifies this`st, this`log
      ensures Valid() && Same(old(st), st) && st.area == old(st).area
      ensures st.pte == old(st).pte[sl := Present(old(st).cache[old(st).pte[sl].entry], w, false, false)]
    {
      ghost var s0 := st;
      RestoreFields(sl, w);
      Commit(s0, Restored(sl, w));
    }

    method CopyFields(sl: Slot, q: Page)
      requires Core(st) && CopyPre(st, sl, q)
      modifies this`st
      ensures st == Copy(old(st), sl, q)
    {
      CoreCounts(st, sl);
      FreeUncached(st, q);
      NotFree(st, sl, q);
      st := st.(data := st.data[q := Content(st, st.pte[sl])]);
      if st.pte[sl].Present? {
        InsertOverPage(sl, q, true);
      } else {
        InsertOverSwap(sl, q, true);
      }
    }

    /** Copy on write: memcpy to a new page and page_insert it, whatever the entry held before. */
    method CopyOnWrite(sl: Slot, q: Page)
      requires Valid() && CopyPre(st, sl, q)
      modifies this`st, this`log
      ensures Valid() && Same(old(st), st) && st.area == old(st).area
      ensures st.pte == old(st).pte[sl := Present(q, true, false, false)]
    {
      ghost var s0 := st;
      CopyFields(sl, q);
      Commit(s0, Copied(sl, q));
    }

    /** First access to private memory: the page comes from the allocator as it is. */
    method TouchPrivate(sl: Slot, q: Page)
      requires Valid() && Enabled(st, Touched(sl, q))
      modifies this`st, this`log
      ensures Valid() && Legible(old(st)) && Legible(st) && st.area == old(st).area
      ensures st.pte == old(st).pte[sl := Present(q, old(st).area[sl].write, false, false)]
      ensures PlainNext(View(old(st)), Touched(sl, q), View(st))
    {
      ghost var s0 := st;
      FreeUncached(st, q);
      InsertNew(sl, q, st.area[sl].write);
      Commit(s0, Touched(sl, q));
    }

    /** shmem_get_entry with create: a shared-memory page gets its first page. */
    method TouchShm(sh: Slot, q: Page)
      requires Valid() && Enabled(st, ShmTouched(sh, q))
      modifies this`st, this`log
      ensures Valid() && Legible(old(st)) && Legible(st) && st.area == old(st).area
      ensures st.pte == old(st).pte[sh := Present(q, false, false, false)]
      ensures PlainNext(View(old(st)), ShmTouched(sh, q), View(st))
    {
      ghost var s0 := st;
      FreeUncached(st, q);
      InsertNew(sh, q, false);
      Commit(s0, ShmTouched(sh, q));
    }

    /** page_insert of a shared-memory page into the address space that faulted on it. */
    method AttachShared(sl: Slot)
      requires Valid() && AttachPre(st, sl)
      modifies this`st, this`log
      ensures Valid() && Legible(old(st)) && Legible(st) && st.area == old(st).area
      ensures sl in st.pte && st.pte[sl].Present? && st.pte[sl].w == st.area[sl].write
      ensures PlainNext(View(old(st)), Attached(sl), View(st))
    {
      ghost var s0 := st;
      var x := st.pte[st.area[sl].shm];
      assert Holds(Naming, st) && Holds(Cache, st);
      InsertNew(sl, if x.Present? then x.page else st.cache[x.entry], st.area[sl].write);
      Commit(s0, Attached(sl));
    }

    /** The processor sets PTE_A and PTE_D and writes the page. */
    method StoreFields(sl: Slot, v: Data)
      requires sl in st.pte && st.pte[sl].Present?
      modifies this`st
      ensures st == Store(old(st), sl, v)
    {
      var p := st.pte[sl].page;
      st := st.(pte := st.pte[sl := Present(p, st.pte[sl].w, true, true)]);
      st := st.(data := st.data[p := v]);
    }

    /** A store that does not fault. */
    method StoreThrough(sl: Slot, v: Data)
      requires Valid() && Enabled(st, Stored(sl, v))
      modifies this`st, this`log
      ensures Valid() && Legible(old(st)) && Legible(st) && st.area == old(st).area && sl in st.pte
      ensures PlainNext(View(old(st)), Stored(sl, v), View(st))
    {
      ghost var s0 := st;
      StoreFields(sl, v);
      Commit(s0, Stored(sl, v));
    }

    method ReuseFields(sl: Slot, v: Data)
      requires ReusePre(st, sl)
      modifies this`st
      ensures st == ReuseStore(old(st), sl, v)
    {
      InsertSame(sl);
      StoreFields(sl, v);
    }

    /** A write fault on a page with one reference: the entry gets PTE_W, and the retried store marks it dirty. */
    method ReuseAndStore(sl: Slot, v: Data)
      requires Valid() && ReusePre(st, sl)
      modifies this`st, this`log
      ensures Valid() && Legible(old(st)) && Legible(st) && st.area == old(st).area && sl in st.pte
      ensures PlainNext(View(old(st)), Stored(sl, v), View(st))
    {
      ghost var s0 := st;
      ReuseFields(sl, v);
      Commit(s0, ReusedAndStored(sl, v));
    }

    // ---- do_page_fault, with the access it retries

    /** A fault on a zero entry of a shared area: create or find the shared-memory page, then map it. */
    method FaultOnShared(sl: Slot, q: Option<Page>, q2: Option<Page>, readOk: bool) returns (r: Code)
      requires Valid() && sl.User? && sl !in st.pte && sl in st.area && st.area[sl].Shared? && st.area[sl].shm.Shm?
      requires (q.Some? ==> q.value in st.free) && (q2.Some? ==> q2.value in st.free)
      modifies this`st, this`log
      ensures Valid() && Legible(old(st)) && Legible(st) && st.area == old(st).area
      ensures r == Ok ==> InPlace(st, sl) && st.pte[sl].w == st.area[sl].write
      ensures r != Inval && (r != Ok ==> Same(old(st), st))
      ensures r == Ok ==> Appeared(View(old(st)), View(st), sl)
      ensures r == Fetched(old(st), sl, false, q, q2, readOk)
    {
      r := BringShared(sl, q, q2, readOk);
      if r == Ok {
        ghost var mid := View(st);
        AttachShared(sl);
        SharedAppeared(View(old(st)), mid, View(st), sl, q);
      }
    }

    /** shmem_get_entry, and swap_in_page where the shared-memory page is out. */
    method BringShared(sl: Slot, q: Option<Page>, q2: Option<Page>, readOk: bool) returns (r: Code)
      requires Valid() && sl.User? && sl !in st.pte && sl in st.area && st.area[sl].Shared? && st.area[sl].shm.Shm?
      requires (q.Some? ==> q.value in st.free) && (q2.Some? ==> q2.value in st.free)
      modifies this`st, this`log
      ensures Valid() && Legible(old(st)) && Legible(st) && st.area == old(st).area
      ensures r != Inval && (r != Ok ==> Same(old(st), st))
      ensures r == Ok ==> AttachPre(st, sl)
      ensures r == Fetched(old(st), sl, false, q, q2, readOk)
      ensures r == Ok ==> View(st) == View(old(st)) ||
                          (q.Some? && PlainNext(View(old(st)), ShmTouched(st.area[sl].shm, q.value), View(st)))
    {
      CoreLegible(st);
      var sh := st.area[sl].shm;
      if sh !in st.pte {
        if q == None {
          return NoMem;
        }
        TouchShm(sh, q.value);
      } else if st.pte[sh].Swapped? {
        assert Holds(Naming, st);
        var e, p := st.pte[sh].entry, 0;
        r, p := SwapInPage(e, q2, readOk);
        return;
      }
      return Ok;
    }

    /** A fault on an entry that is zero. `q` is what alloc_page answers, `q2` and `readOk` serve swap_in_page. */
    method FaultOnEmpty(sl: Slot, q: Option<Page>, q2: Option<Page>, readOk: bool) returns (r: Code)
      requires Valid() && sl.User? && sl !in st.pte && sl in st.area
      requires (q.Some? ==> q.value in st.free) && (q2.Some? ==> q2.value in st.free)
      modifies this`st, this`log
      ensures Valid() && Legible(old(st)) && Legible(st) && st.area == old(st).area
      ensures r == Ok ==> InPlace(st, sl) && st.pte[sl].w == st.area[sl].write
      ensures r != Inval && (r != Ok ==> Same(old(st), st))
      ensures r == Ok ==> Appeared(View(old(st)), View(st), sl)
      ensures r == Fetched(old(st), sl, false, q, q2, readOk)
    {
      CoreLegible(st);
      if st.area[sl].Private? {
        if q == None {
          return NoMem;
        }
        TouchPrivate(sl, q.value);
        return Ok;
      }
      assert Holds(Shape, st);
      r := FaultOnShared(sl, q, q2, readOk);
    }

    /** A fault on an entry that names a swap entry. */
    method FaultOnSwapped(sl: Slot, write: bool, q: Option<Page>, q2: Option<Page>, readOk: bool)
      returns (r: Code, done: bool)
      requires Valid() && sl.User? && sl in st.pte && st.pte[sl].Swapped? && sl in st.area
      requires write ==> st.area[sl].write
      requires (q.Some? ==> q.value in st.free) && (q2.Some? ==> q2.value in st.free) && (q.Some? ==> q != q2)
      modifies this`st, this`log
      ensures Valid() && Same(old(st), st) && st.area == old(st).area
      ensures r != Inval && (done ==> r == Ok && InPlace(st, sl) && (write ==> st.pte[sl].w))
      ensures r == Fetched(old(st), sl, write, q, q2, readOk)
      ensures r == Ok && !done <==> Stalls(old(st), sl, write, q, q2, readOk)
    {
      CoreLegible(st);
      assert Holds(Naming, st);
      var e, p := st.pte[sl].entry, 0;
      if q2.Some? {
        FreeUnnamed(st, q2.value);
      }
      r, p := SwapInPage(e, q2, readOk);
      if r != Ok {
        return r, false;
      }
      SwappedPage(st, sl);
      var cow := st.area[sl].Private? && st.area[sl].write;
      if cow && write {
        if st.ref[p] + st.memMap[e] > 1 {
          if q == None {
            return Ok, false;
          }
          CopyOnWrite(sl, q.value);
        } else {
          PointBack(sl, true);
        }
      } else {
        PointBack(sl, st.area[sl].write && !cow);
      }
      return Ok, true;
    }

    /** A write fault on a present entry without PTE_W; the retried store of `v` is part of the step. */
    method FaultOnProtected(sl: Slot, v: Data, q: Option<Page>) returns (r: Code)
      requires Valid() && sl.User? && InPlace(st, sl) && !st.pte[sl].w && sl in st.area && st.area[sl].write
      requires q.Some? ==> q.value in st.free
      modifies this`st, this`log
      ensures Valid() && Legible(old(st)) && Legible(st) && st.area == old(st).area
      ensures r == Ok ==> sl in st.pte && PlainNext(View(old(st)), Stored(sl, v), View(st))
      ensures r != Ok ==> Same(old(st), st)
      ensures r == Fetched(old(st), sl, true, q, None, false)
    {
      ProtectedIsPrivate(st, sl);
      CoreLegible(st);
      var p := st.pte[sl].page;
      var weight := st.ref[p] + if p in st.index then st.memMap[st.index[p]] else 0;
      if weight > 1 {
        if q == None {
          return NoMem;
        }
        CopyOnWrite(sl, q.value);
        StoreThrough(sl, v);
      } else {
        ReuseAndStore(sl, v);
      }
      return Ok;
    }

    /** do_page_fault and the access it retries, on an address with no usable entry or one the processor refused.
        `guard` is whether the address lies in the first page of a stack area, `readable` whether the area has VM_READ or
        VM_EXEC, and `table` whether get_pte finds or makes a page table. */
    method DoPageFault(sl: Slot, write: bool, v: Data, guard: bool, readable: bool, table: bool,
                       q: Option<Page>, q2: Option<Page>, readOk: bool)
      returns (r: Code, done: bool)
      requires Valid() && sl.User? && !(write && InPlace(st, sl) && st.pte[sl].w)
      requires (q.Some? ==> q.value in st.free) && (q2.Some? ==> q2.value in st.free) && (q.Some? ==> q != q2)
      modifies this`st, this`log
      ensures Valid() && Legible(old(st)) && Legible(st) && st.area == old(st).area
      ensures r == Inval <==>
        || sl !in old(st).area || guard
        || (if write then !old(st).area[sl].write else !readable || InPlace(old(st), sl))
      ensures r != Inval ==> r == if table then Fetched(old(st), sl, write, q, q2, readOk) else NoMem
      ensures done <==> r == Ok && !Stalls(old(st), sl, write, q, q2, readOk)
      ensures !done ==> Same(old(st), st)
      ensures r != Inval && table && q.Some? && q2.Some? && readOk ==> done
      ensures done ==> r == Ok && sl in st.pte && Accessed(View(old(st)), View(st), sl, if write then Some(v) else None)
    {
      CoreLegible(st);
      if sl !in st.area || guard {
        return Inval, false;
      }
      if write {
        if !st.area[sl].write {
          return Inval, false;
        }
      } else if InPlace(st, sl) || !readable {
        return Inval, false;
      }
      if !table {
        return NoMem, false;
      }
      r, done := Resolve(sl, write, v, q, q2, readOk);
    }

    /** The part of do_page_fault after the checks, with the retried access. */
    method Resolve(sl: Slot, write: bool, v: Data, q: Option<Page>, q2: Option<Page>, readOk: bool)
      returns (r: Code, done: bool)
      requires Valid() && sl.User? && !(InPlace(st, sl) && (write ==> st.pte[sl].w))
      requires sl in st.area && (write ==> st.area[sl].write)
      requires (q.Some? ==> q.value in st.free) && (q2.Some? ==> q2.value in st.free) && (q.Some? ==> q != q2)
      modifies this`st, this`log
      ensures Valid() && Legible(old(st)) && Legible(st) && st.area == old(st).area
      ensures r != Inval && (!done ==> Same(old(st), st))
      ensures r == Fetched(old(st), sl, write, q, q2, readOk)
      ensures done <==> r == Ok && !Stalls(old(st), sl, write, q, q2, readOk)
      ensures done ==> r == Ok && sl in st.pte && Accessed(View(old(st)), View(st), sl, if write then Some(v) else None)
    {
      CoreLegible(st);
      if sl in st.pte && st.pte[sl].Present? {
        r := FaultOnProtected(sl, v, q);
        if r == Ok {
          AccessedBy(View(old(st)), View(old(st)), View(st), sl, Some(v));
        }
        return r, r == Ok;
      }
      if sl !in st.pte {
        r := FaultOnEmpty(sl, q, q2, readOk);
        done := r == Ok;
      } else {
        r, done := FaultOnSwapped(sl, write, q, q2, readOk);
      }
      ghost var mid := View(st);
      if done && write {
        StoreThrough(sl, v);
      }
      if done {
        AccessedBy(View(old(st)), mid, View(st), sl, if write then Some(v) else None);
      }
    }

    // ---- fork

    /** The parent's private entry loses PTE_W; the child's entry names the same page or swap entry. */
    method ForkFields(sl: Slot, child: Slot)
      requires Core(st) && ForkPre(st, sl, child)
      modifies this`st
      ensures st == Fork(old(st), sl, child)
    {
      CoreCounts(st, sl);
      match st.pte[sl]
      case Present(p, w, a, d) =>
        var keep := w && st.area[sl].Shared?;
        if w && st.area[sl].Private? {
          st := st.(pte := st.pte[sl := Present(p, false, a, d)]);
        }
        assert Holds(Naming, old(st));
        InsertNew(child, p, keep);
      case Swapped(e) =>
        st := st.(memMap := st.memMap[e := st.memMap[e] + 1]);
        st := st.(pte := st.pte[child := Swapped(e)]);
    }

    /** copy_range on one entry. */
    method ForkEntry(sl: Slot, child: Slot)
      requires Valid() && ForkPre(st, sl, child)
      modifies this`st, this`log
      ensures Valid() && Legible(old(st)) && Legible(st) && st.area == old(st).area
      ensures PlainNext(View(old(st)), Forked(sl, child), View(st))
    {
      ghost var s0 := st;
      ForkFields(sl, child);
      Commit(s0, Forked(sl, child));
    }

    /** copy_range over pages `start` to `end`; `noTable` are the pages for which get_pte finds no memory. */
    method CopyRange(from: nat, to: nat, start: nat, end: nat, noTable: set<nat>)
      returns (r: Code, panicked: bool, ghost n: nat)
      requires Valid() && from != to && start < end && forall v :: start <= v < end ==> Forkable(st, from, to, v)
      modifies this`st, this`log
      ensures Valid() && Legible(old(st)) && Legible(st) && st.area == old(st).area
      ensures (r == Ok || r == NoMem) && (panicked ==> r == Ok && !Absent(st.memMap, MAX_SWAP_REF))
      ensures start <= n <= end && Duplicated(View(old(st)).mem, View(st).mem, from, to, start, n)
      ensures r == Ok && !panicked <==> n == end
      ensures r == NoMem <==> !panicked && exists v :: start <= v < end && v in Lacking(old(st), from, noTable)
      ensures r == NoMem ==> n in Lacking(old(st), from, noTable)
      ensures forall v :: start <= v < n ==> v !in Lacking(old(st), from, noTable)
    {
      r, panicked, n := CopyPages(from, to, start, end, noTable, Lacking(st, from, noTable));
      CopyingIs(old(st), st, from, to, start, n);
    }

    method CopyPages(from: nat, to: nat, start: nat, end: nat, noTable: set<nat>, ghost lack: set<nat>)
      returns (r: Code, panicked: bool, ghost n: nat)
      requires Valid() && from != to && start < end && lack == Lacking(st, from, noTable)
      requires forall v :: start <= v < end ==> Forkable(st, from, to, v)
      modifies this`st, this`log
      ensures Valid() && Copying(old(st), st, from, to, start, n)
      ensures (r == Ok || r == NoMem) && (panicked ==> r == Ok && !Absent(st.memMap, MAX_SWAP_REF))
      ensures start <= n <= end && (r == Ok && !panicked <==> n == end) && (r == NoMem ==> n in lack)
      ensures forall v :: start <= v < n ==> v !in lack
    {
      r, panicked, n := Ok, false, start;
      CopyStarts(st, from, to, start);
      var v := start;
      while v < end
        invariant start <= v <= end && n == v && Valid() && r == Ok && !panicked
        invariant Copying(old(st), st, from, to, start, v)
        invariant forall u :: start <= u < v ==> u !in lack
      {
        r, panicked := CopyNext(from, to, start, v, noTable, lack, old(st));
        if r != Ok || panicked {
          return;
        }
        v := v + 1;
        n := v;
      }
    }

    /** One page of it. */
    method CopyNext(from: nat, to: nat, start: nat, v: nat, noTable: set<nat>, ghost lack: set<nat>, ghost s0: State)
      returns (r: Code, panicked: bool)
      requires Valid() && from != to && start <= v && lack == Lacking(s0, from, noTable)
      requires Copying(s0, st, from, to, start, v) && Forkable(s0, from, to, v)
      modifies this`st, this`log
      ensures Valid() && (r == NoMem <==> v in lack)
      ensures (r == Ok || r == NoMem) && (panicked ==> r == Ok && !Absent(st.memMap, MAX_SWAP_REF))
      ensures r == Ok && !panicked ==> Copying(s0, st, from, to, start, v + 1)
      ensures r != Ok || panicked ==> st == old(st)
    {
      CopyingIs(s0, st, from, to, start, v);
      ghost var m := View(st).mem;
      if User(from, v) in st.pte {
        DuplicateOf(View(s0).mem, m, from, to, start, v);
        if v in noTable {
          return NoMem, false;
        }
        ForkReady(st, s0, from, to, start, v);
        if st.pte[User(from, v)].Swapped? && st.memMap[st.pte[User(from, v)].entry] >= MAX_SWAP_REF {
          LimitReached(st, st.pte[User(from, v)].entry);
          return Ok, true;
        }
        ForkEntry(User(from, v), User(to, v));
      }
      DuplicateNext(View(s0).mem, m, View(st).mem, from, to, start, v);
      CopyingIs(s0, st, from, to, start, v + 1);
      return Ok, false;
    }

    // ---- pmm.c: clearing an entry

    /** page_remove_pte on a present entry. */
    method RemovePresent(sl: Slot)
      requires Core(st) && sl in st.pte && st.pte[sl].Present?
      modifies this`st
      ensures st == Drop(old(st), sl)
    {
      var p, d := st.pte[sl].page, st.pte[sl].d;
      DropPresentShape(st, sl);
      LetGo(p, d);
      st := st.(pte := st.pte - {sl});
    }

    /** page_remove_pte on a swapped-out entry, up to the freeing of a page that nobody is left to name. */
    method RemoveSwapped(sl: Slot)
      requires Core(st) && sl in st.pte && st.pte[sl].Swapped?
      modifies this`st
      ensures st == Drop(old(st), sl)
    {
      var e := st.pte[sl].entry;
      DropSwappedShape(st, sl);
      st := st.(memMap := st.memMap[e := st.memMap[e] - 1]);
      if st.memMap[e] == 0 && e !in st.cache {
        st := st.(memMap := st.memMap[e := SWAP_UNUSED]);
      }
      st := st.(pte := st.pte - {sl});
    }

    /** page_remove_pte and shmem_remove_entry_pte: the slot is unmapped, nothing else a program sees changes. */
    method PageRemovePte(sl: Slot)
      requires Valid() && DropPre(st, sl)
      modifies this`st, this`log
      ensures Valid() && Legible(old(st)) && Legible(st)
      ensures st.pte == old(st).pte - {sl} && st.area == old(st).area
      ensures View(st) == View(old(st)).(mem := View(old(st)).mem - {sl})
      ensures old(st).pte[sl].Swapped? ==>
                var e := old(st).pte[sl].entry;
                0 < e < |st.memMap| && (st.memMap[e] == 0 ==> e in st.cache && st.cache[e] in st.ref && st.ref[st.cache[e]] != 0)
    {
      var x := st.pte[sl];
      ClearEntry(sl);
      if x.Swapped? {
        assert Holds(Cache, st);
        if st.memMap[x.entry] == 0 && st.ref[st.cache[x.entry]] == 0 {
          NotInFlight(st, x.entry);
          Discard(st.cache[x.entry]);
        }
      }
    }

    method ClearEntry(sl: Slot)
      requires Valid() && DropPre(st, sl)
      modifies this`st, this`log
      ensures Valid() && Legible(old(st)) && Legible(st)
      ensures st.pte == old(st).pte - {sl} && st.area == old(st).area
      ensures View(st) == View(old(st)).(mem := View(old(st)).mem - {sl})
      ensures old(st).pte[sl].Swapped? ==> 0 < old(st).pte[sl].entry < |st.memMap|
    {
      ghost var s0 := st;
      CoreCounts(st, sl);
      ClearFields(sl);
      Commit(s0, Cleared(sl));
    }

    method ClearFields(sl: Slot)
      requires Core(st) && sl in st.pte
      modifies this`st
      ensures st == Drop(old(st), sl)
    {
      if st.pte[sl].Present? {
        RemovePresent(sl);
      } else {
        RemoveSwapped(sl);
      }
    }

    /** page_launder: every inactive page is freed, reactivated or, when its write fails, kept. `bad` are the failing writes. */
    method PageLaunder(bad: set<Page>) returns (count: nat, panicked: bool)
      requires Valid() && st.laundering == None
      modifies this`st, this`log
      ensures Valid() && Same(old(st), st) && st.laundering == None && st.pte == old(st).pte && st.ref == old(st).ref
      ensures !panicked ==> st.active == old(st).active + Pick(old(st).inactive, old(st).ref, true)
      ensures !panicked ==> forall p :: p in old(st).inactive ==>
        && p in st.ref && p in old(st).index && old(st).index[p] < |old(st).memMap|
        && if st.ref[p] != 0 then p in st.active && p in st.index
           else if old(st).memMap[old(st).index[p]] == 0 || p !in old(st).dirty || p !in bad then p in st.free && p !in st.index
           else p in st.inactive && p in st.index && p in st.dirty
      ensures !panicked ==> forall p :: p in st.inactive ==> p in old(st).inactive && p in bad
      ensures !panicked ==> count + |st.inactive| + (|st.active| - |old(st).active|) == |old(st).inactive|
      ensures panicked <==> exists p :: p in old(st).inactive && Brimming(old(st), p)
      ensures panicked ==> !Absent(st.memMap, MAX_SWAP_REF)
    {
      var todo := st.inactive;
      count, panicked := 0, false;
      CoreLegible(st);
      ghost var kept: seq<Page> := [];
      LaunderStart(st, bad);
      var i := 0;
      while i < |todo|
        invariant 0 <= i <= |todo| && Valid() && Same(old(st), st) && st.laundering == None && st.pte == old(st).pte
        invariant Laundered(old(st), st, bad, i, kept)
        invariant count + |kept| + (|st.active| - |old(st).active|) == i
      {
        var fate;
        fate, kept := LaunderRound(todo[i], bad, old(st), i, kept);
        if fate == Panicked {
          return count, true;
        }
        if fate == Freed {
          count := count + 1;
        }
        i := i + 1;
      }
      LaunderEndIs(old(st), st, bad, kept);
    }

    /** The round of page `i` of the list that page_launder, begun in state s0, has saved. */
    method LaunderRound(p: Page, bad: set<Page>, ghost s0: State, ghost i: nat, ghost kept: seq<Page>)
      returns (fate: Fate, ghost kept': seq<Page>)
      requires Valid() && Core(s0) && st.laundering == None && i < |s0.inactive| && p == s0.inactive[i]
      requires Laundered(s0, st, bad, i, kept)
      modifies this`st, this`log
      ensures Valid() && Same(old(st), st) && st.laundering == None && st.pte == old(st).pte && st.ref == s0.ref
      ensures fate == Panicked ==> Brimming(s0, p) && !Absent(st.memMap, MAX_SWAP_REF)
      ensures fate != Panicked ==> Laundered(s0, st, bad, i + 1, kept')
      ensures |st.active| == |old(st).active| + (if fate == Activated then 1 else 0)
      ensures |kept'| == |kept| + (if fate == Kept then 1 else 0)
    {
      LaunderHead(s0, st, bad, i, kept);
      fate := LaunderOne(p, p !in bad);
      kept' := if fate == Kept then kept + [p] else kept;
      if fate == Panicked {
        PageLimit(st, p);
        LaunderStops(s0, st, bad, i, kept);
      } else {
        LaunderNext(s0, old(st), st, bad, i, kept, fate, i + 1, kept');
      }
    }

    method WriteOut(p: Page, ok: bool) returns (fate: Fate)
      requires Valid() && PinPre(st, p)
      modifies this`st, this`log
      ensures Valid() && Same(old(st), st) && st.laundering == None
      ensures fate == if ok then Freed else Kept
      ensures Settled(old(st), st, p, fate)
      ensures Aside(old(st), st, p) && (!ok ==> Undisturbed(old(st), st, p))
    {
      LaunderBegin(p);
      WritingHolds(st);
      var v := if ok then st.data[p] else st.disk[st.index[p]];
      LaunderWrite(v);
      LaunderEnd(ok);
      WrittenOut(old(st), p, v, ok, st);
      WrittenAside(old(st), p, v, ok, st);
      if !ok {
        return Kept;
      }
      ghost var s1 := st;
      DropCleanPage(p);
      UncacheAside(s1, p, false);
      AsideTwice(old(st), s1, st, p);
      return Freed;
    }
  }

  lemma WrittenOut(s: State, p: Page, v: Data, ok: bool, t: State)
    requires Core(s) && PinPre(s, p) && Writing(PinDown(s, p)) && t == Unpin(Transfer(PinDown(s, p), v), ok)
    ensures t.pte == s.pte && t.area == s.area && t.ref == s.ref && t.index == s.index && t.active == s.active
    ensures t.inactive == Without(s.inactive, p) + [p] && t.laundering == None
    ensures ok ==> UncachePre(t, p, false)
    ensures !ok ==> p in t.dirty
    ensures Without(t.inactive, p) == Without(s.inactive, p) && Without(t.active, p) == s.active
  {
    assert Holds(Lists, s);
    WithoutAll(s.inactive, p);
    WithoutMiddle(Without(s.inactive, p), p, []);
    assert Without(s.inactive, p) + ([p] + []) == Without(s.inactive, p) + [p];
    WithoutAbsent(s.active, p);
  }

  /** The swap map is as long as the disk, and no step changes that. */
  lemma ApplyLength(s: State, step: Step)
    requires Core(s) && Enabled(s, step) && Core(Apply(s, step))
    ensures |Apply(s, step).memMap| == |s.memMap|
  {
    assert Holds(Shape, s) && Holds(Shape, Apply(s, step));
    DiskLength(s, step);
  }

  lemma DiskLength(s: State, step: Step)
    requires Core(s) && Enabled(s, step)
    ensures |Apply(s, step).disk| == |s.disk|
  {
    CoreReads(s, step);
  }

  lemma NotFree(s: State, sl: Slot, q: Page)
    requires Core(s) && sl in s.pte && q in s.free
    ensures s.pte[sl].Present? ==> s.pte[sl].page != q
  {
    assert Holds(Naming, s);
  }

  lemma FreeUncached(s: State, q: Page)
    requires Core(s) && q in s.free
    ensures q in s.ref && q !in s.index
  {
    assert Holds(Shape, s) && Holds(Cache, s);
  }

  lemma DropPresentShape(s: State, sl: Slot)
    requires Core(s) && sl in s.pte && s.pte[sl].Present?
    ensures var p := s.pte[sl].page;
            && p in s.ref && s.ref[p] > 0
            && var gone := p !in s.index && s.ref[p] == 1;
            Drop(s, sl) == s.(pte := s.pte - {sl}, ref := s.ref[p := s.ref[p] - 1],
                              dirty := if gone then s.dirty - {p}
                                       else if s.pte[sl].d && p in s.index then s.dirty + {p} else s.dirty,
                              hot := if gone then s.hot - {p} else s.hot,
                              free := if gone then s.free + {p} else s.free)
  {
    CoreCounts(s, sl);
  }

  lemma DropSwappedShape(s: State, sl: Slot)
    requires Core(s) && sl in s.pte && s.pte[sl].Swapped?
    ensures var e := s.pte[sl].entry;
            && 0 < e < |s.memMap| && 0 < s.memMap[e] <= MAX_SWAP_REF
            && Drop(s, sl) == s.(pte := s.pte - {sl},
                                 memMap := s.memMap[e := if s.memMap[e] == 1 && e !in s.cache then SWAP_UNUSED
                                                         else s.memMap[e] - 1])
  {
    CoreCounts(s, sl);
  }

  predicate InPlace(s: State, sl: Slot) {
    sl in s.pte && s.pte[sl].Present?
  }

  /** A slot appeared in plain memory; all that was there before is as it was. */
  ghost predicate Appeared(m: Plain, m': Plain, sl: Slot) {
    && m'.area == m.area && sl in m'.mem && (forall y :: y in m.mem ==> y in m'.mem && m'.mem[y] == m.mem[y])
    && (sl in m.area && m.area[sl].Shared? ==> m.area[sl].shm in m'.mem && m'.mem[sl] == m'.mem[m.area[sl].shm])
  }

  lemma SharedAppeared(m: Plain, mid: Plain, m': Plain, sl: Slot, q: Option<Page>)
    requires sl.User? && sl !in m.mem && sl in m.area && m.area[sl].Shared? && m.area[sl].shm.Shm?
    requires mid == m || (q.Some? && PlainNext(m, ShmTouched(m.area[sl].shm, q.value), mid))
    requires PlainNext(mid, Attached(sl), m')
    ensures Appeared(m, m', sl)
  {
  }

  /** An access through one slot: the slot may appear, and a store reaches exactly the slots that must see it. */
  ghost predicate Accessed(m: Plain, m': Plain, sl: Slot, store: Option<Data>) {
    exists mid: Plain ::
      && (if sl in m.mem then mid == m else Appeared(m, mid, sl))
      && m' == match store case None => mid case Some(v) => mid.(mem := StoreMem(mid.mem, mid.area, sl, v))
  }

  lemma AccessedBy(m: Plain, mid: Plain, m': Plain, sl: Slot, store: Option<Data>)
    requires if sl in m.mem then mid == m else Appeared(m, mid, sl)
    requires m' == match store case None => mid case Some(v) => mid.(mem := StoreMem(mid.mem, mid.area, sl, v))
    ensures Accessed(m, m', sl, store)
  {}

  /** After a store the slot reads the new bytes, and so does whatever shares them with it, and nothing else changes. */
  lemma AccessedMeans(m: Plain, m': Plain, sl: Slot, v: Data)
    requires sl.User? && Accessed(m, m', sl, Some(v))
    ensures m'.area == m.area && sl in m'.mem && m'.mem[sl] == v
    ensures forall y: Slot :: y in m.mem && y != sl ==>
      && y in m'.mem
      && m'.mem[y] == if sl in m.area && m.area[sl].Shared?
                         && (if y.Shm? then y == m.area[sl].shm else y in m.area && m.area[y].Shared? && m.area[y].shm == m.area[sl].shm)
                      then v else m.mem[y]
  {
    var mid: Plain :|
      && (if sl in m.mem then mid == m else Appeared(m, mid, sl))
      && m' == mid.(mem := StoreMem(mid.mem, mid.area, sl, v));
  }

  /** Only private memory is ever write-protected against its area: the assertion of do_page_fault cannot fail. */
  lemma ProtectedIsPrivate(s: State, sl: Slot)
    requires Core(s) && sl.User? && InPlace(s, sl) && !s.pte[sl].w && sl in s.area && s.area[sl].write
    ensures s.area[sl].Private? && s.pte[sl].page in s.ref && Readable(s, s.pte[sl])
    ensures s.ref[s.pte[sl].page] > 0
    ensures s.pte[sl].page in s.index ==> s.index[s.pte[sl].page] < |s.memMap|
  {
    CoreCounts(s, sl);
    CoreLegible(s);
    assert Holds(Perms, s) && Holds(Cache, s);
  }

  /** The pages that have an entry to copy and whose table in the child cannot be made. */
  ghost function Lacking(s: State, from: nat, noTable: set<nat>): set<nat> {
    set v | v in noTable && User(from, v) in s.pte
  }

  /** Pages `start` to `n` of one address space now stand a second time, with the same bytes, in the other. */
  ghost predicate Duplicated(m: map<Slot, Data>, m': map<Slot, Data>, from: nat, to: nat, start: nat, n: nat) {
    && (forall y :: y in m ==> y in m' && m'[y] == m[y])
    && (forall v :: start <= v < n && User(from, v) in m ==> User(to, v) in m' && m'[User(to, v)] == m[User(from, v)])
    && (forall y :: y in m' && y !in m ==> y.User? && y.mm == to && start <= y.vpn < n && User(from, y.vpn) in m)
  }

  /** The child has the area of the page and no entry yet. */
  predicate Forkable(s: State, from: nat, to: nat, v: nat) {
    && User(to, v) !in s.pte
    && (User(from, v) in s.area ==> User(to, v) in s.area && s.area[User(to, v)] == s.area[User(from, v)])
  }

  datatype CopyPart = CopyAreas | CopyBytes

  ghost predicate CopyingIn(part: CopyPart, s0: State, s: State, from: nat, to: nat, start: nat, n: nat) {
    && Legible(s0) && Legible(s)
    && match part
       case CopyAreas => s.area == s0.area
       case CopyBytes => Duplicated(View(s0).mem, View(s).mem, from, to, start, n)
  }

  /** copy_range has done the pages up to `n`. */
  ghost predicate Copying(s0: State, s: State, from: nat, to: nat, start: nat, n: nat) {
    forall part :: CopyingIn(part, s0, s, from, to, start, n)
  }

  lemma CopyingIs(s0: State, s: State, from: nat, to: nat, start: nat, n: nat)
    ensures Copying(s0, s, from, to, start, n) <==>
      Legible(s0) && Legible(s) && s.area == s0.area && Duplicated(View(s0).mem, View(s).mem, from, to, start, n)
  {
    if Copying(s0, s, from, to, start, n) {
      assert CopyingIn(CopyAreas, s0, s, from, to, start, n) && CopyingIn(CopyBytes, s0, s, from, to, start, n);
    }
    if Legible(s0) && Legible(s) && s.area == s0.area && Duplicated(View(s0).mem, View(s).mem, from, to, start, n) {
      forall part
        ensures CopyingIn(part, s0, s, from, to, start, n)
      {
        match part
        case CopyAreas =>
        case CopyBytes =>
      }
    }
  }

  lemma CopyStarts(s: State, from: nat, to: nat, start: nat)
    requires Core(s)
    ensures Copying(s, s, from, to, start, start)
  {
    CoreLegible(s);
    CopyingIs(s, s, from, to, start, start);
  }

  lemma DuplicateOf(m: map<Slot, Data>, m': map<Slot, Data>, from: nat, to: nat, start: nat, v: nat)
    requires Duplicated(m, m', from, to, start, v) && from != to && User(from, v) in m'
    ensures User(from, v) in m
  {}

  lemma DuplicateNext(m: map<Slot, Data>, m1: map<Slot, Data>, m2: map<Slot, Data>, from: nat, to: nat, start: nat, v: nat)
    requires Duplicated(m, m1, from, to, start, v) && from != to && start <= v && User(to, v) !in m
    requires User(from, v) in m1 ==> m2 == m1[User(to, v) := m1[User(from, v)]]
    requires User(from, v) !in m1 ==> m2 == m1
    ensures Duplicated(m, m2, from, to, start, v + 1)
  {}

  lemma ForkReady(s: State, s0: State, from: nat, to: nat, start: nat, v: nat)
    requires Core(s) && Legible(s) && Legible(s0) && s.area == s0.area && from != to && start <= v
    requires Duplicated(View(s0).mem, View(s).mem, from, to, start, v)
    requires User(from, v) in s.pte && User(to, v) !in s0.pte
    requires User(from, v) in s0.area ==> User(to, v) in s0.area && s0.area[User(to, v)] == s0.area[User(from, v)]
    ensures User(to, v) !in s.pte && User(from, v) in s.area && User(to, v) in s.area
    ensures s.area[User(to, v)] == s.area[User(from, v)]
    ensures s.pte[User(from, v)].Swapped? ==>
      0 < s.pte[User(from, v)].entry < |s.memMap| && s.memMap[s.pte[User(from, v)].entry] != SWAP_UNUSED
  {
    assert Holds(Sharing, s) && Holds(Naming, s);
    assert User(from, v) in ObjMap(s.pte, s.index);
    assert View(s).mem.Keys == s.pte.Keys && View(s0).mem.Keys == s0.pte.Keys;
  }

  lemma SwappedPage(s: State, sl: Slot)
    requires Core(s) && sl in s.pte && s.pte[sl].Swapped? && s.pte[sl].entry in s.cache && sl in s.area
    ensures var e := s.pte[sl].entry;
            var p := s.cache[e];
            p in s.ref && p in s.index && s.index[p] == e && 0 < e < |s.memMap| && s.memMap[e] > 0
    ensures Readable(s, s.pte[sl])
  {
    CoreCounts(s, sl);
    CoreLegible(s);
    assert Holds(Cache, s);
  }

  datatype Fate = Freed | Activated | Kept | Panicked

  /** What page_launder does with one page. */
  function FateOf(s: State, p: Page, ok: bool): Fate
    requires p in s.ref && p in s.index && s.index[p] < |s.memMap|
  {
    if s.ref[p] != 0 then Activated
    else if s.memMap[s.index[p]] == 0 || p !in s.dirty then Freed
    else if s.memMap[s.index[p]] >= MAX_SWAP_REF then Panicked
    else if ok then Freed
    else Kept
  }

  /** The lists, the allocator and the flags after one round. */
  ghost predicate Settled(s: State, t: State, p: Page, fate: Fate) {
    && t.pte == s.pte && t.area == s.area && t.ref == s.ref
    && match fate
       case Panicked => t == s
       case Activated => t.inactive == Without(s.inactive, p) && t.active == s.active + [p] && p in t.index
       case Kept => t.inactive == Without(s.inactive, p) + [p] && p in t.index && p in t.dirty && t.active == s.active
       case Freed => t.inactive == Without(s.inactive, p) && p in t.free && p !in t.index && t.active == s.active
  }

  /** What page_launder reads of a page is as it was. */
  ghost predicate Undisturbed(s: State, t: State, q: Page) {
    && q in s.index && q in t.index && t.index[q] == s.index[q] < |s.memMap| == |t.memMap|
    && t.memMap[s.index[q]] == s.memMap[s.index[q]] && (q in t.dirty <==> q in s.dirty)
  }

  /** The round of `p` leaves every other cached page and every free page alone. */
  ghost predicate Aside(s: State, t: State, p: Page) {
    && (forall q :: Undisturbed(s, s, q) && q != p ==> Undisturbed(s, t, q))
    && (forall q :: q in s.free && q !in s.index ==> q in t.free && q !in t.index)
  }

  lemma MoveAside(s: State, p: Page, hot: bool)
    requires Core(s) && p in s.index && s.index[p] < |s.memMap|
    ensures Aside(s, Move(s, p, hot), p) && Undisturbed(s, Move(s, p, hot), p)
  {
  }

  lemma UncacheAside(s: State, p: Page, unused: bool)
    requires Core(s) && UncachePre(s, p, unused)
    ensures Aside(s, Uncache(s, p, unused), p)
  {
    assert Holds(Cache, s);
  }

  lemma WrittenAside(s: State, p: Page, v: Data, ok: bool, t: State)
    requires Core(s) && PinPre(s, p) && Writing(PinDown(s, p)) && t == Unpin(Transfer(PinDown(s, p), v), ok)
    ensures Aside(s, t, p) && (!ok ==> Undisturbed(s, t, p))
  {
    assert Holds(Cache, s);
  }

  lemma AsideTwice(s: State, t: State, u: State, p: Page)
    requires Aside(s, t, p) && Aside(t, u, p)
    ensures Aside(s, u, p)
  {
    forall q | Undisturbed(s, s, q) && q != p ensures Undisturbed(s, u, q) {
      assert Undisturbed(s, t, q) && Undisturbed(t, t, q) && Undisturbed(t, u, q);
    }
  }

  datatype LaunderPart = Queues | Standing | Finished

  /** Unmapped, to be written, and its entry has no room for the pin. */
  ghost predicate Brimming(s: State, q: Page) {
    && q in s.ref && s.ref[q] == 0 && q in s.dirty
    && q in s.index && s.index[q] < |s.memMap| && s.memMap[s.index[q]] >= MAX_SWAP_REF
  }

  /** Unmapped, and nobody names it, the disk has its bytes, or its write succeeds. */
  ghost predicate Frees(s: State, bad: set<Page>, q: Page) {
    && Undisturbed(s, s, q) && q in s.ref && s.ref[q] == 0
    && (s.memMap[s.index[q]] == 0 || q !in s.dirty || q !in bad)
  }

  /** page_launder after `i` pages: where the lists stand, what has not changed and what is gone. */
  ghost predicate LaunderedIn(part: LaunderPart, s0: State, t: State, bad: set<Page>, i: nat, kept: seq<Page>) {
    i <= |s0.inactive| &&
    match part
    case Queues =>
      && t.ref == s0.ref && t.inactive == s0.inactive[i..] + kept
      && t.active == s0.active + Pick(s0.inactive[..i], s0.ref, true)
    case Standing =>
      forall q :: q in s0.inactive && (q in s0.inactive[i..] || !Frees(s0, bad, q)) ==> q in s0.ref && Undisturbed(s0, t, q)
    case Finished =>
      && (forall q :: q in s0.inactive[..i] && Frees(s0, bad, q) ==> q in t.free && q !in t.index)
      && (forall q :: q in s0.inactive[..i] ==> !Brimming(s0, q))
      && (forall q :: q in kept <==> q in s0.inactive[..i] && !Frees(s0, bad, q) && q in s0.ref && s0.ref[q] == 0)
  }

  ghost predicate Laundered(s0: State, t: State, bad: set<Page>, i: nat, kept: seq<Page>) {
    forall part :: LaunderedIn(part, s0, t, bad, i, kept)
  }

  lemma LaunderStart(s: State, bad: set<Page>)
    requires Core(s)
    ensures Laundered(s, s, bad, 0, [])
  {
    assert s.inactive[0..] == s.inactive;
    forall q | q in s.inactive ensures q in s.ref && Undisturbed(s, s, q) {
      InactivePage(s, q);
    }
  }

  lemma LaunderStops(s0: State, t: State, bad: set<Page>, i: nat, kept: seq<Page>)
    requires i < |s0.inactive| && Laundered(s0, t, bad, i, kept)
    requires Brimming(t, s0.inactive[i])
    ensures t.ref == s0.ref && Brimming(s0, s0.inactive[i])
  {
    assert LaunderedIn(Queues, s0, t, bad, i, kept) && LaunderedIn(Standing, s0, t, bad, i, kept);
    assert s0.inactive[i] in s0.inactive[i..];
  }

  lemma LaunderHead(s0: State, s: State, bad: set<Page>, i: nat, kept: seq<Page>)
    requires Core(s) && i < |s0.inactive| && Laundered(s0, s, bad, i, kept)
    ensures var p := s0.inactive[i]; p in s.inactive && Without(s.inactive, p) == s0.inactive[i + 1..] + kept
  {
    assert LaunderedIn(Queues, s0, s, bad, i, kept);
    HeadOfInactive(s, s0.inactive[i], s0.inactive[i + 1..], kept, s0.inactive[i..]);
  }

  /** The round's verdict, by what the state before the first round says. */
  lemma LaunderFate(s0: State, s: State, bad: set<Page>, i: nat, kept: seq<Page>, fate: Fate)
    requires i < |s0.inactive| && Laundered(s0, s, bad, i, kept)
    requires var p := s0.inactive[i]; p in s.ref && Undisturbed(s, s, p) && fate == FateOf(s, p, p !in bad) != Panicked
    ensures var p := s0.inactive[i];
            && p in s0.ref && (fate == Freed <==> Frees(s0, bad, p)) && (fate == Activated <==> s0.ref[p] != 0)
            && !Brimming(s0, p)
  {
    assert LaunderedIn(Queues, s0, s, bad, i, kept) && LaunderedIn(Standing, s0, s, bad, i, kept);
    assert s0.inactive[i] in s0.inactive[i..];
  }

  lemma LaunderStands(s0: State, s: State, t: State, bad: set<Page>, i: nat, kept: seq<Page>, kept': seq<Page>, fate: Fate)
    requires i < |s0.inactive| && LaunderedIn(Standing, s0, s, bad, i, kept)
    requires Aside(s, t, s0.inactive[i]) && (fate != Freed ==> Undisturbed(s, t, s0.inactive[i]))
    requires Distinct(s0.inactive) && (fate == Freed <==> Frees(s0, bad, s0.inactive[i]))
    ensures LaunderedIn(Standing, s0, t, bad, i + 1, kept')
  {
    forall q | q in s0.inactive && (q in s0.inactive[i + 1..] || !Frees(s0, bad, q))
      ensures q in s0.ref && Undisturbed(s0, t, q)
    {
      assert Undisturbed(s0, s, q) && Undisturbed(s, s, q);
    }
  }

  lemma LaunderGone(s0: State, s: State, t: State, bad: set<Page>, i: nat, kept: seq<Page>, fate: Fate)
    requires i < |s0.inactive| && LaunderedIn(Finished, s0, s, bad, i, kept)
    requires Aside(s, t, s0.inactive[i]) && (fate == Freed ==> s0.inactive[i] in t.free && s0.inactive[i] !in t.index)
    requires s0.inactive[i] in s0.ref && (fate == Freed <==> Frees(s0, bad, s0.inactive[i]))
    requires fate == Activated <==> s0.ref[s0.inactive[i]] != 0
    requires fate != Panicked && !Brimming(s0, s0.inactive[i])
    ensures LaunderedIn(Finished, s0, t, bad, i + 1, if fate == Kept then kept + [s0.inactive[i]] else kept)
  {
    assert s0.inactive[..i + 1] == s0.inactive[..i] + [s0.inactive[i]];
  }

  lemma LaunderNext(s0: State, s: State, t: State, bad: set<Page>, i: nat, kept: seq<Page>, fate: Fate, j: nat, kept': seq<Page>)
    requires Core(s0) && Core(s) && i < |s0.inactive| && j == i + 1 && Laundered(s0, s, bad, i, kept)
    requires var p := s0.inactive[i];
             && p in s.ref && Undisturbed(s, s, p) && Without(s.inactive, p) == s0.inactive[i + 1..] + kept
             && fate == FateOf(s, p, p !in bad) != Panicked && Settled(s, t, p, fate)
             && Aside(s, t, p) && (fate != Freed ==> Undisturbed(s, t, p)) && kept' == if fate == Kept then kept + [p] else kept
    ensures Laundered(s0, t, bad, j, kept')
    ensures t.ref == s0.ref && |t.active| == |s.active| + if fate == Activated then 1 else 0
  {
    var p := s0.inactive[i];
    assert Holds(Lists, s0);
    LaunderFate(s0, s, bad, i, kept, fate);
    assert LaunderedIn(Queues, s0, t, bad, j, kept') by {
      assert LaunderedIn(Queues, s0, s, bad, i, kept);
      PickStep(s0.inactive, s0.ref, i);
      assert s0.inactive[i + 1..] + kept + [p] == s0.inactive[i + 1..] + (kept + [p]);
    }
    assert LaunderedIn(Standing, s0, t, bad, j, kept') by {
      LaunderStands(s0, s, t, bad, i, kept, kept', fate);
    }
    assert LaunderedIn(Finished, s0, t, bad, j, kept') by {
      LaunderGone(s0, s, t, bad, i, kept, fate);
    }
    forall part ensures LaunderedIn(part, s0, t, bad, j, kept') {
      match part {
        case Queues => case Standing => case Finished =>
      }
    }
  }

  lemma LaunderEndIs(s0: State, t: State, bad: set<Page>, kept: seq<Page>)
    requires Core(s0) && Laundered(s0, t, bad, |s0.inactive|, kept)
    ensures t.ref == s0.ref && t.active == s0.active + Pick(s0.inactive, s0.ref, true) && t.inactive == kept
    ensures forall p :: p in kept ==> p in s0.inactive && p in bad
    ensures forall p :: p in s0.inactive ==> !Brimming(s0, p)
    ensures forall p :: p in s0.inactive ==>
      && p in t.ref && p in s0.index && s0.index[p] < |s0.memMap|
      && if t.ref[p] != 0 then p in t.active && p in t.index
         else if s0.memMap[s0.index[p]] == 0 || p !in s0.dirty || p !in bad then p in t.free && p !in t.index
         else p in t.inactive && p in t.index && p in t.dirty
  {
    var n := |s0.inactive|;
    assert LaunderedIn(Queues, s0, t, bad, n, kept) && LaunderedIn(Finished, s0, t, bad, n, kept);
    assert s0.inactive[..n] == s0.inactive && s0.inactive[n..] == [];
    forall p | p in s0.inactive ensures Undisturbed(s0, s0, p) && p in s0.ref && (!Frees(s0, bad, p) ==> Undisturbed(s0, t, p)) {
      assert LaunderedIn(Standing, s0, t, bad, n, kept);
      InactivePage(s0, p);
    }
    forall p | p in s0.inactive && s0.ref[p] != 0 ensures p in t.active {
      PickHas(s0.inactive, s0.ref, p);
    }
  }

  lemma WithoutHead(q: seq<Page>, p: Page, rest: seq<Page>)
    requires q == [p] + rest
    ensures Without(q, p) == rest
  {
    assert q[1..] == rest;
  }

  lemma HeadOfInactive(s: State, p: Page, rest: seq<Page>, kept: seq<Page>, tail: seq<Page>)
    requires Core(s) && tail == [p] + rest && s.inactive == tail + kept
    ensures p in s.inactive && Without(s.inactive, p) == rest + kept
    ensures rest + kept + [p] == rest + (kept + [p])
  {
    assert Holds(Lists, s);
    assert s.inactive == [p] + (rest + kept);
    WithoutHead(s.inactive, p, rest + kept);
  }

  lemma InactivePage(s: State, p: Page)
    requires Core(s) && p in s.inactive
    ensures p in s.index && p in s.ref && p !in s.active && p !in s.hot && s.index[p] < |s.memMap|
    ensures s.laundering != Some(p)
  {
    assert Holds(Lists, s) && Holds(Cache, s);
  }

  /** The first `i` pages of the old active list have been sorted out. */
  ghost predicate Refilled(s0: State, t: State, i: nat)
  {
    && i <= |s0.active| && t.laundering == s0.laundering == None
    && t.index == s0.index && t.ref == s0.ref && t.pte == s0.pte && t.memMap == s0.memMap
    && t.active == Pick(s0.active[..i], s0.ref, true) + s0.active[i..]
    && t.inactive == s0.inactive + Pick(s0.active[..i], s0.ref, false)
  }

  /** The pages of a list that are mapped (or not), in list order. */
  function Pick(q: seq<Page>, ref: map<Page, nat>, mapped: bool): seq<Page> {
    if q == [] then []
    else
      var last := q[|q| - 1];
      Pick(q[..|q| - 1], ref, mapped) + if (last in ref && ref[last] != 0) == mapped then [last] else []
  }

  lemma PickStep(q: seq<Page>, ref: map<Page, nat>, i: nat)
    requires i < |q| && Distinct(q)
    ensures forall m :: Pick(q[..i + 1], ref, m) ==
                        Pick(q[..i], ref, m) + if (q[i] in ref && ref[q[i]] != 0) == m then [q[i]] else []
    ensures q[i] !in Pick(q[..i], ref, true) && q[i] !in q[i + 1..]
  {
    assert q[..i + 1][..i] == q[..i];
    PickHas(q[..i], ref, q[i]);
  }

  lemma PickHas(q: seq<Page>, ref: map<Page, nat>, p: Page)
    ensures p in Pick(q, ref, true) <==> p in q && p in ref && ref[p] != 0
    ensures p in Pick(q, ref, false) <==> p in q && !(p in ref && ref[p] != 0)
  {
    if q != [] {
      PickHas(q[..|q| - 1], ref, p);
      assert q == q[..|q| - 1] + [q[|q| - 1]];
    }
  }

  lemma WithoutMiddle(a: seq<Page>, p: Page, b: seq<Page>)
    requires p !in a
    ensures Without(a + ([p] + b), p) == a + b
  {
    assert a + ([p] + b) == a + [p] + b;
    WithoutMid(a, p, b);
  }

  lemma RefillStart(s: State)
    requires s.laundering == None
    ensures Refilled(s, s, 0)
  {
    assert s.active[0..] == s.active;
  }

  lemma RefillSkip(s0: State, t: State, i: nat)
    requires Core(s0) && i < |s0.active| && Refilled(s0, t, i)
    requires s0.active[i] in s0.ref && s0.ref[s0.active[i]] != 0
    ensures Refilled(s0, t, i + 1)
  {
    assert Holds(Lists, s0);
    PickStep(s0.active, s0.ref, i);
  }

  lemma RefillEnd(s0: State, t: State)
    requires Core(s0) && Refilled(s0, t, |s0.active|)
    ensures t.active == Pick(s0.active, s0.ref, true)
    ensures t.inactive == s0.inactive + Pick(s0.active, s0.ref, false) && t.ref == s0.ref
    ensures forall p :: p in s0.active ==>
              p in t.ref && if t.ref[p] != 0 then p in t.active && p !in t.inactive else p in t.inactive && p !in t.active
  {
    assert s0.active[..|s0.active|] == s0.active;
    assert Holds(Lists, s0) && Holds(Cache, s0);
    forall p | p in s0.active {
      PickHas(s0.active, s0.ref, p);
    }
  }

  lemma NotInactive(s0: State, t: State, i: nat)
    requires Core(s0) && Core(t) && i < |s0.active| && Refilled(s0, t, i)
    requires s0.active[i] in s0.ref && s0.ref[s0.active[i]] == 0
    ensures s0.active[i] !in t.inactive
    ensures Without(t.active, s0.active[i]) == Pick(s0.active[..i + 1], s0.ref, true) + s0.active[i + 1..]
    ensures t.inactive + [s0.active[i]] == s0.inactive + Pick(s0.active[..i + 1], s0.ref, false)
  {
    StillActive(s0, t, i);
    NotInBoth(t, s0.active[i]);
    ActiveOnce(s0);
    CoolLists(s0.active, s0.ref, i, t.active, s0.inactive, t.inactive);
  }

  lemma CoolLists(q: seq<Page>, ref: map<Page, nat>, i: nat, active: seq<Page>, first: seq<Page>, inactive: seq<Page>)
    requires i < |q| && Distinct(q) && q[i] in ref && ref[q[i]] == 0
    requires active == Pick(q[..i], ref, true) + q[i..] && inactive == first + Pick(q[..i], ref, false)
    ensures Without(active, q[i]) == Pick(q[..i + 1], ref, true) + q[i + 1..]
    ensures inactive + [q[i]] == first + Pick(q[..i + 1], ref, false)
  {
    PickStep(q, ref, i);
    assert q[i..] == [q[i]] + q[i + 1..];
    WithoutMiddle(Pick(q[..i], ref, true), q[i], q[i + 1..]);
  }

  lemma NotInBoth(s: State, p: Page)
    requires Core(s) && p in s.active
    ensures p !in s.inactive
  {
    assert Holds(Lists, s);
  }

  lemma ActiveOnce(s: State)
    requires Core(s)
    ensures Distinct(s.active)
  {
    assert Holds(Lists, s);
  }

  lemma StillActive(s0: State, t: State, i: nat)
    requires i < |s0.active| && Refilled(s0, t, i)
    ensures s0.active[i] in t.active && s0.active[i..] == [s0.active[i]] + s0.active[i + 1..]
    ensures t.active == Pick(s0.active[..i], s0.ref, true) + [s0.active[i]] + s0.active[i + 1..]
  {
    var p, q := s0.active[i], s0.active;
    assert q[i..] == [p] + q[i + 1..];
    var k := |Pick(q[..i], s0.ref, true)|;
    assert t.active == Pick(q[..i], s0.ref, true) + [p] + q[i + 1..];
    assert t.active[k] == p;
  }

  lemma ActivePage(s: State, i: nat)
    requires Core(s) && i < |s.active|
    ensures s.active[i] in s.index && s.active[i] in s.ref
  {
    assert Holds(Lists, s) && Holds(Cache, s);
  }

  /** The entry was present and names a swap entry now. */
  ghost predicate WentOut(s: State, t: State, sl: Slot) {
    sl in s.pte && s.pte[sl].Present? && sl in t.pte && t.pte[sl].Swapped?
  }

  /** `cursor` is the address behind the last page of the range that went out. */
  ghost predicate LastOut(s: State, t: State, mm: nat, first: nat, end: nat, cursor: nat) {
    exists v :: first <= v < end && cursor == (v + 1) * PAGE_SIZE && WentOut(s, t, User(mm, v))
                && forall u :: v < u < end ==> !WentOut(s, t, User(mm, u))
  }

  /** The walk has not come to the pages from `vpn` on. */
  ghost predicate Ahead(s: State, t: State, mm: nat, vpn: nat) {
    forall u :: vpn <= u ==> Lookup(t.pte, User(mm, u)) == Lookup(s.pte, User(mm, u))
  }

  lemma NextOut(s: State, t: State, t': State, mm: nat, first: nat, end: nat, vpn: nat, cursor: nat, out: bool)
    requires Ahead(s, t, mm, vpn) && OnlyAt(t, t', User(mm, vpn)) && first <= vpn < end
    requires out <==> WentOut(t, t', User(mm, vpn))
    ensures Ahead(s, t', mm, vpn + 1)
    ensures out && cursor == (vpn + 1) * PAGE_SIZE ==> LastOut(s, t', mm, first, end, cursor)
    ensures !out && LastOut(s, t, mm, first, end, cursor) ==> LastOut(s, t', mm, first, end, cursor)
  {
    forall u | vpn + 1 <= u
      ensures Lookup(t'.pte, User(mm, u)) == Lookup(s.pte, User(mm, u)) && !WentOut(s, t', User(mm, u))
    {
      assert Lookup(t'.pte, User(mm, u)) == Lookup(t.pte, User(mm, u));
    }
    assert Lookup(t.pte, User(mm, vpn)) == Lookup(s.pte, User(mm, vpn));
    if !out && LastOut(s, t, mm, first, end, cursor) {
      var v :| first <= v < end && cursor == (v + 1) * PAGE_SIZE && WentOut(s, t, User(mm, v))
               && forall u :: v < u < end ==> !WentOut(s, t, User(mm, u));
      StillLast(s, t, t', mm, end, vpn, v);
    }
  }

  lemma StillLast(s: State, t: State, t': State, mm: nat, end: nat, vpn: nat, v: nat)
    requires Ahead(s, t, mm, vpn) && OnlyAt(t, t', User(mm, vpn)) && !WentOut(t, t', User(mm, vpn))
    requires WentOut(s, t, User(mm, v)) && forall u :: v < u < end ==> !WentOut(s, t, User(mm, u))
    ensures WentOut(s, t', User(mm, v)) && forall u :: v < u < end ==> !WentOut(s, t', User(mm, u))
  {
    forall u: nat
      ensures WentOut(s, t', User(mm, u)) <==> WentOut(s, t, User(mm, u))
    {
      assert u != vpn ==> Lookup(t'.pte, User(mm, u)) == Lookup(t.pte, User(mm, u));
      assert u >= vpn ==> Lookup(t.pte, User(mm, u)) == Lookup(s.pte, User(mm, u));
    }
  }

  datatype SweepPart = Looked | Coming | Marked | Tallied | Sent

  /** The walk has come to page `vpn`, and `whole` says that it did not stop on a full count. */
  ghost predicate SweptIn(part: SweepPart, s: State, t: State, mm: nat, first: nat, end: nat, vpn: nat, count: nat, cursor0: nat,
                          cursor: nat, whole: bool) {
    match part
    case Looked => forall v :: first <= v < vpn ==> NotRecent(t, User(mm, v))
    case Coming => Ahead(s, t, mm, vpn)
    case Marked => if count == 0 then cursor == cursor0 else LastOut(s, t, mm, first, end, cursor)
    case Tallied => count == OutCount(s, t, mm, first, vpn)
    case Sent => whole ==> forall v :: first <= v < vpn ==> OutOrFull(s, t, User(mm, v))
  }

  lemma SweptNext(s: State, t: State, t': State, mm: nat, first: nat, end: nat, vpn: nat, count: nat, cursor0: nat, cursor: nat,
                  vpn': nat, count': nat, cursor': nat, out: bool, whole: bool)
    requires first <= vpn < end && forall part :: SweptIn(part, s, t, mm, first, end, vpn, count, cursor0, cursor, true)
    requires OnlyAt(t, t', User(mm, vpn)) && NotRecent(t', User(mm, vpn)) && (out <==> WentOut(t, t', User(mm, vpn)))
    requires StaysFull(t, t') && (whole ==> OutOrFull(t, t', User(mm, vpn)))
    requires vpn' == vpn + 1 && if out then count' == count + 1 && cursor' == (vpn + 1) * PAGE_SIZE else count' == count && cursor' == cursor
    ensures forall part :: SweptIn(part, s, t', mm, first, end, vpn', count', cursor0, cursor', whole)
  {
    assert SweptIn(Coming, s, t, mm, first, end, vpn, count, cursor0, cursor, true);
    forall part ensures SweptIn(part, s, t', mm, first, end, vpn', count', cursor0, cursor', whole) {
      assert SweptIn(part, s, t, mm, first, end, vpn, count, cursor0, cursor, true);
      match part {
        case Looked => StaysNotRecent(t, t', mm, first, vpn);
        case Coming => NextOut(s, t, t', mm, first, end, vpn, cursor', out);
        case Marked => NextOut(s, t, t', mm, first, end, vpn, cursor', out);
        case Tallied => OneMoreOut(s, t, t', mm, first, vpn, out);
        case Sent =>
          if whole {
            FullNext(s, t, t', mm, first, vpn);
          }
      }
    }
  }

  lemma SweptDone(s: State, t: State, mm: nat, first: nat, end: nat, vpn: nat, count: nat, cursor0: nat, cursor: nat, whole: bool)
    requires first <= vpn && (vpn <= end || vpn == first)
    requires forall part :: SweptIn(part, s, t, mm, first, end, vpn, count, cursor0, cursor, whole)
    ensures count == OutCount(s, t, mm, first, end)
    ensures if count == 0 then cursor == cursor0 else LastOut(s, t, mm, first, end, cursor)
    ensures whole && vpn >= end ==> forall v :: first <= v < end ==> NotRecent(t, User(mm, v)) && OutOrFull(s, t, User(mm, v))
  {
    assert SweptIn(Coming, s, t, mm, first, end, vpn, count, cursor0, cursor, whole);
    assert SweptIn(Tallied, s, t, mm, first, end, vpn, count, cursor0, cursor, whole);
    assert SweptIn(Marked, s, t, mm, first, end, vpn, count, cursor0, cursor, whole);
    assert SweptIn(Looked, s, t, mm, first, end, vpn, count, cursor0, cursor, whole);
    assert SweptIn(Sent, s, t, mm, first, end, vpn, count, cursor0, cursor, whole);
    RestNotOut(s, t, mm, first, vpn, end);
  }

  lemma StaysNotRecent(s: State, t: State, mm: nat, from: nat, vpn: nat)
    requires OnlyAt(s, t, User(mm, vpn)) && from <= vpn
    requires forall v :: from <= v < vpn ==> NotRecent(s, User(mm, v))
    ensures forall v :: from <= v < vpn ==> NotRecent(t, User(mm, v))
  {
    forall v | from <= v < vpn ensures NotRecent(t, User(mm, v)) {
      assert NotRecent(s, User(mm, v));
      assert Lookup(t.pte, User(mm, v)) == Lookup(s.pte, User(mm, v));
    }
  }

  /** A page not used since the last look goes out, unless it has no swap entry and there is none to be had. */
  ghost predicate OutOrFull(s: State, t: State, sl: Slot) {
    sl in s.pte && s.pte[sl].Present? && !s.pte[sl].a && sl in t.pte && t.pte[sl].Present? ==>
      t.pte[sl] == s.pte[sl] && t.pte[sl].page !in t.index && NoEntry(t)
  }

  /** How many pages of the range were present before and are swapped now. */
  ghost function OutCount(s: State, t: State, mm: nat, first: nat, end: nat): nat
    decreases end
  {
    if end <= first then 0
    else OutCount(s, t, mm, first, end - 1) + if WentOut(s, t, User(mm, end - 1)) then 1 else 0
  }

  lemma SameOut(s: State, t: State, t': State, mm: nat, first: nat, vpn: nat)
    requires forall v :: first <= v < vpn ==> Lookup(t'.pte, User(mm, v)) == Lookup(t.pte, User(mm, v))
    ensures OutCount(s, t', mm, first, vpn) == OutCount(s, t, mm, first, vpn)
  {
    if first < vpn {
      SameOut(s, t, t', mm, first, vpn - 1);
      assert Lookup(t'.pte, User(mm, vpn - 1)) == Lookup(t.pte, User(mm, vpn - 1));
    }
  }

  lemma OneMoreOut(s: State, t: State, t': State, mm: nat, first: nat, vpn: nat, out: bool)
    requires first <= vpn && OnlyAt(t, t', User(mm, vpn)) && Ahead(s, t, mm, vpn)
    requires out <==> WentOut(t, t', User(mm, vpn))
    ensures OutCount(s, t', mm, first, vpn + 1) == OutCount(s, t, mm, first, vpn) + if out then 1 else 0
  {
    SameOut(s, t, t', mm, first, vpn);
    assert Lookup(t.pte, User(mm, vpn)) == Lookup(s.pte, User(mm, vpn));
  }

  lemma RestNotOut(s: State, t: State, mm: nat, first: nat, vpn: nat, end: nat)
    requires Ahead(s, t, mm, vpn) && first <= vpn && (vpn <= end || vpn == first)
    ensures OutCount(s, t, mm, first, end) == OutCount(s, t, mm, first, vpn)
    decreases end
  {
    if vpn < end {
      RestNotOut(s, t, mm, first, vpn, end - 1);
      assert Lookup(t.pte, User(mm, end - 1)) == Lookup(s.pte, User(mm, end - 1));
    }
  }

  lemma NoneOut(s: State, mm: nat, first: nat, end: nat)
    ensures OutCount(s, s, mm, first, end) == 0
    decreases end
  {
    if first < end {
      NoneOut(s, mm, first, end - 1);
    }
  }

  lemma FullNext(s: State, t: State, t': State, mm: nat, first: nat, vpn: nat)
    requires OnlyAt(t, t', User(mm, vpn)) && Ahead(s, t, mm, vpn) && StaysFull(t, t') && OutOrFull(t, t', User(mm, vpn))
    requires forall v :: first <= v < vpn ==> OutOrFull(s, t, User(mm, v))
    ensures forall v :: first <= v < vpn + 1 ==> OutOrFull(s, t', User(mm, v))
  {
    forall v | first <= v < vpn + 1 ensures OutOrFull(s, t', User(mm, v)) {
      if v < vpn {
        assert OutOrFull(s, t, User(mm, v));
        assert Lookup(t'.pte, User(mm, v)) == Lookup(t.pte, User(mm, v));
      } else {
        assert Lookup(t.pte, User(mm, vpn)) == Lookup(s.pte, User(mm, vpn));
      }
    }
  }

  const PAGE_SIZE := 4096

  /** The processor has not used a present entry since kswapd last looked. */
  ghost predicate NotRecent(s: State, sl: Slot) {
    sl in s.pte && s.pte[sl].Present? ==> !s.pte[sl].a
  }

  /** After its slot is swapped out, a shared-memory entry stays present only while some other slot maps the page. */
  ghost predicate ShmFollows(s: State, sl: Slot) {
    Class(s.area, sl).Some? ==>
      var sh := Class(s.area, sl).value;
      sh in s.pte && (s.pte[sh].Present? ==> s.pte[sh].page in s.ref && s.ref[s.pte[sh].page] != 1)
  }

  lemma LimitReached(s: State, e: Entry)
    requires Core(s) && 0 < e < |s.memMap| && s.memMap[e] != SWAP_UNUSED && s.memMap[e] >= MAX_SWAP_REF
    ensures !Absent(s.memMap, MAX_SWAP_REF)
  {
    assert Holds(SwapMap, s);
  }

  lemma PageLimit(s: State, p: Page)
    requires Core(s) && p in s.index && s.index[p] < |s.memMap| && s.memMap[s.index[p]] >= MAX_SWAP_REF
    ensures !Absent(s.memMap, MAX_SWAP_REF)
  {
    assert Holds(Cache, s);
    LimitReached(s, s.index[p]);
  }

  lemma PresentPage(s: State, sl: Slot)
    requires Core(s) && sl in s.pte && s.pte[sl].Present?
    ensures s.pte[sl].page in s.ref && s.pte[sl].page !in s.free
  {
    assert Holds(Naming, s);
  }

  /** The shared-memory entry of a slot that was just swapped out exists and names the same page or its swap entry. */
  lemma SharedEntry(s: State, sl: Slot, p: Page)
    requires Core(s) && sl.User? && sl in s.pte && p in s.index && s.pte[sl] == Swapped(s.index[p])
    requires Class(s.area, sl).Some?
    ensures var sh := Class(s.area, sl).value;
            && sh in s.pte && sh.Shm? && p in s.ref && s.index[p] < |s.memMap|
            && (s.pte[sh].Present? ==> s.pte[sh].page == p)
  {
    assert Holds(Sharing, s) && Holds(Shape, s) && Holds(Cache, s) && Holds(Naming, s);
    var o := ObjMap(s.pte, s.index);
    assert sl in o && o[sl] == Backing(s.index[p]);
  }

  /** The fields Evict leaves behind, written as swap_out_vma writes them. */
  lemma EvictShape(s: State, sl: Slot)
    requires Core(s) && EvictPre(s, sl)
    ensures var p, e := s.pte[sl].page, s.index[s.pte[sl].page];
            && p in s.ref && s.ref[p] > 0
            && Evict(s, sl) == s.(dirty := if s.pte[sl].d then s.dirty + {p} else s.dirty,
                                  memMap := s.memMap[e := s.memMap[e] + 1],
                                  ref := s.ref[p := s.ref[p] - 1],
                                  pte := s.pte[sl := Swapped(e)])
  {
    assert Holds(Naming, s) && Holds(Cache, s);
    CoreCounts(s, sl);
  }
}

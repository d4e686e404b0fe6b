/** Runs of the pager refine plain memory. */
module PageRuns {
  import opened Lists
  import opened PageState
  import opened PageSteps
  import opened PageEntrySteps
  import opened PageCacheSteps

  datatype Step =
      // kswapd
    | ClearAccessed(sl: Slot)                 // swap_out_vma, first visit
    | Adopted(p: Page, e: Entry)              // swap_page_add with a new entry
    | Stolen(p: Page)                         // try_alloc_swap_entry takes an unnamed entry
    | Evicted(sl: Slot)                       // swap_out_vma, shmem_insert_entry
    | Cooled(p: Page)                         // refill_inactive_scan
    | Heated(p: Page)                         // page_launder on a mapped page
    | Dropped(p: Page)                        // page_launder on an unnamed page, swap_remove_entry
    | DroppedClean(p: Page)                   // page_launder on a page the disk already has
    | WriteBegun(p: Page)                     // page_launder up to swapfs_write
    | Transferred(v: Data)                    // swapfs_write, once it has the disk
    | WriteEnded(ok: bool)                    // page_launder after swapfs_write
      // page faults
    | Loaded(p: Page, e: Entry)               // swap_in_page
    | Restored(sl: Slot, w: bool)             // entry points at its page again
    | Copied(sl: Slot, q: Page)               // copy on write
    | Touched(sl: Slot, q: Page)              // first access to private memory
    | ShmTouched(sh: Slot, q: Page)           // shmem_get_entry
    | Attached(sl: Slot)                      // first access to shared memory
    | ReusedAndStored(sl: Slot, v: Data)      // write fault that keeps its page, with the retried store
      // processor and system calls
    | Read(sl: Slot)
    | Stored(sl: Slot, v: Data)
    | Forked(sl: Slot, child: Slot)           // copy_range
    | Cleared(sl: Slot)                       // page_remove_pte, shmem_remove_entry_pte
    | Mapped(sl: Slot, area: Area)            // the area of a slot appears
    | Unmapped(sl: Slot)                      // and disappears

  ghost predicate Enabled(s: State, st: Step) {
    match st
    case ClearAccessed(sl) => sl.User? && sl in s.pte && s.pte[sl].Present?
    case Adopted(p, e) => AdoptPre(s, p, e, false)
    case Stolen(p) => UncachePre(s, p, true)
    case Evicted(sl) => EvictPre(s, sl)
    case Cooled(p) => p in s.index && s.laundering != Some(p)
    case Heated(p) => p in s.index && s.laundering != Some(p)
    case Dropped(p) => UncachePre(s, p, true)
    case DroppedClean(p) => UncachePre(s, p, false)
    case WriteBegun(p) => PinPre(s, p)
    case Transferred(v) => s.laundering.Some? && !s.sent
    case WriteEnded(ok) => s.laundering.Some? && (ok ==> s.sent)
    case Loaded(p, e) => AdoptPre(s, p, e, true)
    case Restored(sl, w) => RestorePre(s, sl, w)
    case Copied(sl, q) => CopyPre(s, sl, q)
    case Touched(sl, q) => sl.User? && sl !in s.pte && sl in s.area && FreshPre(s, sl, q, s.area[sl].write)
    case ShmTouched(sh, q) => sh.Shm? && FreshPre(s, sh, q, false)
    case Attached(sl) => AttachPre(s, sl)
    case ReusedAndStored(sl, v) => ReusePre(s, sl)
    case Read(sl) => sl.User? && sl in s.pte && s.pte[sl].Present?
    case Stored(sl, v) => sl.User? && sl in s.pte && s.pte[sl].Present? && s.pte[sl].w
    case Forked(sl, child) => ForkPre(s, sl, child)
    case Cleared(sl) => DropPre(s, sl)
    case Mapped(sl, area) => sl.User? && sl !in s.area && (area.Shared? ==> area.shm.Shm?)
    case Unmapped(sl) => sl in s.area && sl !in s.pte
  }

  lemma CoreReads(s: State, st: Step)
    requires Core(s) && Enabled(s, st)
    ensures st.Loaded? ==> st.e < |s.disk|
    ensures st.WriteEnded? || st.Transferred? ==> Writing(s)
  {
    assert Holds(Shape, s) && Holds(Lists, s) && Holds(Cache, s);
  }

  ghost function Apply(s: State, st: Step): State
    requires Enabled(s, st) && Core(s)
  {
    CoreReads(s, st);
    match st
    case ClearAccessed(sl) => Flag(s, sl, s.pte[sl].w, false, s.pte[sl].d)
    case Adopted(p, e) => Adopt(s, p, e, false)
    case Stolen(p) => Uncache(s, p, true)
    case Evicted(sl) => Evict(s, sl)
    case Cooled(p) => Move(s, p, false)
    case Heated(p) => Move(s, p, true)
    case Dropped(p) => Uncache(s, p, true)
    case DroppedClean(p) => Uncache(s, p, false)
    case WriteBegun(p) => PinDown(s, p)
    case Transferred(v) => Transfer(s, v)
    case WriteEnded(ok) => Unpin(s, ok)
    case Loaded(p, e) => Adopt(s, p, e, true)
    case Restored(sl, w) => Restore(s, sl, w)
    case Copied(sl, q) => Copy(s, sl, q)
    case Touched(sl, q) => Fresh(s, sl, q, s.area[sl].write)
    case ShmTouched(sh, q) => Fresh(s, sh, q, false)
    case Attached(sl) => Attach(s, sl)
    case ReusedAndStored(sl, v) => ReuseStore(s, sl, v)
    case Read(sl) => Flag(s, sl, s.pte[sl].w, true, s.pte[sl].d)
    case Stored(sl, v) => Store(s, sl, v)
    case Forked(sl, child) => Fork(s, sl, child)
    case Cleared(sl) => Drop(s, sl)
    case Mapped(sl, area) => s.(area := s.area[sl := area])
    case Unmapped(sl) => s.(area := s.area - {sl})
  }

  /** What a step may do to plain memory: nothing, unless the program asked for it. */
  ghost predicate PlainNext(m: Plain, st: Step, m': Plain) {
    match st
    case Touched(sl, _) => sl !in m.mem && sl in m'.mem && m' == m.(mem := m.mem[sl := m'.mem[sl]])
    case ShmTouched(sh, _) => sh !in m.mem && sh in m'.mem && m' == m.(mem := m.mem[sh := m'.mem[sh]])
    case Attached(sl) =>
      && sl !in m.mem && sl in m.area && m.area[sl].Shared? && m.area[sl].shm in m.mem
      && m' == m.(mem := m.mem[sl := m.mem[m.area[sl].shm]])
    case ReusedAndStored(sl, v) => sl in m.mem && m' == m.(mem := StoreMem(m.mem, m.area, sl, v))
    case Stored(sl, v) => sl in m.mem && m' == m.(mem := StoreMem(m.mem, m.area, sl, v))
    case Forked(sl, child) => sl in m.mem && child !in m.mem && m' == m.(mem := m.mem[child := m.mem[sl]])
    case Cleared(sl) => m' == m.(mem := m.mem - {sl})
    case Mapped(sl, area) => sl !in m.mem && m' == m.(area := m.area[sl := area])
    case Unmapped(sl) => sl !in m.mem && m' == m.(area := m.area - {sl})
    case _ => m' == m
  }

  lemma MapAreaKeeps(s: State, sl: Slot, area: Area)
    requires Inv(s) && Enabled(s, Mapped(sl, area))
    ensures Inv(s.(area := s.area[sl := area])) && sl !in s.pte
  {
    var s' := s.(area := s.area[sl := area]);
    assert Holds(Sharing, s) && Holds(Shape, s);
    assert sl in s.pte ==> sl in ObjMap(s.pte, s.index);
    AreaKeeps(s, s', sl);
  }

  lemma UnmapAreaKeeps(s: State, sl: Slot)
    requires Inv(s) && Enabled(s, Unmapped(sl))
    ensures Inv(s.(area := s.area - {sl}))
  {
    assert Holds(Shape, s);
    AreaKeeps(s, s.(area := s.area - {sl}), sl);
  }

  lemma AreaKeeps(s: State, s': State, sl: Slot)
    requires Inv(s) && sl.User? && sl !in s.pte && s' == s.(area := s'.area) && AreasOk(s'.area)
    requires forall y :: y != sl ==> (y in s'.area <==> y in s.area) && (y in s.area ==> s'.area[y] == s.area[y])
    ensures Inv(s')
  {
    forall c: Clause ensures Holds(c, s') {
      assert Holds(c, s);
      match c {
        case Writers =>
          forall y | Writes(s', y)
            ensures s'.pte[y].page in s'.ref && s'.ref[s'.pte[y].page] + SwapCount(s', s'.pte[y].page) == 1
          {
            assert Writes(s, y);
          }
        case Sharing => AreaSharing(ObjMap(s.pte, s.index), s.area, s'.area, sl);
        case Shape => case Naming => case Refs => case SwapMap => case Cache => case Lists => case ShmBits => case Perms =>
      }
    }
    AreaClean(s, s');
  }

  lemma AreaClean(s: State, s': State)
    requires s' == s.(area := s'.area) && Clean(s, InFlight(s))
    ensures Clean(s', InFlight(s'))
  {
    forall p | p in s'.index && p !in InFlight(s') && p in s'.data && s'.index[p] < |s'.disk|
      ensures s'.data[p] == s'.disk[s'.index[p]] || MarkedDirty(s', p)
    {
      assert MarkedDirty(s, p) ==> MarkedDirty(s', p);
    }
  }

  lemma AreaSharing(o: map<Slot, Target>, area: map<Slot, Area>, area': map<Slot, Area>, sl: Slot)
    requires CoherentOn(o, area) && sl !in o && sl.User?
    requires forall y :: y != sl ==> (y in area' <==> y in area) && (y in area ==> area'[y] == area[y])
    ensures CoherentOn(o, area')
  {}

  /** Steps of kswapd and of swap_in_page: plain memory does not move. */
  lemma PagingRefines(s: State, st: Step)
    requires Inv(s) && Enabled(s, st)
    requires st.ClearAccessed? || st.Adopted? || st.Stolen? || st.Evicted? || st.Cooled? || st.Heated? || st.Dropped?
             || st.DroppedClean? || st.WriteBegun? || st.Transferred? || st.WriteEnded? || st.Loaded?
    ensures Inv(Apply(s, st)) && Legible(s) && Legible(Apply(s, st))
    ensures View(Apply(s, st)) == View(s)
  {
    match st {
      case ClearAccessed(sl) => FlagKeeps(s, sl, s.pte[sl].w, false, s.pte[sl].d);
      case Adopted(p, e) => AdoptKeeps(s, p, e, false);
      case Stolen(p) => UncacheKeeps(s, p, true);
      case Evicted(sl) => EvictKeeps(s, sl);
      case Cooled(p) => MoveKeeps(s, p, false);
      case Heated(p) => MoveKeeps(s, p, true);
      case Dropped(p) => UncacheKeeps(s, p, true);
      case DroppedClean(p) => UncacheKeeps(s, p, false);
      case WriteBegun(p) => PinDownKeeps(s, p);
      case Transferred(v) => TransferKeeps(s, v);
      case WriteEnded(ok) => UnpinKeeps(s, ok);
      case Loaded(p, e) => AdoptKeeps(s, p, e, true);
    }
  }

  /** The branches of do_page_fault. */
  lemma FaultRefines(s: State, st: Step)
    requires Inv(s) && Enabled(s, st)
    requires st.Restored? || st.Copied? || st.Touched? || st.ShmTouched? || st.Attached? || st.ReusedAndStored?
    ensures Inv(Apply(s, st)) && Legible(s) && Legible(Apply(s, st))
    ensures PlainNext(View(s), st, View(Apply(s, st)))
  {
    match st {
      case Restored(sl, w) => RestoreKeeps(s, sl, w);
      case Copied(sl, q) => CopyKeeps(s, sl, q);
      case Touched(sl, q) => FreshKeeps(s, sl, q, s.area[sl].write);
      case ShmTouched(sh, q) => FreshKeeps(s, sh, q, false);
      case Attached(sl) => AttachKeeps(s, sl);
      case ReusedAndStored(sl, v) => ReuseStoreKeeps(s, sl, v);
    }
  }

  /** Accesses that do not fault, fork and unmapping. */
  lemma ProgramRefines(s: State, st: Step)
    requires Inv(s) && Enabled(s, st)
    requires st.Read? || st.Stored? || st.Forked? || st.Cleared?
    ensures Inv(Apply(s, st)) && Legible(s) && Legible(Apply(s, st))
    ensures PlainNext(View(s), st, View(Apply(s, st)))
  {
    match st {
      case Read(sl) => FlagKeeps(s, sl, s.pte[sl].w, true, s.pte[sl].d);
      case Stored(sl, v) => StoredRefines(s, sl, v);
      case Forked(sl, child) => ForkKeeps(s, sl, child);
      case Cleared(sl) => DropKeeps(s, sl);
    }
  }

  lemma AreaRefines(s: State, st: Step)
    requires Inv(s) && Enabled(s, st) && (st.Mapped? || st.Unmapped?)
    ensures Inv(Apply(s, st)) && Legible(s) && Legible(Apply(s, st))
    ensures PlainNext(View(s), st, View(Apply(s, st)))
  {
    match st {
      case Mapped(sl, area) => MapAreaKeeps(s, sl, area);
      case Unmapped(sl) => UnmapAreaKeeps(s, sl);
    }
    CoreLegible(s);
    CoreLegible(Apply(s, st));
    assert View(Apply(s, st)).mem == View(s).mem;
  }

  /** Every step keeps the invariant and moves plain memory only as the step says. */
  lemma StepRefines(s: State, st: Step)
    requires Inv(s) && Enabled(s, st)
    ensures Inv(Apply(s, st)) && Legible(s) && Legible(Apply(s, st))
    ensures PlainNext(View(s), st, View(Apply(s, st)))
  {
    if st.Restored? || st.Copied? || st.Touched? || st.ShmTouched? || st.Attached? || st.ReusedAndStored? {
      FaultRefines(s, st);
    } else if st.Read? || st.Stored? || st.Forked? || st.Cleared? {
      ProgramRefines(s, st);
    } else if st.Mapped? || st.Unmapped? {
      AreaRefines(s, st);
    } else {
      PagingRefines(s, st);
    }
  }

  lemma StoredRefines(s: State, sl: Slot, v: Data)
    requires Inv(s) && Enabled(s, Stored(sl, v))
    ensures Inv(Store(s, sl, v)) && Legible(s) && Legible(Store(s, sl, v))
    ensures View(Store(s, sl, v)) == View(s).(mem := StoreMem(View(s).mem, s.area, sl, v))
  {
    assert Clean(s, InFlight(s) + {s.pte[sl].page});
    StoreKeeps(s, sl, v);
  }

  // ---------------------------------------------------------------- whole runs

  /** `states` are the states a run of `steps` passes through. */
  ghost predicate IsRun(states: seq<State>, steps: seq<Step>) {
    && |states| == |steps| + 1
    && forall i :: 0 <= i < |steps| ==>
         Enabled(states[i], steps[i]) && (Core(states[i]) ==> states[i + 1] == Apply(states[i], steps[i]))
  }

  /** Along every run the counts, the cache, the lists and the sharing rules stay right, and plain memory is refined. */
  lemma {:induction false} RunRefines(states: seq<State>, steps: seq<Step>, n: nat)
    requires IsRun(states, steps) && Inv(states[0]) && n <= |steps|
    ensures forall i :: 0 <= i <= n ==> Inv(states[i]) && Legible(states[i])
    ensures forall i :: 0 <= i < n ==> PlainNext(View(states[i]), steps[i], View(states[i + 1]))
  {
    if n == 0 {
      CoreLegible(states[0]);
    } else {
      RunRefines(states, steps, n - 1);
      assert Inv(states[n - 1]);
      StepRefines(states[n - 1], steps[n - 1]);
    }
  }

  /** The steps that may change what slot `y` holds: a store it must see, or mapping and unmapping `y` itself. */
  predicate Affects(area: map<Slot, Area>, st: Step, y: Slot) {
    match st
    case Stored(sl, _) => Sees(area, sl, y)
    case ReusedAndStored(sl, _) => Sees(area, sl, y)
    case Touched(sl, _) => sl == y
    case ShmTouched(sh, _) => sh == y
    case Attached(sl) => sl == y
    case Forked(_, child) => child == y
    case Cleared(sl) => sl == y
    case _ => false
  }

  lemma Untouched(m: Plain, st: Step, m': Plain, y: Slot)
    requires PlainNext(m, st, m') && !Affects(m.area, st, y) && y in m.mem
    ensures y in m'.mem && m'.mem[y] == m.mem[y]
  {}

  /** Paging is invisible: over a whole run a mapped slot keeps its bytes unless some step of the run asks otherwise. */
  lemma {:induction false} PagingIsInvisible(states: seq<State>, steps: seq<Step>, y: Slot, n: nat)
    requires IsRun(states, steps) && Inv(states[0]) && n <= |steps| && y in states[0].pte
    requires forall i :: 0 <= i < n ==> !Affects(states[i].area, steps[i], y)
    ensures y in states[n].pte && Readable(states[n], states[n].pte[y]) && Readable(states[0], states[0].pte[y])
    ensures Content(states[n], states[n].pte[y]) == Content(states[0], states[0].pte[y])
  {
    CoreLegible(states[0]);
    if n > 0 {
      PagingIsInvisible(states, steps, y, n - 1);
      RunRefines(states, steps, n);
      Untouched(View(states[n - 1]), steps[n - 1], View(states[n]), y);
      assert y in View(states[n]).mem;
    }
  }

  /** The state after swap_init: no entry, every page free, every swap entry unused. */
  ghost predicate Booted(s: State) {
    && s.pte == map[] && s.area == map[] && s.data.Keys == s.ref.Keys && s.free == s.ref.Keys
    && (forall p :: p in s.ref ==> s.ref[p] == 0)
    && s.index == map[] && s.cache == map[] && |s.disk| == |s.memMap|
    && (forall e :: 0 <= e < |s.memMap| ==> s.memMap[e] == SWAP_UNUSED)
    && s.active == [] && s.inactive == [] && s.laundering == None
  }

  lemma BootInv(s: State)
    requires Booted(s)
    ensures Inv(s)
  {
    forall c: Clause ensures Holds(c, s) {
      match c {
        case Refs => forall p | p in s.ref ensures s.ref[p] == Count(s.pte, Frame(p)) { CountZero(s.pte, Frame(p)); }
        case Shape => case Naming => case SwapMap => case Cache => case Lists =>
        case Writers => case Sharing => case ShmBits => case Perms =>
      }
    }
  }

  // ---------------------------------------------------------------- runs as the kernel's functions make them

  /** Doing `steps` one after the other from `s` ends in `t`. */
  ghost predicate Reaches(s: State, steps: seq<Step>, t: State)
    decreases |steps|
  {
    if steps == [] then t == s
    else
      var last := steps[|steps| - 1];
      exists mid :: Reaches(s, steps[..|steps| - 1], mid) && Enabled(mid, last) && (Core(mid) ==> t == Apply(mid, last))
  }

  lemma ReachStep(s: State, steps: seq<Step>, mid: State, st: Step)
    requires Reaches(s, steps, mid) && Inv(mid) && Enabled(mid, st)
    ensures Reaches(s, steps + [st], Apply(mid, st)) && Inv(Apply(mid, st))
  {
    assert (steps + [st])[..|steps|] == steps;
    StepRefines(mid, st);
  }

  /** Steps no program can notice. */
  predicate Silent(st: Step) {
    match st
    case Touched(_, _) => false
    case ShmTouched(_, _) => false
    case Attached(_) => false
    case ReusedAndStored(_, _) => false
    case Stored(_, _) => false
    case Forked(_, _) => false
    case Cleared(_) => false
    case Mapped(_, _) => false
    case Unmapped(_) => false
    case _ => true
  }

  ghost predicate AllSilent(steps: seq<Step>) {
    forall i :: 0 <= i < |steps| ==> Silent(steps[i])
  }

  lemma {:induction false} ReachKeeps(s: State, steps: seq<Step>, t: State)
    requires Inv(s) && Reaches(s, steps, t)
    ensures Inv(t) && Legible(s) && Legible(t)
    ensures AllSilent(steps) ==> View(t) == View(s)
    decreases |steps|
  {
    CoreLegible(s);
    if steps != [] {
      var n := |steps| - 1;
      var mid :| Reaches(s, steps[..n], mid) && Enabled(mid, steps[n]) && (Core(mid) ==> t == Apply(mid, steps[n]));
      ReachKeeps(s, steps[..n], mid);
      StepRefines(mid, steps[n]);
    }
  }

  // ---------------------------------------------------------------- the fault that forgets

  /** The page goes as kswapd would let it go: evicted, cooled and dropped as a clean page. */
  ghost predicate Lost(s: State, sl: Slot, p: Page, v: Data) {
    && EvictPre(s, sl)
    && var s1 := Evict(s, sl);
    && p in s1.index && s1.laundering != Some(p)
    && var s2 := Move(s1, p, false);
    && UncachePre(s2, p, false)
    && var s3 := Uncache(s2, p, false);
    && sl in s3.pte && Readable(s3, s3.pte[sl]) && Content(s3, s3.pte[sl]) == v
  }

  /** If kswapd runs between such a fault and its retried store, the bytes of the page are gone. */
  lemma ForgottenPageIsLost(s: State, sl: Slot)
    requires Inv(s) && ReusePre(s, sl) && Forgets(s, sl) && s.laundering != Some(s.pte[sl].page)
    ensures var p := s.pte[sl].page;
      Lost(Reuse(s, sl), sl, p, s.disk[s.index[p]]) && s.disk[s.index[p]] != Content(s, s.pte[sl])
  {
    ForgottenFacts(s, sl);
    ForgottenEvict(Reuse(s, sl), sl);
    ForgottenDrop(Evict(Reuse(s, sl), sl), sl, s.pte[sl].page);
  }

  /** One entry, none swapped out, and no mark that the page differs from the disk. */
  ghost predicate Unmarked(s: State, sl: Slot) {
    && sl in s.pte && s.pte[sl].Present? && !s.pte[sl].d && s.pte[sl].page in s.index && s.pte[sl].page in s.ref
    && var p := s.pte[sl].page;
    && p !in s.dirty && s.ref[p] == 1 && 0 < s.index[p] < |s.memMap| == |s.disk| && s.memMap[s.index[p]] == 0
    && s.laundering != Some(p)
  }

  lemma ForgottenFacts(s: State, sl: Slot)
    requires Inv(s) && ReusePre(s, sl) && Forgets(s, sl) && s.laundering != Some(s.pte[sl].page)
    ensures Unmarked(Reuse(s, sl), sl)
  {
    assert Holds(Refs, s) && Holds(Cache, s) && Holds(Shape, s);
    CountZero(s.pte, Frame(s.pte[sl].page));
  }

  lemma ForgottenEvict(s: State, sl: Slot)
    requires Unmarked(s, sl)
    ensures EvictPre(s, sl)
    ensures var p, t := s.pte[sl].page, Evict(s, sl);
      && t == s.(pte := s.pte[sl := Swapped(s.index[p])], ref := s.ref[p := 0], memMap := s.memMap[s.index[p] := 1])
  {
  }

  lemma ForgottenDrop(s: State, sl: Slot, p: Page)
    requires p in s.index && p in s.ref && s.ref[p] == 0 && s.laundering != Some(p) && p !in s.dirty
    requires 0 < s.index[p] < |s.memMap| == |s.disk| && s.memMap[s.index[p]] == 1
    requires sl in s.pte && s.pte[sl] == Swapped(s.index[p])
    ensures var t := Move(s, p, false);
      && UncachePre(t, p, false)
      && var u := Uncache(t, p, false);
      && sl in u.pte && Readable(u, u.pte[sl]) && Content(u, u.pte[sl]) == s.disk[s.index[p]]
  {
  }
}

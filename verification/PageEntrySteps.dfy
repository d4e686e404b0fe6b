/** Steps that write a page-table entry: eviction, the branches of a page fault, fork and removal. */
module PageEntrySteps {
  import opened Lists
  import opened PageState
  import opened PageSteps

  lemma ObjPut(pte: map<Slot, Pte>, index: map<Page, Entry>, sl: Slot, x: Option<Pte>)
    ensures ObjMap(Put(pte, sl, x), index) ==
            if x.Some? then ObjMap(pte, index)[sl := Obj(index, x.value)] else ObjMap(pte, index) - {sl}
  {}

  /** A page that the allocator holds stands for nothing. */
  lemma FreeIsFresh(s: State, q: Page)
    requires Named(s) && CacheOk(s) && q in s.free
    ensures q !in s.index && forall y :: y in s.pte ==> Obj(s.index, s.pte[y]) != Frame(q)
  {}

  lemma FreeCount(s: State, q: Page)
    requires Wf(s) && Named(s) && RefsExact(s) && q in s.free
    ensures s.ref[q] == 0
  {
    CountZero(s.pte, Frame(q));
  }

  // ---- eviction of one entry (swap_out_vma, shmem_insert_entry)

  ghost predicate EvictPre(s: State, sl: Slot) {
    && sl in s.pte && s.pte[sl].Present? && s.pte[sl].page in s.index
    && s.index[s.pte[sl].page] < |s.memMap| && s.memMap[s.index[s.pte[sl].page]] < MAX_SWAP_REF
  }

  function Evict(s: State, sl: Slot): State
    requires sl in s.pte && s.pte[sl].Present? && s.pte[sl].page in s.index
  {
    SetPte(s, sl, Some(Swapped(s.index[s.pte[sl].page])))
  }

  lemma EvictKeeps(s: State, sl: Slot)
    requires Inv(s) && EvictPre(s, sl)
    ensures Inv(Evict(s, sl))
    ensures Legible(s) && Legible(Evict(s, sl)) && View(Evict(s, sl)) == View(s)
  {
    var x := Some(Swapped(s.index[s.pte[sl].page]));
    assert Holds(Cache, s);
    SameObject(s, sl, x.value);
    SetKeeps(s, sl, x, Evict(s, sl));
  }

  /** Replacing an entry by another name of the same object moves nothing a program can see. */
  lemma SameObject(s: State, sl: Slot, x: Pte)
    requires Core(s) && sl in s.pte && Obj(s.index, s.pte[sl]) == Obj(s.index, x)
    requires SetPre(s, sl, Some(x)) && Alone(s, sl, Some(x)) && (sl.User? || x.Swapped?)
    requires x.Present? && sl in s.area ==> Permitted(s.area[sl], x.w)
    ensures MaySet(s, sl, Some(x))
    ensures Legible(s) && Readable(s, x) && View(s).mem[sl] == Content(s, x)
  {
    ObjPut(s.pte, s.index, sl, Some(x));
    assert ObjMap(Put(s.pte, sl, Some(x)), s.index) == ObjMap(s.pte, s.index);
    assert Holds(Sharing, s);
    CoreLegible(s);
    CoreReadable(s, Some(x));
    assert Holds(Cache, s);
  }

  // ---- fault on a swapped-out entry whose page is cached (do_page_fault, after swap_in_page)

  ghost predicate RestorePre(s: State, sl: Slot, w: bool) {
    && sl.User? && sl in s.pte && s.pte[sl].Swapped? && s.pte[sl].entry in s.cache
    && (sl in s.area ==> Permitted(s.area[sl], w))
    && (w && Class(s.area, sl) == None ==>
          s.cache[s.pte[sl].entry] in s.ref && s.ref[s.cache[s.pte[sl].entry]] == 0
          && SwapCount(s, s.cache[s.pte[sl].entry]) == 1)
  }

  function Restore(s: State, sl: Slot, w: bool): State
    requires sl in s.pte && s.pte[sl].Swapped? && s.pte[sl].entry in s.cache
  {
    SetPte(s, sl, Some(Present(s.cache[s.pte[sl].entry], w, false, false)))
  }

  lemma RestoreKeeps(s: State, sl: Slot, w: bool)
    requires Inv(s) && RestorePre(s, sl, w)
    ensures Inv(Restore(s, sl, w))
    ensures Legible(s) && Legible(Restore(s, sl, w)) && View(Restore(s, sl, w)) == View(s)
  {
    var x := Some(Present(s.cache[s.pte[sl].entry], w, false, false));
    assert Holds(Cache, s);
    SameObject(s, sl, x.value);
    SetKeeps(s, sl, x, Restore(s, sl, w));
  }

  // ---- a page fresh from the allocator

  /** memcpy into a page the allocator just handed out. */
  function Fill(s: State, q: Page, v: Data): State {
    s.(data := s.data[q := v])
  }

  lemma FillKeeps(s: State, q: Page, v: Data)
    requires Inv(s) && q in s.free
    ensures Inv(Fill(s, q, v))
    ensures Legible(s) && Legible(Fill(s, q, v)) && View(Fill(s, q, v)) == View(s)
  {
    FillCore(s, q, v);
    CoreLegible(s);
    CoreLegible(Fill(s, q, v));
    assert Holds(Naming, s) && Holds(Cache, s);
    FillClean(s, q, v);
    FillView(s, q, v);
  }

  lemma FillCore(s: State, q: Page, v: Data)
    requires Core(s) && q in s.free
    ensures Core(Fill(s, q, v))
  {
    assert Holds(Shape, s);
    BytesCore(s, Fill(s, q, v));
  }

  /** Only bytes differ, in memory or on the disk. */
  lemma BytesCore(s: State, s': State)
    requires Core(s) && s' == s.(data := s'.data, disk := s'.disk, sent := s'.sent)
    requires s'.data.Keys == s.data.Keys && |s'.disk| == |s.disk|
    ensures Core(s')
  {
    forall c: Clause ensures Holds(c, s') {
      assert Holds(c, s);
      match c {
        case Writers => BytesWriters(s, s');
        case Shape => case Naming => case Refs => case SwapMap => case Cache =>
        case Lists => case Sharing => case ShmBits => case Perms =>
      }
    }
  }

  lemma BytesWriters(s: State, s': State)
    requires SoleWriter(s) && s' == s.(data := s'.data, disk := s'.disk, sent := s'.sent)
    ensures SoleWriter(s')
  {
    forall y | Writes(s', y)
      ensures s'.pte[y].page in s'.ref && s'.ref[s'.pte[y].page] + SwapCount(s', s'.pte[y].page) == 1
    {
      assert Writes(s, y);
    }
  }

  lemma FillClean(s: State, q: Page, v: Data)
    requires CacheOk(s) && q in s.free && Clean(s, InFlight(s))
    ensures Clean(Fill(s, q, v), InFlight(s))
  {
    var s' := Fill(s, q, v);
    forall p | p in s'.index && p !in InFlight(s) && p in s'.data && s'.index[p] < |s'.disk|
      ensures s'.data[p] == s'.disk[s'.index[p]] || MarkedDirty(s', p)
    {
      assert MarkedDirty(s, p) ==> MarkedDirty(s', p);
    }
  }

  lemma FillView(s: State, q: Page, v: Data)
    requires Legible(s) && Legible(Fill(s, q, v)) && Named(s) && CacheOk(s) && q in s.free
    ensures View(Fill(s, q, v)) == View(s)
  {
    forall sl | sl in s.pte ensures Content(Fill(s, q, v), s.pte[sl]) == Content(s, s.pte[sl]) {
      assert s.pte[sl].Present? ==> s.pte[sl].page != q;
    }
  }

  ghost predicate FreshPre(s: State, sl: Slot, q: Page, w: bool) {
    && q in s.free
    && ((sl.User? && sl in s.area && Class(s.area, sl) == None && (w ==> s.area[sl].write)) || (sl.Shm? && sl !in s.pte && !w))
  }

  function Fresh(s: State, sl: Slot, q: Page, w: bool): State {
    SetPte(s, sl, Some(Present(q, w, false, false)))
  }

  lemma FreshMay(s: State, sl: Slot, q: Page, w: bool)
    requires Core(s) && FreshPre(s, sl, q, w)
    ensures MaySet(s, sl, Some(Present(q, w, false, false)))
    ensures q in s.data
  {
    var x := Present(q, w, false, false);
    assert Holds(Naming, s) && Holds(Cache, s) && Holds(Shape, s) && Holds(Refs, s) && Holds(Sharing, s);
    FreeIsFresh(s, q);
    FreeCount(s, q);
    ObjPut(s.pte, s.index, sl, Some(x));
    var o := ObjMap(s.pte, s.index);
    if sl.User? {
      CohReplace(o, s.area, sl, Frame(q));
    } else {
      CohNew(o, s.area, sl, Frame(q));
    }
  }

  lemma FreshKeeps(s: State, sl: Slot, q: Page, w: bool)
    requires Inv(s) && FreshPre(s, sl, q, w)
    ensures Inv(Fresh(s, sl, q, w)) && q in s.data
    ensures Legible(s) && Legible(Fresh(s, sl, q, w))
    ensures View(Fresh(s, sl, q, w)) == View(s).(mem := View(s).mem[sl := s.data[q]])
  {
    FreshMay(s, sl, q, w);
    SetKeeps(s, sl, Some(Present(q, w, false, false)), Fresh(s, sl, q, w));
  }

  // ---- copy-on-write, from a present or a swapped-out entry

  ghost predicate CopyPre(s: State, sl: Slot, q: Page) {
    && sl.User? && sl in s.pte && sl in s.area && s.area[sl].write && Class(s.area, sl) == None
    && q in s.free && Readable(s, s.pte[sl])
  }

  function Copy(s: State, sl: Slot, q: Page): State
    requires sl in s.pte && Readable(s, s.pte[sl])
  {
    Fresh(Fill(s, q, Content(s, s.pte[sl])), sl, q, true)
  }

  lemma CopyKeeps(s: State, sl: Slot, q: Page)
    requires Inv(s) && CopyPre(s, sl, q)
    ensures Inv(Copy(s, sl, q))
    ensures Legible(s) && Legible(Copy(s, sl, q)) && View(Copy(s, sl, q)) == View(s)
  {
    var v := Content(s, s.pte[sl]);
    CoreLegible(s);
    assert View(s).mem[sl] == v;
    FillKeeps(s, q, v);
    FreshKeeps(Fill(s, q, v), sl, q, true);
  }

  // ---- mapping a shared-memory page

  /** The page an entry gives access to: its own, or the cached page of its swap entry. */
  function PageOf(s: State, x: Pte): Page
    requires x.Present? || x.entry in s.cache
  {
    if x.Present? then x.page else s.cache[x.entry]
  }

  ghost predicate AttachPre(s: State, sl: Slot) {
    && sl.User? && sl !in s.pte && sl in s.area && s.area[sl].Shared? && s.area[sl].shm in s.pte
    && (s.pte[s.area[sl].shm].Present? || s.pte[s.area[sl].shm].entry in s.cache)
  }

  function Attach(s: State, sl: Slot): State
    requires sl in s.area && s.area[sl].Shared? && s.area[sl].shm in s.pte
    requires s.pte[s.area[sl].shm].Present? || s.pte[s.area[sl].shm].entry in s.cache
  {
    SetPte(s, sl, Some(Present(PageOf(s, s.pte[s.area[sl].shm]), s.area[sl].write, false, false)))
  }

  /** A shared object is never a private writable page. */
  lemma SharedUnowned(s: State, sh: Slot, y: Slot)
    requires Core(s) && sh in s.pte && sh.Shm? && Writes(s, y)
    ensures Obj(s.index, s.pte[y]) != Obj(s.index, s.pte[sh])
  {
    assert Holds(Sharing, s);
    var o := ObjMap(s.pte, s.index);
    assert y in o && sh in o;
  }

  lemma AttachMay(s: State, sl: Slot, x: Pte)
    requires Core(s) && AttachPre(s, sl)
    requires x == Present(PageOf(s, s.pte[s.area[sl].shm]), s.area[sl].write, false, false)
    ensures MaySet(s, sl, Some(x)) && Readable(s, x) && Readable(s, s.pte[s.area[sl].shm])
    ensures Content(s, x) == Content(s, s.pte[s.area[sl].shm])
  {
    var sh := s.area[sl].shm;
    assert Holds(Shape, s) && Holds(Cache, s) && Holds(Sharing, s) && Holds(Naming, s);
    assert Obj(s.index, x) == Obj(s.index, s.pte[sh]);
    forall y | y != sl && Writes(s, y) ensures Obj(s.index, s.pte[y]) != Obj(s.index, x) {
      SharedUnowned(s, sh, y);
    }
    ObjPut(s.pte, s.index, sl, Some(x));
    CohJoin(ObjMap(s.pte, s.index), s.area, sl, sh);
  }

  lemma AttachKeeps(s: State, sl: Slot)
    requires Inv(s) && AttachPre(s, sl)
    ensures Inv(Attach(s, sl))
    ensures Legible(s) && Legible(Attach(s, sl))
    ensures View(Attach(s, sl)) == View(s).(mem := View(s).mem[sl := View(s).mem[s.area[sl].shm]])
  {
    var x := Present(PageOf(s, s.pte[s.area[sl].shm]), s.area[sl].write, false, false);
    AttachMay(s, sl, x);
    SetKeeps(s, sl, Some(x), Attach(s, sl));
  }

  // ---- changing only the permission and access bits of an entry

  function Flag(s: State, sl: Slot, w: bool, a: bool, d: bool): State
    requires sl in s.pte && s.pte[sl].Present?
  {
    s.(pte := s.pte[sl := Present(s.pte[sl].page, w, a, d)])
  }

  ghost predicate FlagPre(s: State, sl: Slot, w: bool) {
    && sl in s.pte && s.pte[sl].Present? && sl.User? && (sl in s.area && w != s.pte[sl].w ==> Permitted(s.area[sl], w))
    && (w && !s.pte[sl].w && Class(s.area, sl) == None ==>
          s.pte[sl].page in s.ref && s.ref[s.pte[sl].page] + SwapCount(s, s.pte[sl].page) == 1)
  }

  lemma FlagCore(s: State, sl: Slot, w: bool, a: bool, d: bool, s': State)
    requires Core(s) && FlagPre(s, sl, w) && s' == Flag(s, sl, w, a, d)
    ensures Core(s')
  {
    forall c: Clause ensures Holds(c, s') {
      assert Holds(c, s);
      match c {
        case Refs =>
          forall p | p in s.ref ensures s'.ref[p] == Count(s'.pte, Frame(p)) { FlagCount(s, sl, w, a, d, Frame(p)); }
        case SwapMap =>
          forall e | 0 < e < |s.memMap| && s.memMap[e] != SWAP_UNUSED
            ensures s'.memMap[e] <= MAX_SWAP_REF && s'.memMap[e] == Count(s'.pte, Backing(e)) + Pin(s', e)
          {
            FlagCount(s, sl, w, a, d, Backing(e));
            assert Pin(s', e) == Pin(s, e);
          }
        case Sharing => assert ObjMap(s'.pte, s'.index) == ObjMap(s.pte, s.index);
        case Writers => FlagWriters(s, sl, w, a, d, s');
        case Shape => case Naming => case Cache => case Lists => case ShmBits => case Perms =>
      }
    }
  }

  lemma FlagWriters(s: State, sl: Slot, w: bool, a: bool, d: bool, s': State)
    requires SoleWriter(s) && FlagPre(s, sl, w) && s' == Flag(s, sl, w, a, d)
    ensures SoleWriter(s')
  {
    forall y | Writes(s', y)
      ensures s'.pte[y].page in s'.ref && s'.ref[s'.pte[y].page] + SwapCount(s', s'.pte[y].page) == 1
    {
      assert y != sl ==> Writes(s, y);
      assert y == sl && s.pte[sl].w ==> Writes(s, y);
    }
  }

  lemma FlagCount(s: State, sl: Slot, w: bool, a: bool, d: bool, t: Target)
    requires sl in s.pte && s.pte[sl].Present?
    ensures Count(Flag(s, sl, w, a, d).pte, t) == Count(s.pte, t)
  {
    CountPut(s.pte, sl, Some(Present(s.pte[sl].page, w, a, d)), t);
  }

  lemma FlagClean(s: State, sl: Slot, w: bool, a: bool, d: bool, s': State, exempt: set<Page>)
    requires sl in s.pte && s.pte[sl].Present? && s' == Flag(s, sl, w, a, d) && Clean(s, exempt)
    ensures Clean(s', exempt + if s.pte[sl].d && !d then {s.pte[sl].page} else {})
  {
    var more := exempt + if s.pte[sl].d && !d then {s.pte[sl].page} else {};
    forall p | p in s'.index && p !in more && p in s'.data && s'.index[p] < |s'.disk|
      ensures s'.data[p] == s'.disk[s'.index[p]] || MarkedDirty(s', p)
    {
      if s.data[p] != s.disk[s.index[p]] && p !in s.dirty {
        var y :| y in s.pte && s.pte[y].Present? && s.pte[y].page == p && s.pte[y].d;
        assert y in s'.pte && s'.pte[y].d;
      }
    }
  }

  lemma FlagView(s: State, sl: Slot, w: bool, a: bool, d: bool)
    requires sl in s.pte && s.pte[sl].Present? && Legible(s)
    ensures Legible(Flag(s, sl, w, a, d)) && View(Flag(s, sl, w, a, d)) == View(s)
  {}

  lemma FlagKeeps(s: State, sl: Slot, w: bool, a: bool, d: bool)
    requires Inv(s) && FlagPre(s, sl, w) && (s.pte[sl].d ==> d)
    ensures Inv(Flag(s, sl, w, a, d))
    ensures Legible(s) && Legible(Flag(s, sl, w, a, d)) && View(Flag(s, sl, w, a, d)) == View(s)
  {
    FlagCore(s, sl, w, a, d, Flag(s, sl, w, a, d));
    FlagClean(s, sl, w, a, d, Flag(s, sl, w, a, d), InFlight(s));
    CoreLegible(s);
    FlagView(s, sl, w, a, d);
  }

  // ---- fork: copy_range on one entry

  ghost predicate ForkPre(s: State, sl: Slot, child: Slot) {
    && sl.User? && child.User? && sl in s.pte && child !in s.pte
    && sl in s.area && child in s.area && s.area[child] == s.area[sl]
    && (s.pte[sl].Swapped? ==> s.pte[sl].entry < |s.memMap| && s.memMap[s.pte[sl].entry] < MAX_SWAP_REF)
  }

  /** Take PTE_W away from a private parent entry; PTE_A and PTE_D stay. */
  function Protect(s: State, sl: Slot): State
    requires sl in s.pte
  {
    if s.pte[sl].Present? && s.pte[sl].w && Class(s.area, sl) == None
    then Flag(s, sl, false, s.pte[sl].a, s.pte[sl].d) else s
  }

  function ChildPte(s: State, sl: Slot): Pte
    requires sl in s.pte
  {
    match s.pte[sl]
    case Present(p, w, _, _) => Present(p, w, false, false)
    case Swapped(e) => Swapped(e)
  }

  function Fork(s: State, sl: Slot, child: Slot): State
    requires sl in s.pte
  {
    SetPte(Protect(s, sl), child, Some(ChildPte(Protect(s, sl), sl)))
  }

  lemma ProtectKeeps(s: State, sl: Slot, child: Slot)
    requires Inv(s) && ForkPre(s, sl, child)
    ensures Inv(Protect(s, sl)) && ForkPre(Protect(s, sl), sl, child) && !Writes(Protect(s, sl), sl)
    ensures Legible(s) && Legible(Protect(s, sl)) && View(Protect(s, sl)) == View(s)
  {
    if s.pte[sl].Present? && s.pte[sl].w && Class(s.area, sl) == None {
      FlagKeeps(s, sl, false, s.pte[sl].a, s.pte[sl].d);
    } else {
      CoreLegible(s);
    }
  }

  lemma ForkUnowned(s: State, sl: Slot, child: Slot)
    requires Core(s) && ForkPre(s, sl, child) && !Writes(s, sl)
    ensures Unowned(s, child, Some(ChildPte(s, sl)))
  {
    forall y | y != child && Writes(s, y) ensures Obj(s.index, s.pte[y]) != Obj(s.index, ChildPte(s, sl)) {
      assert Holds(Naming, s) && Holds(Refs, s) && Holds(SwapMap, s) && Holds(Cache, s) && Holds(Writers, s);
      WriterIsAlone(s, y, sl);
    }
  }

  lemma ForkMay(s: State, sl: Slot, child: Slot)
    requires Core(s) && ForkPre(s, sl, child) && !Writes(s, sl)
    ensures MaySet(s, child, Some(ChildPte(s, sl)))
    ensures Readable(s, s.pte[sl]) && Readable(s, ChildPte(s, sl)) && Content(s, ChildPte(s, sl)) == Content(s, s.pte[sl])
  {
    var x := ChildPte(s, sl);
    CoreLegible(s);
    ForkUnowned(s, sl, child);
    assert Holds(Shape, s) && Holds(Naming, s) && Holds(Sharing, s) && Holds(Perms, s);
    ObjPut(s.pte, s.index, child, Some(x));
    CohJoin(ObjMap(s.pte, s.index), s.area, child, sl);
  }

  lemma ForkKeeps(s: State, sl: Slot, child: Slot)
    requires Inv(s) && ForkPre(s, sl, child)
    ensures Inv(Fork(s, sl, child))
    ensures Legible(s) && Legible(Fork(s, sl, child))
    ensures View(Fork(s, sl, child)) == View(s).(mem := View(s).mem[child := View(s).mem[sl]])
  {
    var s1 := Protect(s, sl);
    ProtectKeeps(s, sl, child);
    ForkMay(s1, sl, child);
    SetKeeps(s1, child, Some(ChildPte(s1, sl)), Fork(s, sl, child));
  }

  // ---- clearing an entry (page_remove_pte, shmem_remove_entry_pte)

  /** A shared-memory node goes only after the last area that maps it. */
  ghost predicate DropPre(s: State, sl: Slot) {
    sl in s.pte && (sl.Shm? ==> forall u :: u in s.area && s.area[u].Shared? ==> s.area[u].shm != sl)
  }

  function Drop(s: State, sl: Slot): State {
    SetPte(s, sl, None)
  }

  lemma DropKeeps(s: State, sl: Slot)
    requires Inv(s) && DropPre(s, sl)
    ensures Inv(Drop(s, sl))
    ensures Legible(s) && Legible(Drop(s, sl)) && View(Drop(s, sl)) == View(s).(mem := View(s).mem - {sl})
  {
    assert Holds(Sharing, s) && Holds(Shape, s);
    ObjPut(s.pte, s.index, sl, None);
    CohDrop(ObjMap(s.pte, s.index), s.area, sl);
    SetKeeps(s, sl, None, Drop(s, sl));
  }

  // ---- stores

  /** The processor stores through a writable entry and sets PTE_A and PTE_D. */
  function Store(s: State, sl: Slot, v: Data): State
    requires sl in s.pte && s.pte[sl].Present?
  {
    var s1 := Flag(s, sl, s.pte[sl].w, true, true);
    s1.(data := s1.data[s.pte[sl].page := v])
  }

  /** The slots that must see a store: the slot itself, and every entry of the same shared-memory page. */
  predicate Sees(area: map<Slot, Area>, sl: Slot, y: Slot) {
    y == sl || (Class(area, sl).Some? && Class(area, y) == Class(area, sl))
  }

  function StoreMem(m: map<Slot, Data>, area: map<Slot, Area>, sl: Slot, v: Data): map<Slot, Data> {
    map y | y in m :: if Sees(area, sl, y) then v else m[y]
  }

  lemma StoreCore(s: State, sl: Slot, v: Data)
    requires Core(s) && sl in s.pte && s.pte[sl].Present? && sl.User?
    ensures Core(Store(s, sl, v))
  {
    var s1 := Flag(s, sl, s.pte[sl].w, true, true);
    FlagCore(s, sl, s.pte[sl].w, true, true, s1);
    assert Holds(Naming, s) && Holds(Shape, s);
    assert s.pte[sl].page in s.data;
    forall c: Clause ensures Holds(c, Store(s, sl, v)) {
      assert Holds(c, s1);
      match c {
        case Shape => case Naming => case Refs => case SwapMap => case Cache =>
        case Lists => case Writers => case Sharing => case ShmBits => case Perms =>
      }
    }
  }

  /** After the store the page is marked through its own entry, whatever it was before. */
  lemma StoreClean(s: State, sl: Slot, v: Data, exempt: set<Page>)
    requires sl in s.pte && s.pte[sl].Present? && Clean(s, exempt + {s.pte[sl].page})
    ensures Clean(Store(s, sl, v), exempt)
  {
    var s' := Store(s, sl, v);
    var q := s.pte[sl].page;
    assert s'.pte[sl].d && s'.pte[sl].page == q;
    forall p | p in s'.index && p !in exempt && p in s'.data && s'.index[p] < |s'.disk|
      ensures s'.data[p] == s'.disk[s'.index[p]] || MarkedDirty(s', p)
    {
      if p != q && s.data[p] != s.disk[s.index[p]] && p !in s.dirty {
        var y :| y in s.pte && s.pte[y].Present? && s.pte[y].page == p && s.pte[y].d;
        assert y in s'.pte && s'.pte[y].d;
      }
    }
  }

  /** Two entries stand for one page exactly when a store through the writable one must show in the other. */
  lemma StoreReach(s: State, sl: Slot, y: Slot)
    requires Core(s) && sl in s.pte && s.pte[sl].Present? && s.pte[sl].w && sl.User? && y in s.pte
    ensures Obj(s.index, s.pte[y]) == Obj(s.index, s.pte[sl]) <==> Sees(s.area, sl, y)
  {
    assert Holds(Sharing, s) && Holds(Shape, s);
    var o := ObjMap(s.pte, s.index);
    assert sl in o && y in o;
    if Class(s.area, sl) == None {
      if y != sl {
        assert Holds(Naming, s) && Holds(Refs, s) && Holds(SwapMap, s) && Holds(Cache, s) && Holds(Writers, s);
        WriterIsAlone(s, sl, y);
      }
    } else {
      var sh := s.area[sl].shm;
      assert sh in o && o[sl] == o[sh];
    }
  }

  lemma StoreContent(s: State, sl: Slot, v: Data, y: Slot)
    requires Core(s) && sl in s.pte && s.pte[sl].Present? && y in s.pte
    ensures Readable(s, s.pte[y]) && Readable(Store(s, sl, v), Store(s, sl, v).pte[y])
    ensures Content(Store(s, sl, v), Store(s, sl, v).pte[y]) ==
            if Obj(s.index, s.pte[y]) == Obj(s.index, s.pte[sl]) then v else Content(s, s.pte[y])
  {
    CoreLegible(s);
    assert Holds(Cache, s) && Holds(Naming, s);
  }

  lemma StoreKeeps(s: State, sl: Slot, v: Data)
    requires Core(s) && sl in s.pte && s.pte[sl].Present? && s.pte[sl].w && sl.User?
    requires Clean(s, InFlight(s) + {s.pte[sl].page})
    ensures Inv(Store(s, sl, v))
    ensures Legible(s) && Legible(Store(s, sl, v))
    ensures View(Store(s, sl, v)) == View(s).(mem := StoreMem(View(s).mem, s.area, sl, v))
  {
    var s' := Store(s, sl, v);
    StoreCore(s, sl, v);
    StoreClean(s, sl, v, InFlight(s));
    CoreLegible(s);
    CoreLegible(s');
    forall y | y in s.pte
      ensures Content(s', s'.pte[y]) == if Sees(s.area, sl, y) then v else Content(s, s.pte[y])
    {
      StoreReach(s, sl, y);
      StoreContent(s, sl, v, y);
    }
  }

  // ---- a write fault that keeps its page (do_page_fault when the page has one reference)

  ghost predicate ReusePre(s: State, sl: Slot) {
    && sl.User? && sl in s.pte && s.pte[sl].Present? && !s.pte[sl].w && Class(s.area, sl) == None
    && sl in s.area && s.area[sl].write
    && s.pte[sl].page in s.ref && s.ref[s.pte[sl].page] + SwapCount(s, s.pte[sl].page) == 1
  }

  /** page_insert of the page that is already there: PTE_W is set, PTE_A and PTE_D are lost. */
  function Reuse(s: State, sl: Slot): State
    requires sl in s.pte && s.pte[sl].Present?
  {
    Flag(s, sl, true, false, false)
  }

  /** The fault together with the store it retries. */
  function ReuseStore(s: State, sl: Slot, v: Data): State
    requires sl in s.pte && s.pte[sl].Present?
  {
    Store(Reuse(s, sl), sl, v)
  }

  lemma ReuseStoreKeeps(s: State, sl: Slot, v: Data)
    requires Inv(s) && ReusePre(s, sl)
    ensures Inv(ReuseStore(s, sl, v))
    ensures Legible(s) && Legible(ReuseStore(s, sl, v))
    ensures View(ReuseStore(s, sl, v)) == View(s).(mem := StoreMem(View(s).mem, s.area, sl, v))
  {
    var s1 := Reuse(s, sl);
    FlagCore(s, sl, true, false, false, s1);
    FlagClean(s, sl, true, false, false, s1, InFlight(s));
    CoreLegible(s);
    FlagView(s, sl, true, false, false);
    assert Clean(s1, InFlight(s1) + {s1.pte[sl].page});
    StoreKeeps(s1, sl, v);
  }

  /** When the fault alone, before the store is retried, forgets that its page differs from the disk. */
  ghost predicate Forgets(s: State, sl: Slot)
    requires sl in s.pte && s.pte[sl].Present?
  {
    var p := s.pte[sl].page;
    && s.pte[sl].d && p in s.index && p !in s.dirty && p !in InFlight(s)
    && p in s.data && s.index[p] < |s.disk| && s.data[p] != s.disk[s.index[p]]
  }

  /** The bare fault keeps the invariant exactly when it does not forget. */
  lemma ReuseExact(s: State, sl: Slot)
    requires Inv(s) && ReusePre(s, sl)
    ensures Inv(Reuse(s, sl)) <==> !Forgets(s, sl)
  {
    var s1 := Reuse(s, sl);
    var p := s.pte[sl].page;
    FlagCore(s, sl, true, false, false, s1);
    FlagClean(s, sl, true, false, false, s1, InFlight(s));
    assert Holds(Refs, s);
    if Forgets(s, sl) {
      forall y | y in s1.pte && s1.pte[y].Present? && s1.pte[y].page == p ensures !s1.pte[y].d {
        CountOne(s.pte, Frame(p), sl, y);
      }
    } else if s.pte[sl].d && p in s.index && p !in InFlight(s) {
      assert MarkedDirty(s1, p) || p !in s.dirty;
    }
  }
}

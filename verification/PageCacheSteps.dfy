/** Steps of the swap cache: giving pages swap entries and taking them back, the two lists, page_launder, swap_in_page. */
module PageCacheSteps {
  import opened Lists
  import opened PageState
  import opened PageSteps
  import opened PageEntrySteps

  lemma AppendDistinct(q: seq<Page>, p: Page)
    requires Distinct(q) && p !in q
    ensures Distinct(q + [p])
    ensures forall x :: x in q + [p] <==> x in q || x == p
  {}

  // ---- the two lists

  /** Move a page to the tail of one of the lists and set PG_active to match. */
  function Move(s: State, p: Page, hot: bool): State {
    var a, i := Without(s.active, p), Without(s.inactive, p);
    if hot then s.(active := a + [p], inactive := i, hot := s.hot + {p})
    else s.(active := a, inactive := i + [p], hot := s.hot - {p})
  }

  lemma MoveLists(s: State, p: Page, hot: bool)
    requires ListsOk(s) && p in s.index && s.laundering != Some(p)
    ensures ListsOk(Move(s, p, hot))
  {
    if hot {
      MoveHot(s, p);
    } else {
      MoveCold(s, p);
    }
  }

  lemma MoveHot(s: State, p: Page)
    requires ListsOk(s) && p in s.index && s.laundering != Some(p)
    ensures ListsOk(Move(s, p, true))
  {
    WithoutAll(s.active, p);
    WithoutAll(s.inactive, p);
    AppendDistinct(Without(s.active, p), p);
  }

  lemma MoveCold(s: State, p: Page)
    requires ListsOk(s) && p in s.index && s.laundering != Some(p)
    ensures ListsOk(Move(s, p, false))
  {
    WithoutAll(s.active, p);
    WithoutAll(s.inactive, p);
    AppendDistinct(Without(s.inactive, p), p);
  }

  lemma MoveCore(s: State, p: Page, hot: bool, s': State)
    requires Core(s) && p in s.index && s.laundering != Some(p) && s' == Move(s, p, hot)
    ensures Core(s')
  {
    forall c: Clause ensures Holds(c, s') {
      assert Holds(c, s);
      match c {
        case Lists => MoveLists(s, p, hot);
        case Shape => case Naming => case Refs => case SwapMap => case Cache =>
        case Writers => case Sharing => case ShmBits => case Perms =>
      }
    }
  }

  lemma MoveKeeps(s: State, p: Page, hot: bool)
    requires Inv(s) && p in s.index && s.laundering != Some(p)
    ensures Inv(Move(s, p, hot))
    ensures Legible(s) && Legible(Move(s, p, hot)) && View(Move(s, p, hot)) == View(s)
  {
    MoveCore(s, p, hot, Move(s, p, hot));
    CoreLegible(s);
    CoreLegible(Move(s, p, hot));
  }

  // ---- taking a page out of the cache (entry stealing, page_launder, swap_remove_entry)

  /** Either nobody names the entry, which becomes unused, or nobody maps the page and the disk has its bytes. */
  ghost predicate UncachePre(s: State, p: Page, unused: bool) {
    && p in s.index && p in s.ref && s.laundering != Some(p) && s.index[p] < |s.memMap|
    && if unused then s.memMap[s.index[p]] == 0
       else s.memMap[s.index[p]] > 0 && s.ref[p] == 0 && p !in s.dirty
  }

  function Uncache(s: State, p: Page, unused: bool): State
    requires p in s.index && p in s.ref && s.index[p] < |s.memMap|
  {
    var e := s.index[p];
    var gone := s.ref[p] == 0;
    s.(active := Without(s.active, p), inactive := Without(s.inactive, p),
       index := s.index - {p}, cache := s.cache - {e},
       memMap := if unused then s.memMap[e := SWAP_UNUSED] else s.memMap,
       free := if gone then s.free + {p} else s.free,
       dirty := if gone then s.dirty - {p} else s.dirty,
       hot := if gone then s.hot - {p} else s.hot)
  }

  /** What is cached, unnamed and unmapped can be dropped; what is cached and differs from disk is marked. */
  lemma UncacheFacts(s: State, p: Page, unused: bool)
    requires Inv(s) && UncachePre(s, p, unused)
    ensures unused ==> forall y :: y in s.pte ==> s.pte[y] != Swapped(s.index[p])
    ensures s.ref[p] == 0 ==> forall y :: y in s.pte && s.pte[y].Present? ==> s.pte[y].page != p
    ensures !unused ==> p in s.data && s.index[p] < |s.disk| && s.data[p] == s.disk[s.index[p]]
  {
    UncacheNobody(s, p, unused);
    if !unused {
      UncacheStored(s, p);
    }
  }

  lemma UncacheNobody(s: State, p: Page, unused: bool)
    requires Core(s) && UncachePre(s, p, unused)
    ensures unused ==> forall y :: y in s.pte ==> s.pte[y] != Swapped(s.index[p])
    ensures s.ref[p] == 0 ==> forall y :: y in s.pte && s.pte[y].Present? ==> s.pte[y].page != p
  {
    assert Holds(Refs, s) && Holds(SwapMap, s) && Holds(Cache, s);
    CountZero(s.pte, Backing(s.index[p]));
    CountZero(s.pte, Frame(p));
  }

  lemma UncacheStored(s: State, p: Page)
    requires Inv(s) && UncachePre(s, p, false)
    ensures p in s.data && s.index[p] < |s.disk| && s.data[p] == s.disk[s.index[p]]
  {
    UncacheNobody(s, p, false);
    assert Holds(Shape, s);
    assert !MarkedDirty(s, p);
  }

  lemma UncacheCore(s: State, p: Page, unused: bool, s': State)
    requires Core(s) && UncachePre(s, p, unused) && s' == Uncache(s, p, unused)
    requires unused ==> forall y :: y in s.pte ==> s.pte[y] != Swapped(s.index[p])
    requires s.ref[p] == 0 ==> forall y :: y in s.pte && s.pte[y].Present? ==> s.pte[y].page != p
    ensures Core(s')
  {
    forall c: Clause ensures Holds(c, s') {
      assert Holds(c, s);
      match c {
        case Lists => UncacheLists(s, p, unused, s');
        case SwapMap => UncacheMap(s, p, unused, s');
        case Naming => UncacheNamed(s, p, unused, s');
        case Cache => UncacheCache(s, p, unused, s');
        case Writers =>
          assert Holds(Cache, s);
          UncacheWriters(s, p, unused, s');
        case Sharing =>
          assert Holds(Shape, s) && Holds(Cache, s);
          UncacheSharing(s, p, unused, s');
        case Shape => case Refs => case ShmBits => case Perms =>
      }
    }
  }

  lemma UncacheMap(s: State, p: Page, unused: bool, s': State)
    requires MapExact(s) && UncachePre(s, p, unused) && s' == Uncache(s, p, unused)
    ensures MapExact(s')
  {
    forall e | 0 < e < |s'.memMap| && s'.memMap[e] != SWAP_UNUSED
      ensures s'.memMap[e] <= MAX_SWAP_REF && s'.memMap[e] == Count(s'.pte, Backing(e)) + Pin(s', e)
    {
      assert Pin(s', e) == Pin(s, e);
    }
  }

  lemma UncacheNamed(s: State, p: Page, unused: bool, s': State)
    requires Named(s) && UncachePre(s, p, unused) && s' == Uncache(s, p, unused)
    requires unused ==> forall y :: y in s.pte ==> s.pte[y] != Swapped(s.index[p])
    requires s.ref[p] == 0 ==> forall y :: y in s.pte && s.pte[y].Present? ==> s.pte[y].page != p
    ensures Named(s')
  {}

  lemma UncacheLists(s: State, p: Page, unused: bool, s': State)
    requires ListsOk(s) && UncachePre(s, p, unused) && s' == Uncache(s, p, unused)
    ensures ListsOk(s')
  {
    WithoutAll(s.active, p);
    WithoutAll(s.inactive, p);
  }

  lemma UncacheCache(s: State, p: Page, unused: bool, s': State)
    requires CacheOk(s) && UncachePre(s, p, unused) && s' == Uncache(s, p, unused)
    ensures CacheOk(s')
  {}

  lemma UncacheWriters(s: State, p: Page, unused: bool, s': State)
    requires SoleWriter(s) && CacheOk(s) && UncachePre(s, p, unused) && s' == Uncache(s, p, unused)
    requires s.ref[p] == 0 ==> forall y :: y in s.pte && s.pte[y].Present? ==> s.pte[y].page != p
    ensures SoleWriter(s')
  {
    forall y | Writes(s', y)
      ensures s'.pte[y].page in s'.ref && s'.ref[s'.pte[y].page] + SwapCount(s', s'.pte[y].page) == 1
    {
      assert Writes(s, y);
    }
  }

  lemma UncacheSharing(s: State, p: Page, unused: bool, s': State)
    requires Coherent(s) && AreasOk(s.area) && CacheOk(s) && UncachePre(s, p, unused) && s' == Uncache(s, p, unused)
    requires unused ==> forall y :: y in s.pte ==> s.pte[y] != Swapped(s.index[p])
    requires s.ref[p] == 0 ==> forall y :: y in s.pte && s.pte[y].Present? ==> s.pte[y].page != p
    ensures Coherent(s')
  {
    var o, o' := ObjMap(s.pte, s.index), ObjMap(s'.pte, s'.index);
    if unused {
      CohRename(o, s.area, o', Backing(s.index[p]), Frame(p));
    } else {
      assert o' == o;
    }
  }

  lemma UncacheView(s: State, p: Page, unused: bool, s': State)
    requires Legible(s) && Legible(s') && UncachePre(s, p, unused) && s' == Uncache(s, p, unused) && CacheOk(s)
    requires unused ==> forall y :: y in s.pte ==> s.pte[y] != Swapped(s.index[p])
    requires !unused ==> p in s.data && s.index[p] < |s.disk| && s.data[p] == s.disk[s.index[p]]
    ensures View(s') == View(s)
  {
    forall y | y in s.pte ensures Content(s', s.pte[y]) == Content(s, s.pte[y]) {}
  }

  lemma UncacheClean(s: State, p: Page, unused: bool, s': State)
    requires UncachePre(s, p, unused) && s' == Uncache(s, p, unused) && Clean(s, InFlight(s))
    ensures Clean(s', InFlight(s'))
  {
    forall x | x in s'.index && x !in InFlight(s') && x in s'.data && s'.index[x] < |s'.disk|
      ensures s'.data[x] == s'.disk[s'.index[x]] || MarkedDirty(s', x)
    {
      assert MarkedDirty(s, x) ==> MarkedDirty(s', x);
    }
  }

  lemma UncacheKeeps(s: State, p: Page, unused: bool)
    requires Inv(s) && UncachePre(s, p, unused)
    ensures Inv(Uncache(s, p, unused))
    ensures Legible(s) && Legible(Uncache(s, p, unused)) && View(Uncache(s, p, unused)) == View(s)
  {
    var s' := Uncache(s, p, unused);
    UncacheFacts(s, p, unused);
    UncacheCore(s, p, unused, s');
    UncacheClean(s, p, unused, s');
    CoreLegible(s);
    CoreLegible(s');
    assert Holds(Cache, s);
    UncacheView(s, p, unused, s');
  }

  // ---- giving a page a swap entry: swap_page_add with a new entry, and swap_in_page

  /** `load` is swap_in_page (a free page for an entry in use); otherwise a mapped page gets an unused entry. */
  ghost predicate AdoptPre(s: State, p: Page, e: Entry, load: bool) {
    && p in s.ref && p !in s.index && 0 < e < |s.memMap|
    && if load then p in s.free && s.memMap[e] != SWAP_UNUSED && e !in s.cache
       else p !in s.free && s.memMap[e] == SWAP_UNUSED
  }

  function Adopt(s: State, p: Page, e: Entry, load: bool): State
    requires 0 < e < |s.memMap| && (load ==> e < |s.disk|)
  {
    s.(index := s.index[p := e], cache := s.cache[e := p],
       active := s.active + [p], hot := s.hot + {p},
       memMap := if load then s.memMap else s.memMap[e := 0],
       dirty := if load then s.dirty else s.dirty + {p},
       free := s.free - {p},
       data := if load then s.data[p := s.disk[e]] else s.data)
  }

  lemma AdoptFacts(s: State, p: Page, e: Entry, load: bool)
    requires Core(s) && AdoptPre(s, p, e, load)
    ensures e !in s.cache && (load ==> e < |s.disk|)
    ensures forall q :: q in s.index ==> s.index[q] != e
    ensures !load ==> forall y :: y in s.pte ==> s.pte[y] != Swapped(e)
    ensures load ==> forall y :: y in s.pte && s.pte[y].Present? ==> s.pte[y].page != p
  {
    assert Holds(Shape, s) && Holds(Cache, s) && Holds(Naming, s);
    assert forall y :: y in s.pte && s.pte[y].Swapped? ==> s.memMap[s.pte[y].entry] != SWAP_UNUSED;
  }

  ghost predicate Apart(s: State, p: Page, e: Entry, load: bool) {
    && e !in s.cache && (load ==> e < |s.disk|)
    && (forall q :: q in s.index ==> s.index[q] != e)
    && (!load ==> forall y :: y in s.pte ==> s.pte[y] != Swapped(e))
    && (load ==> forall y :: y in s.pte && s.pte[y].Present? ==> s.pte[y].page != p)
  }

  lemma AdoptCore(s: State, p: Page, e: Entry, load: bool, s': State)
    requires Core(s) && AdoptPre(s, p, e, load) && Apart(s, p, e, load) && s' == Adopt(s, p, e, load)
    ensures Core(s')
  {
    forall c: Clause ensures Holds(c, s') {
      assert Holds(c, s);
      match c {
        case Lists => AdoptLists(s, p, e, load, s');
        case SwapMap =>
          assert Holds(Lists, s);
          AdoptMap(s, p, e, load, s');
        case Naming => AdoptNamed(s, p, e, load, s');
        case Cache => AdoptCache(s, p, e, load, s');
        case Writers => AdoptWriters(s, p, e, load, s');
        case Sharing =>
          assert Holds(Shape, s);
          AdoptSharing(s, p, e, load, s');
        case Shape => case Refs => case ShmBits => case Perms =>
      }
    }
  }

  lemma AdoptLists(s: State, p: Page, e: Entry, load: bool, s': State)
    requires ListsOk(s) && AdoptPre(s, p, e, load) && Apart(s, p, e, load) && s' == Adopt(s, p, e, load)
    ensures ListsOk(s')
  {
    AppendDistinct(s.active, p);
  }

  lemma AdoptMap(s: State, p: Page, e: Entry, load: bool, s': State)
    requires MapExact(s) && AdoptPre(s, p, e, load) && Apart(s, p, e, load) && s' == Adopt(s, p, e, load)
    requires s.laundering.Some? ==> s.laundering.value in s.index
    ensures MapExact(s')
  {
    CountZero(s.pte, Backing(e));
    forall k | 0 < k < |s'.memMap| && s'.memMap[k] != SWAP_UNUSED
      ensures s'.memMap[k] <= MAX_SWAP_REF && s'.memMap[k] == Count(s'.pte, Backing(k)) + Pin(s', k)
    {
      assert Pin(s', k) == Pin(s, k);
    }
  }

  lemma AdoptNamed(s: State, p: Page, e: Entry, load: bool, s': State)
    requires Named(s) && AdoptPre(s, p, e, load) && Apart(s, p, e, load) && s' == Adopt(s, p, e, load)
    ensures Named(s')
  {}

  lemma AdoptCache(s: State, p: Page, e: Entry, load: bool, s': State)
    requires CacheOk(s) && AdoptPre(s, p, e, load) && Apart(s, p, e, load) && s' == Adopt(s, p, e, load)
    ensures CacheOk(s')
  {}

  lemma AdoptWriters(s: State, p: Page, e: Entry, load: bool, s': State)
    requires SoleWriter(s) && AdoptPre(s, p, e, load) && Apart(s, p, e, load) && s' == Adopt(s, p, e, load)
    ensures SoleWriter(s')
  {
    forall y | Writes(s', y)
      ensures s'.pte[y].page in s'.ref && s'.ref[s'.pte[y].page] + SwapCount(s', s'.pte[y].page) == 1
    {
      assert Writes(s, y);
    }
  }

  lemma AdoptSharing(s: State, p: Page, e: Entry, load: bool, s': State)
    requires Coherent(s) && AreasOk(s.area)
    requires AdoptPre(s, p, e, load) && Apart(s, p, e, load) && s' == Adopt(s, p, e, load)
    ensures Coherent(s')
  {
    var o, o' := ObjMap(s.pte, s.index), ObjMap(s'.pte, s'.index);
    if load {
      assert o' == o;
    } else {
      CohRename(o, s.area, o', Frame(p), Backing(e));
    }
  }

  lemma AdoptView(s: State, p: Page, e: Entry, load: bool, s': State)
    requires Legible(s) && Legible(s') && CacheOk(s)
    requires AdoptPre(s, p, e, load) && Apart(s, p, e, load) && s' == Adopt(s, p, e, load)
    ensures View(s') == View(s)
  {
    forall y | y in s.pte ensures Content(s', s.pte[y]) == Content(s, s.pte[y]) {}
  }

  lemma AdoptClean(s: State, p: Page, e: Entry, load: bool, s': State)
    requires AdoptPre(s, p, e, load) && Apart(s, p, e, load) && s' == Adopt(s, p, e, load)
    requires Clean(s, InFlight(s))
    ensures Clean(s', InFlight(s'))
  {
    forall x | x in s'.index && x !in InFlight(s') && x in s'.data && s'.index[x] < |s'.disk|
      ensures s'.data[x] == s'.disk[s'.index[x]] || MarkedDirty(s', x)
    {
      assert MarkedDirty(s, x) ==> MarkedDirty(s', x);
    }
  }

  lemma AdoptKeeps(s: State, p: Page, e: Entry, load: bool)
    requires Inv(s) && AdoptPre(s, p, e, load)
    ensures (load ==> e < |s.disk|) && Inv(Adopt(s, p, e, load))
    ensures Legible(s) && Legible(Adopt(s, p, e, load)) && View(Adopt(s, p, e, load)) == View(s)
  {
    AdoptFacts(s, p, e, load);
    var s' := Adopt(s, p, e, load);
    assert Holds(Lists, s);
    AdoptCore(s, p, e, load, s');
    AdoptClean(s, p, e, load, s');
    CoreLegible(s);
    CoreLegible(s');
    assert Holds(Cache, s);
    AdoptView(s, p, e, load, s');
  }

  // ---- page_launder around the disk write

  ghost predicate PinPre(s: State, p: Page) {
    && s.laundering == None && p in s.index && p !in s.hot && p in s.dirty && p in s.ref && s.ref[p] == 0
    && s.index[p] < |s.memMap| && 0 < s.memMap[s.index[p]] < MAX_SWAP_REF
  }

  /** Before the write: off the list, PG_dirty cleared, the entry pinned. */
  function PinDown(s: State, p: Page): State
    requires p in s.index && s.index[p] < |s.memMap|
  {
    s.(inactive := Without(s.inactive, p), dirty := s.dirty - {p},
       memMap := s.memMap[s.index[p] := s.memMap[s.index[p]] + 1], laundering := Some(p), sent := false)
  }

  ghost predicate Writing(s: State) {
    && s.laundering.Some? && s.laundering.value in s.index && s.laundering.value in s.data && s.laundering.value in s.ref
    && s.index[s.laundering.value] < |s.memMap| == |s.disk|
  }

  /** The driver copies the page to the disk; a write that fails may leave anything in the frame. */
  function Transfer(s: State, v: Data): State
    requires Writing(s)
  {
    var p := s.laundering.value;
    s.(disk := s.disk[s.index[p] := v], sent := v == s.data[p])
  }

  /** After the write: the pin is gone, and the page is back on the list its reference count asks for. */
  function Unpin(s: State, ok: bool): State
    requires Writing(s)
  {
    var p := s.laundering.value;
    var e := s.index[p];
    var mapped := s.ref[p] != 0;
    s.(dirty := if ok then s.dirty else s.dirty + {p},
       memMap := s.memMap[e := if s.memMap[e] > 0 then s.memMap[e] - 1 else 0],
       laundering := None, sent := false, hot := if mapped then s.hot + {p} else s.hot,
       active := if mapped then s.active + [p] else s.active,
       inactive := if mapped then s.inactive else s.inactive + [p])
  }

  /** Shared shape of both: only the cell of a cached page's entry, the pin and the flags move. */
  ghost predicate PinStep(s: State, s': State, p: Page) {
    && p in s.index && s.index[p] < |s.memMap| == |s'.memMap| == |s.disk| == |s'.disk|
    && s'.pte == s.pte && s'.area == s.area && s'.ref == s.ref && s'.data == s.data && s'.free == s.free
    && s'.index == s.index && s'.cache == s.cache
    && (forall e :: 0 <= e < |s.memMap| && e != s.index[p] ==> s'.memMap[e] == s.memMap[e] && s'.disk[e] == s.disk[e])
    && s'.memMap[s.index[p]] == s.memMap[s.index[p]] + Pin(s', s.index[p]) - Pin(s, s.index[p])
    && s'.memMap[s.index[p]] <= MAX_SWAP_REF && s.memMap[s.index[p]] > 0
    && (forall e :: e != s.index[p] ==> Pin(s', e) == Pin(s, e))
  }

  lemma PinCore(s: State, s': State, p: Page)
    requires Core(s) && PinStep(s, s', p) && ListsOk(s')
    ensures Core(s')
  {
    forall c: Clause ensures Holds(c, s') {
      assert Holds(c, s);
      match c {
        case SwapMap =>
          assert Holds(Cache, s);
          PinMap(s, s', p);
        case Cache => PinCache(s, s', p);
        case Naming =>
          assert Holds(Cache, s);
          PinNamed(s, s', p);
        case Writers =>
          assert Holds(Refs, s) && Holds(Cache, s);
          PinWriters(s, s', p);
        case Lists => case Shape => case Sharing => case Refs => case ShmBits => case Perms =>
      }
    }
  }

  lemma PinMap(s: State, s': State, p: Page)
    requires MapExact(s) && CacheOk(s) && PinStep(s, s', p)
    ensures MapExact(s')
  {
    forall e | 0 < e < |s'.memMap| && s'.memMap[e] != SWAP_UNUSED
      ensures s'.memMap[e] <= MAX_SWAP_REF && s'.memMap[e] == Count(s'.pte, Backing(e)) + Pin(s', e)
    {}
  }

  lemma PinCache(s: State, s': State, p: Page)
    requires CacheOk(s) && PinStep(s, s', p)
    ensures CacheOk(s')
  {}

  lemma PinNamed(s: State, s': State, p: Page)
    requires Named(s) && CacheOk(s) && PinStep(s, s', p)
    ensures Named(s')
  {}

  lemma PinWriters(s: State, s': State, p: Page)
    requires SoleWriter(s) && RefsExact(s) && CacheOk(s) && PinStep(s, s', p)
    ensures SoleWriter(s')
  {
    forall y | Writes(s', y)
      ensures s'.pte[y].page in s'.ref && s'.ref[s'.pte[y].page] + SwapCount(s', s'.pte[y].page) == 1
    {
      assert Writes(s, y);
      CountZero(s.pte, Frame(s.pte[y].page));
    }
  }

  lemma PinView(s: State, s': State, p: Page)
    requires PinStep(s, s', p) && CacheOk(s) && Legible(s) && Legible(s')
    ensures View(s') == View(s)
  {
    forall y | y in s.pte ensures Content(s', s.pte[y]) == Content(s, s.pte[y]) {}
  }

  lemma PinDownKeeps(s: State, p: Page)
    requires Inv(s) && PinPre(s, p)
    ensures Inv(PinDown(s, p))
    ensures Legible(s) && Legible(PinDown(s, p)) && View(PinDown(s, p)) == View(s)
  {
    var s' := PinDown(s, p);
    assert Holds(Lists, s) && Holds(Cache, s) && Holds(Shape, s);
    WithoutAll(s.inactive, p);
    PinCore(s, s', p);
    PinDownClean(s, p, s');
    CoreLegible(s);
    CoreLegible(s');
    PinView(s, s', p);
  }

  lemma PinDownClean(s: State, p: Page, s': State)
    requires PinPre(s, p) && s' == PinDown(s, p) && Clean(s, InFlight(s))
    ensures Clean(s', InFlight(s'))
  {
    forall x | x in s'.index && x !in InFlight(s') && x in s'.data && s'.index[x] < |s'.disk|
      ensures s'.data[x] == s'.disk[s'.index[x]] || MarkedDirty(s', x)
    {
      assert MarkedDirty(s, x) ==> MarkedDirty(s', x);
    }
  }

  lemma WritingHolds(s: State)
    requires Core(s) && s.laundering.Some?
    ensures Writing(s) && s.memMap[s.index[s.laundering.value]] > 0 && Pin(s, s.index[s.laundering.value]) == 1
  {
    assert Holds(Lists, s) && Holds(Cache, s) && Holds(Shape, s) && Holds(SwapMap, s);
  }

  lemma TransferKeeps(s: State, v: Data)
    requires Inv(s) && s.laundering.Some? && !s.sent
    ensures Writing(s) && Inv(Transfer(s, v))
    ensures Legible(s) && Legible(Transfer(s, v)) && View(Transfer(s, v)) == View(s)
  {
    WritingHolds(s);
    var s', p := Transfer(s, v), s.laundering.value;
    BytesCore(s, s');
    assert Holds(Cache, s);
    TransferClean(s, v, s');
    CoreLegible(s);
    CoreLegible(s');
    forall y | y in s.pte ensures Content(s', s.pte[y]) == Content(s, s.pte[y]) {}
  }

  lemma TransferClean(s: State, v: Data, s': State)
    requires Writing(s) && !s.sent && s' == Transfer(s, v) && CacheOk(s) && Clean(s, InFlight(s))
    ensures Clean(s', InFlight(s'))
  {
    forall x | x in s'.index && x !in InFlight(s') && x in s'.data && s'.index[x] < |s'.disk|
      ensures s'.data[x] == s'.disk[s'.index[x]] || MarkedDirty(s', x)
    {
      assert MarkedDirty(s, x) ==> MarkedDirty(s', x);
    }
  }

  lemma UnpinKeeps(s: State, ok: bool)
    requires Inv(s) && s.laundering.Some? && (ok ==> s.sent)
    ensures Writing(s) && Inv(Unpin(s, ok))
    ensures Legible(s) && Legible(Unpin(s, ok)) && View(Unpin(s, ok)) == View(s)
  {
    WritingHolds(s);
    var p, s' := s.laundering.value, Unpin(s, ok);
    assert Holds(Lists, s) && Holds(Cache, s);
    UnpinLists(s, ok);
    UnpinStep(s, ok);
    PinCore(s, s', p);
    UnpinClean(s, ok, s');
    CoreLegible(s);
    CoreLegible(s');
    PinView(s, s', p);
  }

  lemma UnpinStep(s: State, ok: bool)
    requires Core(s) && s.laundering.Some? && Writing(s)
    ensures PinStep(s, Unpin(s, ok), s.laundering.value)
  {
    WritingHolds(s);
    assert Holds(SwapMap, s) && Holds(Cache, s);
  }

  lemma UnpinLists(s: State, ok: bool)
    requires ListsOk(s) && Writing(s)
    ensures ListsOk(Unpin(s, ok))
  {
    var p := s.laundering.value;
    if s.ref[p] != 0 {
      AppendDistinct(s.active, p);
    } else {
      AppendDistinct(s.inactive, p);
    }
  }

  lemma UnpinClean(s: State, ok: bool, s': State)
    requires Writing(s) && (ok ==> s.sent) && s' == Unpin(s, ok) && CacheOk(s) && Clean(s, InFlight(s))
    ensures Clean(s', {})
  {
    forall x | x in s'.index && x in s'.data && s'.index[x] < |s'.disk|
      ensures s'.data[x] == s'.disk[s'.index[x]] || MarkedDirty(s', x)
    {
      assert MarkedDirty(s, x) ==> MarkedDirty(s', x);
    }
  }
}

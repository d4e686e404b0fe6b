/** The pager's atomic steps, each as the state it produces and a proof of what it keeps. */
module PageSteps {
  import opened Lists
  import opened PageState

  // ---------------------------------------------------------------- writing one entry

  /** One mem_map cell after its count moves by `d`; an uncached entry that nobody names becomes unused. */
  function Bump(m: nat, d: int, cached: bool): int {
    if m == SWAP_UNUSED then m
    else if d < 0 && m + d == 0 && !cached then SWAP_UNUSED
    else m + d
  }

  function Delta(s: State, sl: Slot, x: Option<Pte>, t: Target): int {
    Names(x, t) - Names(Lookup(s.pte, sl), t)
  }

  /** The entry that is overwritten hands its PTE_D to its cached page. */
  function Stained(s: State, sl: Slot): set<Page> {
    if sl in s.pte && s.pte[sl].Present? && s.pte[sl].d && s.pte[sl].page in s.index then {s.pte[sl].page} else {}
  }

  /** The page that loses its last reference and is not in the swap cache goes back to the allocator. */
  function Released(s: State, sl: Slot, x: Option<Pte>): set<Page> {
    if sl in s.pte && s.pte[sl].Present? && s.pte[sl].page !in s.index && s.pte[sl].page in s.ref
       && s.ref[s.pte[sl].page] + Delta(s, sl, x, Frame(s.pte[sl].page)) == 0
    then {s.pte[sl].page} else {}
  }

  ghost predicate SetPre(s: State, sl: Slot, x: Option<Pte>) {
    && (x.Some? && x.value.Present? ==> x.value.page in s.ref)
    && (x.Some? && x.value.Swapped? ==>
          0 < x.value.entry < |s.memMap| && s.memMap[x.value.entry] < MAX_SWAP_REF)
  }

  function RefInc(ref: map<Page, nat>, x: Option<Pte>): map<Page, nat> {
    if x.Some? && x.value.Present? && x.value.page in ref
    then ref[x.value.page := ref[x.value.page] + 1] else ref
  }

  function RefDec(ref: map<Page, nat>, x: Option<Pte>): map<Page, nat> {
    if x.Some? && x.value.Present? && x.value.page in ref && ref[x.value.page] > 0
    then ref[x.value.page := ref[x.value.page] - 1] else ref
  }

  function MapInc(m: seq<nat>, x: Option<Pte>): seq<nat> {
    if x.Some? && x.value.Swapped? && 0 < x.value.entry < |m|
    then m[x.value.entry := m[x.value.entry] + 1] else m
  }

  function MapDec(m: seq<nat>, x: Option<Pte>, cached: bool): seq<nat> {
    if x.Some? && x.value.Swapped? && 0 < x.value.entry < |m| && 0 < m[x.value.entry] < SWAP_UNUSED
    then m[x.value.entry := if m[x.value.entry] == 1 && !cached then SWAP_UNUSED else m[x.value.entry] - 1] else m
  }

  /** page_insert, page_remove_pte, swap_duplicate and swap_decrease together: write entry `sl`, keep every count. */
  function SetPte(s: State, sl: Slot, x: Option<Pte>): State
  {
    var was := Lookup(s.pte, sl);
    s.(pte := Put(s.pte, sl, x),
       ref := RefDec(RefInc(s.ref, x), was),
       memMap := MapDec(MapInc(s.memMap, x), was,
                        was.Some? && was.value.Swapped? && was.value.entry in s.cache),
       dirty := s.dirty + Stained(s, sl) - Released(s, sl, x),
       hot := s.hot - Released(s, sl, x),
       free := s.free - (if x.Some? && x.value.Present? then {x.value.page} else {}) + Released(s, sl, x))
  }

  /** What SetPte does to the entry and to the counts. */
  ghost predicate Wrote(s: State, sl: Slot, x: Option<Pte>, s': State) {
    && s'.pte == Put(s.pte, sl, x)
    && s'.ref.Keys == s.ref.Keys
    && (forall p :: p in s.ref ==> s'.ref[p] == s.ref[p] + Delta(s, sl, x, Frame(p)))
    && |s'.memMap| == |s.memMap|
    && (forall e :: 0 < e < |s.memMap| ==>
          s'.memMap[e] == Bump(s.memMap[e], Delta(s, sl, x, Backing(e)), e in s.cache))
  }

  /** What SetPte does to the page flags and the allocator. */
  ghost predicate Flagged(s: State, sl: Slot, x: Option<Pte>, s': State) {
    && s'.dirty == s.dirty + Stained(s, sl) - Released(s, sl, x)
    && s'.hot == s.hot - Released(s, sl, x)
    && s'.free == s.free - (if x.Some? && x.value.Present? then {x.value.page} else {}) + Released(s, sl, x)
  }

  /** What SetPte leaves alone. */
  ghost predicate Stayed(s: State, s': State) {
    && s'.area == s.area && s'.data == s.data && s'.index == s.index && s'.cache == s.cache && s'.disk == s.disk
    && s'.active == s.active && s'.inactive == s.inactive && s'.laundering == s.laundering && s'.sent == s.sent
  }

  lemma RefMoves(ref: map<Page, nat>, was: Option<Pte>, x: Option<Pte>)
    requires was.Some? && was.value.Present? ==> was.value.page in ref && ref[was.value.page] > 0
    requires x.Some? && x.value.Present? ==> x.value.page in ref
    ensures RefDec(RefInc(ref, x), was).Keys == ref.Keys
    ensures forall p :: p in ref ==>
              RefDec(RefInc(ref, x), was)[p] == ref[p] + Names(x, Frame(p)) - Names(was, Frame(p))
  {}

  lemma MapMoves(m: seq<nat>, cache: map<Entry, Page>, was: Option<Pte>, x: Option<Pte>, cached: bool)
    requires was.Some? && was.value.Swapped? ==>
               0 < was.value.entry < |m| && 0 < m[was.value.entry] <= MAX_SWAP_REF && cached == (was.value.entry in cache)
    requires x.Some? && x.value.Swapped? ==> 0 < x.value.entry < |m| && m[x.value.entry] < MAX_SWAP_REF
    ensures |MapDec(MapInc(m, x), was, cached)| == |m|
    ensures forall e :: 0 < e < |m| ==>
              MapDec(MapInc(m, x), was, cached)[e] ==
              Bump(m[e], Names(x, Backing(e)) - Names(was, Backing(e)), e in cache)
  {}

  /** What an entry names has a positive count. */
  ghost predicate Counted(s: State, sl: Slot) {
    sl in s.pte ==>
      match s.pte[sl]
      case Present(p, _, _, _) => p in s.ref && s.ref[p] > 0
      case Swapped(e) => 0 < e < |s.memMap| && 0 < s.memMap[e] <= MAX_SWAP_REF
  }

  lemma IsCounted(s: State, sl: Slot)
    requires RefsExact(s) && MapExact(s) && Named(s)
    ensures Counted(s, sl)
  {
    if sl in s.pte {
      CountZero(s.pte, TargetOf(s.pte[sl]));
    }
  }

  lemma SetWritesRefs(s: State, sl: Slot, x: Option<Pte>, s': State)
    requires Counted(s, sl) && SetPre(s, sl, x) && s'.ref == RefDec(RefInc(s.ref, x), Lookup(s.pte, sl))
    ensures s'.ref.Keys == s.ref.Keys
    ensures forall p :: p in s.ref ==> s'.ref[p] == s.ref[p] + Delta(s, sl, x, Frame(p))
  {
    RefMoves(s.ref, Lookup(s.pte, sl), x);
  }

  lemma SetWritesMap(s: State, sl: Slot, x: Option<Pte>, s': State)
    requires Counted(s, sl) && SetPre(s, sl, x)
    requires var was := Lookup(s.pte, sl);
             s'.memMap == MapDec(MapInc(s.memMap, x), was, was.Some? && was.value.Swapped? && was.value.entry in s.cache)
    ensures |s'.memMap| == |s.memMap|
    ensures forall e :: 0 < e < |s.memMap| ==>
              s'.memMap[e] == Bump(s.memMap[e], Delta(s, sl, x, Backing(e)), e in s.cache)
  {
    var was := Lookup(s.pte, sl);
    MapMoves(s.memMap, s.cache, was, x, was.Some? && was.value.Swapped? && was.value.entry in s.cache);
  }

  lemma SetWrites(s: State, sl: Slot, x: Option<Pte>)
    requires Counted(s, sl) && SetPre(s, sl, x)
    ensures Wrote(s, sl, x, SetPte(s, sl, x))
  {
    var s' := SetPte(s, sl, x);
    SetWritesRefs(s, sl, x, s');
    SetWritesMap(s, sl, x, s');
  }

  lemma SetRefs(s: State, sl: Slot, x: Option<Pte>, s': State)
    requires Wrote(s, sl, x, s') && RefsExact(s)
    ensures RefsExact(s')
  {
    forall p | p in s.ref ensures s'.ref[p] == Count(s'.pte, Frame(p)) {
      CountPut(s.pte, sl, x, Frame(p));
    }
  }

  lemma SetMap(s: State, sl: Slot, x: Option<Pte>, s': State)
    requires Wrote(s, sl, x, s') && Stayed(s, s') && SetPre(s, sl, x) && MapExact(s)
    ensures MapExact(s')
  {
    forall e | 0 < e < |s.memMap| && s'.memMap[e] != SWAP_UNUSED
      ensures s'.memMap[e] <= MAX_SWAP_REF && s'.memMap[e] == Count(s'.pte, Backing(e)) + Pin(s', e)
    {
      CountPut(s.pte, sl, x, Backing(e));
      assert Pin(s', e) == Pin(s, e);
    }
  }

  lemma SetNamedPresent(s: State, sl: Slot, x: Option<Pte>, s': State, y: Slot)
    requires Wrote(s, sl, x, s') && Flagged(s, sl, x, s') && SetPre(s, sl, x) && Named(s) && RefsExact(s')
    requires y in s'.pte && s'.pte[y].Present?
    ensures s'.pte[y].page in s'.ref && s'.pte[y].page !in s'.free
  {
    var p := s'.pte[y].page;
    assert y == sl || (y in s.pte && s.pte[y] == s'.pte[y]);
    assert p in s'.ref;
    NotReleased(s, sl, x, s', y);
  }

  /** A page that is still named has not gone back to the allocator. */
  lemma NotReleased(s: State, sl: Slot, x: Option<Pte>, s': State, y: Slot)
    requires Wrote(s, sl, x, s') && RefsExact(s') && y in s'.pte && s'.pte[y].Present? && s'.pte[y].page in s'.ref
    ensures s'.pte[y].page !in Released(s, sl, x)
  {
    CountZero(s'.pte, Frame(s'.pte[y].page));
  }

  lemma SetNamedSwapped(s: State, sl: Slot, x: Option<Pte>, s': State, y: Slot)
    requires Wrote(s, sl, x, s') && Stayed(s, s') && SetPre(s, sl, x) && Named(s) && MapExact(s)
    requires y in s'.pte && s'.pte[y].Swapped?
    ensures 0 < s'.pte[y].entry < |s'.memMap| && s'.memMap[s'.pte[y].entry] != SWAP_UNUSED
  {
    CountZero(s'.pte, Backing(s'.pte[y].entry));
    CountPut(s.pte, sl, x, Backing(s'.pte[y].entry));
  }

  lemma SetCachedPage(s: State, sl: Slot, x: Option<Pte>, s': State, p: Page)
    requires Wrote(s, sl, x, s') && Stayed(s, s') && Flagged(s, sl, x, s') && SetPre(s, sl, x) && MapExact(s) && CacheOk(s)
    requires p in s.index
    ensures p in s'.ref && p !in s'.free && s'.memMap[s.index[p]] != SWAP_UNUSED
  {
    var e := s.index[p];
    assert p !in Released(s, sl, x);
    assert e in s.cache && 0 < e < |s.memMap|;
    assert s'.memMap[e] == Bump(s.memMap[e], Delta(s, sl, x, Backing(e)), true);
  }

  lemma SetCache(s: State, sl: Slot, x: Option<Pte>, s': State)
    requires Wrote(s, sl, x, s') && Stayed(s, s') && Flagged(s, sl, x, s') && SetPre(s, sl, x) && MapExact(s) && CacheOk(s)
    ensures CacheOk(s')
  {
    forall p | p in s.index
      ensures p in s'.ref && p !in s'.free && s'.memMap[s.index[p]] != SWAP_UNUSED
    {
      SetCachedPage(s, sl, x, s', p);
    }
  }

  lemma SetLists(s: State, sl: Slot, x: Option<Pte>, s': State)
    requires Stayed(s, s') && Flagged(s, sl, x, s') && ListsOk(s)
    ensures ListsOk(s')
  {}

  /** The net change of a page's weight (references plus swap count). */
  lemma SetWeight(s: State, sl: Slot, x: Option<Pte>, s': State, p: Page)
    requires Wrote(s, sl, x, s') && Stayed(s, s') && CacheOk(s) && p in s.ref
    ensures s'.ref[p] + SwapCount(s', p) ==
            s.ref[p] + SwapCount(s, p) + Delta(s, sl, x, Frame(p))
            + (if p in s.index then Delta(s, sl, x, Backing(s.index[p])) else 0)
  {}

  /** The object an entry value stands for must not already be someone else's private writable page. */
  ghost predicate Unowned(s: State, sl: Slot, x: Option<Pte>) {
    x.Some? && (sl in s.pte ==> Obj(s.index, s.pte[sl]) != Obj(s.index, x.value)) ==>
      forall y :: y != sl && Writes(s, y) ==> Obj(s.index, s.pte[y]) != Obj(s.index, x.value)
  }

  lemma SetSoleAt(s: State, sl: Slot, x: Option<Pte>, s': State, y: Slot)
    requires Wrote(s, sl, x, s') && Stayed(s, s') && Unowned(s, sl, x)
    requires CacheOk(s) && SoleWriter(s)
    requires y != sl && Writes(s, y)
    requires sl in s.pte ==> Obj(s.index, s.pte[sl]) != Obj(s.index, s.pte[y])
    ensures s'.ref[s.pte[y].page] + SwapCount(s', s.pte[y].page) == 1
  {
    var p := s.pte[y].page;
    SetWeight(s, sl, x, s', p);
    assert x.Some? ==> Obj(s.index, s.pte[y]) != Obj(s.index, x.value);
    assert Names(x, Frame(p)) == 0 && (p in s.index ==> Names(x, Backing(s.index[p])) == 0);
  }

  lemma SetSole(s: State, sl: Slot, x: Option<Pte>, s': State)
    requires Wrote(s, sl, x, s') && Stayed(s, s') && Unowned(s, sl, x)
    requires Named(s) && RefsExact(s) && MapExact(s) && CacheOk(s) && SoleWriter(s)
    requires Writes(s', sl) ==> s'.pte[sl].page in s'.ref && s'.ref[s'.pte[sl].page] + SwapCount(s', s'.pte[sl].page) == 1
    ensures SoleWriter(s')
  {
    forall y | Writes(s', y)
      ensures s'.pte[y].page in s'.ref && s'.ref[s'.pte[y].page] + SwapCount(s', s'.pte[y].page) == 1
    {
      if y != sl {
        if sl in s.pte {
          WriterIsAlone(s, y, sl);
        }
        SetSoleAt(s, sl, x, s', y);
      }
    }
  }

  lemma SetClean(s: State, sl: Slot, x: Option<Pte>, s': State, exempt: set<Page>)
    requires s'.pte == Put(s.pte, sl, x) && Stayed(s, s') && Flagged(s, sl, x, s')
    requires Clean(s, exempt)
    ensures Clean(s', exempt)
  {
    forall p | p in s'.index && p !in exempt && p in s'.data && s'.index[p] < |s'.disk|
      ensures s'.data[p] == s'.disk[s'.index[p]] || MarkedDirty(s', p)
    {
      if s.data[p] != s.disk[s.index[p]] && p !in s'.dirty {
        var y :| y in s.pte && s.pte[y].Present? && s.pte[y].page == p && s.pte[y].d;
        assert y in s'.pte;
      }
    }
  }

  ghost function PutData(m: map<Slot, Data>, sl: Slot, v: Option<Data>): map<Slot, Data> {
    if v.Some? then m[sl := v.value] else m - {sl}
  }

  lemma SetView(s: State, sl: Slot, x: Option<Pte>, s': State)
    requires Legible(s) && s'.pte == Put(s.pte, sl, x) && Stayed(s, s')
    requires x.Some? ==> Readable(s, x.value)
    ensures Legible(s')
    ensures View(s') == View(s).(mem := PutData(View(s).mem, sl, if x.Some? then Some(Content(s, x.value)) else None))
  {
  }

  /** A writable private value may be written only when it leaves its page with this one reference. */
  ghost predicate Alone(s: State, sl: Slot, x: Option<Pte>) {
    x.Some? && x.value.Present? && x.value.w && Class(s.area, sl) == None && x.value.page in s.ref ==>
      var p := x.value.page;
      s.ref[p] + SwapCount(s, p) + Delta(s, sl, x, Frame(p))
      + (if p in s.index then Delta(s, sl, x, Backing(s.index[p])) else 0) == 1
  }

  /** The PTE_W values an area allows. */
  predicate Permitted(area: Area, w: bool) {
    (w ==> area.write) && (area.Shared? ==> w == area.write)
  }

  /** Everything a caller has to know before it writes an entry. */
  ghost predicate MaySet(s: State, sl: Slot, x: Option<Pte>) {
    && SetPre(s, sl, x) && Unowned(s, sl, x) && Alone(s, sl, x)
    && (sl.Shm? && x.Some? && x.value.Present? ==> !x.value.w && !x.value.d)
    && (sl.User? && x.Some? && x.value.Present? && sl in s.area ==> Permitted(s.area[sl], x.value.w))
    && CoherentOn(ObjMap(Put(s.pte, sl, x), s.index), s.area)
  }

  lemma SetKeeps(s: State, sl: Slot, x: Option<Pte>, s': State)
    requires Core(s) && MaySet(s, sl, x) && s' == SetPte(s, sl, x)
    ensures Core(s') && Stayed(s, s') && s'.pte == Put(s.pte, sl, x)
    ensures forall exempt :: Clean(s, exempt) ==> Clean(s', exempt)
    ensures Legible(s) && Legible(s')
    ensures x.Some? ==> Readable(s, x.value)
    ensures View(s') == View(s).(mem := PutData(View(s).mem, sl, if x.Some? then Some(Content(s, x.value)) else None))
  {
    CoreCounts(s, sl);
    SetWrites(s, sl, x);
    SetFlags(s, sl, x);
    SetCore(s, sl, x, s');
    forall exempt | Clean(s, exempt) ensures Clean(s', exempt) {
      SetClean(s, sl, x, s', exempt);
    }
    CoreLegible(s);
    CoreReadable(s, x);
    SetView(s, sl, x, s');
  }

  lemma CoreCounts(s: State, sl: Slot)
    requires Core(s)
    ensures Counted(s, sl)
  {
    assert Holds(Refs, s) && Holds(SwapMap, s) && Holds(Naming, s);
    IsCounted(s, sl);
  }

  lemma CoreLegible(s: State)
    requires Core(s)
    ensures Legible(s)
  {
    assert Holds(Shape, s) && Holds(Naming, s) && Holds(Cache, s);
    AllLegible(s);
  }

  lemma CoreReadable(s: State, x: Option<Pte>)
    requires Core(s)
    requires x.Some? && x.value.Present? ==> x.value.page in s.ref
    requires x.Some? && x.value.Swapped? ==> x.value.entry < |s.memMap|
    ensures x.Some? ==> Readable(s, x.value)
  {
    assert Holds(Shape, s) && Holds(Cache, s);
  }

  lemma SetFlags(s: State, sl: Slot, x: Option<Pte>)
    ensures Flagged(s, sl, x, SetPte(s, sl, x)) && Stayed(s, SetPte(s, sl, x))
  {}

  lemma SetCore(s: State, sl: Slot, x: Option<Pte>, s': State)
    requires Core(s) && MaySet(s, sl, x) && Wrote(s, sl, x, s') && Flagged(s, sl, x, s') && Stayed(s, s')
    ensures Core(s')
  {
    forall c: Clause ensures Holds(c, s') {
      assert Holds(c, s);
      match c {
        case Refs => SetRefs(s, sl, x, s');
        case SwapMap => SetMap(s, sl, x, s');
        case Shape => SetShape(s, sl, x, s');
        case Naming =>
          assert Holds(Refs, s) && Holds(SwapMap, s);
          SetNamed(s, sl, x, s');
        case Cache =>
          assert Holds(SwapMap, s);
          SetCache(s, sl, x, s');
        case Lists => SetLists(s, sl, x, s');
        case Writers =>
          assert Holds(Naming, s) && Holds(Refs, s) && Holds(SwapMap, s) && Holds(Cache, s);
          SetSelf(s, sl, x, s');
          SetSole(s, sl, x, s');
        case Sharing =>
        case ShmBits => SetShm(s, sl, x, s');
        case Perms => SetPerms(s, sl, x, s');
      }
    }
  }

  lemma SetShape(s: State, sl: Slot, x: Option<Pte>, s': State)
    requires Wrote(s, sl, x, s') && Flagged(s, sl, x, s') && Stayed(s, s') && SetPre(s, sl, x)
    requires Wf(s)
    ensures Wf(s')
  {}

  lemma SetNamed(s: State, sl: Slot, x: Option<Pte>, s': State)
    requires Wrote(s, sl, x, s') && Flagged(s, sl, x, s') && Stayed(s, s') && SetPre(s, sl, x)
    requires Named(s) && MapExact(s) && RefsExact(s)
    ensures Named(s')
  {
    SetRefs(s, sl, x, s');
    forall y | y in s'.pte ensures
      if s'.pte[y].Present? then s'.pte[y].page in s'.ref && s'.pte[y].page !in s'.free
      else 0 < s'.pte[y].entry < |s'.memMap| && s'.memMap[s'.pte[y].entry] != SWAP_UNUSED
    {
      if s'.pte[y].Present? {
        SetNamedPresent(s, sl, x, s', y);
      } else {
        SetNamedSwapped(s, sl, x, s', y);
      }
    }
  }

  lemma SetSelf(s: State, sl: Slot, x: Option<Pte>, s': State)
    requires Wrote(s, sl, x, s') && Stayed(s, s') && CacheOk(s) && SetPre(s, sl, x) && Alone(s, sl, x)
    ensures Writes(s', sl) ==>
              s'.pte[sl].page in s'.ref && s'.ref[s'.pte[sl].page] + SwapCount(s', s'.pte[sl].page) == 1
  {
    if Writes(s', sl) {
      SetWeight(s, sl, x, s', s'.pte[sl].page);
    }
  }

  lemma SetShm(s: State, sl: Slot, x: Option<Pte>, s': State)
    requires s'.pte == Put(s.pte, sl, x) && ShmPlain(s)
    requires sl.Shm? && x.Some? && x.value.Present? ==> !x.value.w && !x.value.d
    ensures ShmPlain(s')
  {}

  lemma SetPerms(s: State, sl: Slot, x: Option<Pte>, s': State)
    requires s'.pte == Put(s.pte, sl, x) && s'.area == s.area && PermsOk(s)
    requires sl.User? && x.Some? && x.value.Present? && sl in s.area ==> Permitted(s.area[sl], x.value.w)
    ensures PermsOk(s')
  {}

  // ---------------------------------------------------------------- sharing stays coherent

  lemma CohReplace(o: map<Slot, Target>, area: map<Slot, Area>, sl: Slot, t: Target)
    requires CoherentOn(o, area) && AreasOk(area)
    requires Class(area, sl) == None && sl in area
    requires forall y :: y in o && Class(area, y) != None ==> o[y] != t
    ensures CoherentOn(o[sl := t], area)
  {}

  lemma CohJoin(o: map<Slot, Target>, area: map<Slot, Area>, sl: Slot, y: Slot)
    requires CoherentOn(o, area) && AreasOk(area) && y in o && sl in area && sl.User?
    requires Class(area, sl) == Class(area, y)
    requires sl !in o
    ensures CoherentOn(o[sl := o[y]], area)
  {}

  lemma CohNew(o: map<Slot, Target>, area: map<Slot, Area>, sl: Slot, t: Target)
    requires CoherentOn(o, area) && AreasOk(area) && sl !in o && sl.Shm?
    requires forall y :: y in o ==> o[y] != t
    ensures CoherentOn(o[sl := t], area)
  {}

  lemma CohDrop(o: map<Slot, Target>, area: map<Slot, Area>, sl: Slot)
    requires CoherentOn(o, area) && AreasOk(area)
    requires sl.Shm? ==> forall u :: u in area && area[u].Shared? ==> area[u].shm != sl
    ensures CoherentOn(o - {sl}, area)
  {}

  lemma CohRename(o: map<Slot, Target>, area: map<Slot, Area>, o': map<Slot, Target>, a: Target, b: Target)
    requires CoherentOn(o, area) && AreasOk(area) && o'.Keys == o.Keys
    requires forall y :: y in o ==> o[y] != b && o'[y] == (if o[y] == a then b else o[y])
    ensures CoherentOn(o', area)
  {}
}

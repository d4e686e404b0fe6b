/** The state shared by the pager: page tables, page descriptors, the swap map and the swap lists. */
module PageState {
  import opened Lists

  type Page = nat
  type Entry = nat

  /** The 4096 bytes of a page frame or of a frame of the swap disk. */
  datatype Data = Data(bytes: seq<bv8>)

  /** A place that can hold a page-table entry: in an address space, or in a shared-memory node. */
  datatype Slot = User(mm: nat, vpn: nat) | Shm(obj: nat, pgno: nat)

  /** What the area (vma) around a user slot says: VM_SHARE with its shared-memory slot, and VM_WRITE. */
  datatype Area = Private(write: bool) | Shared(shm: Slot, write: bool)

  /** A non-zero page-table entry. A zero entry is an absent key. */
  datatype Pte = Present(page: Page, w: bool, a: bool, d: bool) | Swapped(entry: Entry)

  /** What an entry names. */
  datatype Target = Frame(page: Page) | Backing(entry: Entry)

  const SWAP_UNUSED := 0xFFFF
  const MAX_SWAP_REF := 0xFFFE

  datatype State = State(
    pte: map<Slot, Pte>,
    area: map<Slot, Area>,
    ref: map<Page, nat>,
    data: map<Page, Data>,
    free: set<Page>,
    dirty: set<Page>,             // PG_dirty
    hot: set<Page>,               // PG_active
    index: map<Page, Entry>,      // page->index; a key exactly when PG_swap is set
    cache: map<Entry, Page>,      // hash_list
    memMap: seq<nat>,             // mem_map
    disk: seq<Data>,
    active: seq<Page>,
    inactive: seq<Page>,
    laundering: Option<Page>,     // the page page_launder is writing out, on neither list
    sent: bool)                   // whether the disk has got its bytes in that write

  // ---- what entries name, and how many name one thing

  function TargetOf(x: Pte): Target {
    match x
    case Present(p, _, _, _) => Frame(p)
    case Swapped(e) => Backing(e)
  }

  function Names(x: Option<Pte>, t: Target): nat {
    if x.Some? && TargetOf(x.value) == t then 1 else 0
  }

  function Lookup(m: map<Slot, Pte>, sl: Slot): Option<Pte> {
    if sl in m then Some(m[sl]) else None
  }

  /** Write one entry; None writes zero. */
  function Put(m: map<Slot, Pte>, sl: Slot, x: Option<Pte>): map<Slot, Pte> {
    if x.Some? then m[sl := x.value] else m - {sl}
  }

  ghost function Namers(m: map<Slot, Pte>, t: Target): set<Slot> {
    set sl | sl in m && TargetOf(m[sl]) == t
  }

  ghost function Count(m: map<Slot, Pte>, t: Target): nat {
    |Namers(m, t)|
  }

  /** How writing one entry moves every count. */
  lemma CountPut(m: map<Slot, Pte>, sl: Slot, x: Option<Pte>, t: Target)
    ensures Count(Put(m, sl, x), t) == Count(m, t) - Names(Lookup(m, sl), t) + Names(x, t)
  {
    var ns := Namers(m, t);
    var base := ns - {sl};
    assert Names(x, t) == 1 ==> Namers(Put(m, sl, x), t) == base + {sl};
    assert Names(x, t) == 0 ==> Namers(Put(m, sl, x), t) == base;
  }

  lemma CountZero(m: map<Slot, Pte>, t: Target)
    ensures Count(m, t) == 0 <==> forall sl :: sl in m ==> TargetOf(m[sl]) != t
  {
    if Count(m, t) == 0 {
      forall sl | sl in m ensures TargetOf(m[sl]) != t {
        assert sl !in Namers(m, t);
      }
    } else {
      var sl :| sl in Namers(m, t);
    }
  }

  /** If exactly one entry names `t`, it is this one. */
  lemma CountOne(m: map<Slot, Pte>, t: Target, sl: Slot, other: Slot)
    requires sl in m && TargetOf(m[sl]) == t && Count(m, t) <= 1
    requires other in m && TargetOf(m[other]) == t
    ensures other == sl
  {
    var ns := Namers(m, t);
    assert |ns - {sl}| == 0;
    assert other in ns;
  }

  // ---- logical content

  /** The swap entry of a cached page stands for the page, wherever the entry or the page is named. */
  function Obj(index: map<Page, Entry>, x: Pte): Target {
    match x
    case Present(p, _, _, _) => if p in index then Backing(index[p]) else Frame(p)
    case Swapped(e) => Backing(e)
  }

  function ObjMap(pte: map<Slot, Pte>, index: map<Page, Entry>): map<Slot, Target> {
    map sl | sl in pte :: Obj(index, pte[sl])
  }

  /** The shared-memory slot whose content a slot must show; None for private memory. */
  function Class(area: map<Slot, Area>, sl: Slot): Option<Slot> {
    if sl.Shm? then Some(sl)
    else if sl in area && area[sl].Shared? then Some(area[sl].shm)
    else None
  }

  predicate Readable(s: State, x: Pte) {
    match x
    case Present(p, _, _, _) => p in s.data
    case Swapped(e) => if e in s.cache then s.cache[e] in s.data else e < |s.disk|
  }

  /** The bytes an entry stands for: its page, else the cached page of its swap entry, else the swap disk. */
  function Content(s: State, x: Pte): Data
    requires Readable(s, x)
  {
    match x
    case Present(p, _, _, _) => s.data[p]
    case Swapped(e) => if e in s.cache then s.data[s.cache[e]] else s.disk[e]
  }

  /** swap_page_count: how many swapped-out entries (and launder pins) a page's swap entry has. */
  function SwapCount(s: State, p: Page): nat {
    if p in s.index && s.index[p] < |s.memMap| then s.memMap[s.index[p]] else 0
  }

  function Pin(s: State, e: Entry): nat {
    if s.laundering.Some? && s.laundering.value in s.index && s.index[s.laundering.value] == e then 1 else 0
  }

  // ---- the invariant

  ghost predicate AreasOk(area: map<Slot, Area>) {
    forall sl :: sl in area ==> sl.User? && (area[sl].Shared? ==> area[sl].shm.Shm?)
  }

  ghost predicate Wf(s: State) {
    && s.data.Keys == s.ref.Keys
    && s.free <= s.ref.Keys
    && |s.disk| == |s.memMap|
    && AreasOk(s.area)
  }

  ghost predicate Named(s: State) {
    && (forall sl :: sl in s.pte && s.pte[sl].Present? ==> s.pte[sl].page in s.ref && s.pte[sl].page !in s.free)
    && (forall sl :: sl in s.pte && s.pte[sl].Swapped? ==>
          0 < s.pte[sl].entry < |s.memMap| && s.memMap[s.pte[sl].entry] != SWAP_UNUSED)
  }

  /** A page's reference count is the number of present entries that name it. */
  ghost predicate RefsExact(s: State) {
    forall p :: p in s.ref ==> s.ref[p] == Count(s.pte, Frame(p))
  }

  /** mem_map counts the entries that name a swap entry, plus the launder pin. */
  ghost predicate MapExact(s: State) {
    forall e :: 0 < e < |s.memMap| && s.memMap[e] != SWAP_UNUSED ==>
      s.memMap[e] <= MAX_SWAP_REF && s.memMap[e] == Count(s.pte, Backing(e)) + Pin(s, e)
  }

  /** Cached pages and swap entries are in bijection; a used entry that nobody names is cached. */
  ghost predicate CacheOk(s: State) {
    && (forall e :: e in s.cache ==> s.cache[e] in s.index && s.index[s.cache[e]] == e)
    && (forall p :: p in s.index ==>
          && p in s.ref && p !in s.free
          && s.index[p] in s.cache && s.cache[s.index[p]] == p
          && 0 < s.index[p] < |s.memMap| && s.memMap[s.index[p]] != SWAP_UNUSED)
    && (forall e :: 0 < e < |s.memMap| && s.memMap[e] == 0 ==> e in s.cache)
  }

  /** Every cached page outside a launder step is on exactly the list its PG_active says. */
  ghost predicate ListsOk(s: State) {
    && Distinct(s.active) && Distinct(s.inactive)
    && (forall p :: p in s.active <==> p in s.index && p in s.hot && s.laundering != Some(p))
    && (forall p :: p in s.inactive <==> p in s.index && p !in s.hot && s.laundering != Some(p))
    && (s.laundering.Some? ==> s.laundering.value in s.index && s.laundering.value !in s.hot)
  }

  /** An entry through which a process can store to memory that is its own. */
  predicate Writes(s: State, sl: Slot) {
    sl in s.pte && s.pte[sl].Present? && s.pte[sl].w && Class(s.area, sl) == None
  }

  /** A writable private entry is the only reference to its page. */
  ghost predicate SoleWriter(s: State) {
    forall sl :: Writes(s, sl) ==>
      s.pte[sl].page in s.ref && s.ref[s.pte[sl].page] + SwapCount(s, s.pte[sl].page) == 1
  }

  /** Entries of one shared-memory page stand for one object, and nothing else stands for it. */
  ghost predicate CoherentOn(o: map<Slot, Target>, area: map<Slot, Area>) {
    && (forall sl :: sl in o && sl.User? ==> sl in area)
    && (forall sl :: sl in o && sl in area && area[sl].Shared? ==> area[sl].shm in o && o[sl] == o[area[sl].shm])
    && (forall sl, sh :: sl in o && sh in o && sh.Shm? && o[sl] == o[sh] ==> Class(area, sl) == Some(sh))
  }

  ghost predicate Coherent(s: State) {
    CoherentOn(ObjMap(s.pte, s.index), s.area)
  }

  /** The processor never walks shared-memory nodes, so their entries carry no W and no D. */
  ghost predicate ShmPlain(s: State) {
    forall sl :: sl in s.pte && sl.Shm? && s.pte[sl].Present? ==> !s.pte[sl].w && !s.pte[sl].d
  }

  /** PTE_W never exceeds VM_WRITE, and in shared memory it equals it. */
  ghost predicate PermsOk(s: State) {
    forall sl :: sl in s.pte && sl.User? && s.pte[sl].Present? && sl in s.area ==>
      (s.pte[sl].w ==> s.area[sl].write) && (s.area[sl].Shared? ==> s.pte[sl].w == s.area[sl].write)
  }

  ghost predicate MarkedDirty(s: State, p: Page) {
    p in s.dirty || exists sl :: sl in s.pte && s.pte[sl].Present? && s.pte[sl].page == p && s.pte[sl].d
  }

  /** Outside `exempt`, a cached page that differs from disk is PG_dirty or has an entry with PTE_D. */
  ghost predicate Clean(s: State, exempt: set<Page>) {
    forall p :: p in s.index && p !in exempt && p in s.data && s.index[p] < |s.disk| ==>
      s.data[p] == s.disk[s.index[p]] || MarkedDirty(s, p)
  }

  /** A page on its way to the disk, until its bytes are there. */
  function InFlight(s: State): set<Page> {
    if s.laundering.Some? && !s.sent then {s.laundering.value} else {}
  }

  /** The clauses of the invariant. */
  datatype Clause = Shape | Naming | Refs | SwapMap | Cache | Lists | Writers | Sharing | ShmBits | Perms

  ghost predicate Holds(c: Clause, s: State) {
    match c
    case Shape => Wf(s)
    case Naming => Named(s)
    case Refs => RefsExact(s)
    case SwapMap => MapExact(s)
    case Cache => CacheOk(s)
    case Lists => ListsOk(s)
    case Writers => SoleWriter(s)
    case Sharing => Coherent(s)
    case ShmBits => ShmPlain(s)
    case Perms => PermsOk(s)
  }

  ghost predicate Core(s: State) {
    forall c: Clause :: Holds(c, s)
  }

  ghost predicate Inv(s: State) {
    Core(s) && Clean(s, InFlight(s))
  }

  /** Every entry stands for some bytes. */
  ghost predicate Legible(s: State) {
    forall sl :: sl in s.pte ==> Readable(s, s.pte[sl])
  }

  lemma AllLegible(s: State)
    requires Wf(s) && Named(s) && CacheOk(s)
    ensures Legible(s)
  {}

  // ---- the machine a program sees

  /** Plain memory: each mapped slot holds its own bytes. */
  datatype Plain = Plain(mem: map<Slot, Data>, area: map<Slot, Area>)

  ghost function View(s: State): Plain
    requires Legible(s)
  {
    Plain(map sl | sl in s.pte :: Content(s, s.pte[sl]), s.area)
  }

  /** A private writable page has no other entry, present or swapped out. */
  lemma WriterIsAlone(s: State, y: Slot, sl: Slot)
    requires Named(s) && RefsExact(s) && MapExact(s) && CacheOk(s) && SoleWriter(s)
    requires Writes(s, y) && sl in s.pte && sl != y
    ensures Obj(s.index, s.pte[sl]) != Obj(s.index, s.pte[y])
  {
    var p := s.pte[y].page;
    CountZero(s.pte, Frame(p));
    if s.pte[sl].Present? {
      if s.pte[sl].page == p {
        CountOne(s.pte, Frame(p), sl, y);
      }
    } else {
      CountZero(s.pte, Backing(s.pte[sl].entry));
    }
  }
}

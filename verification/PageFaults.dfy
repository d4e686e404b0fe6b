/** vmm.c: what do_page_fault needs and answers, told from the state before it. */
module PageFaults {
  import opened Lists
  import opened PageState

  datatype Code = Ok | Inval | NoMem | SwapFault

  /** page_ref plus swap_page_count of the page an entry stands for, in memory or not. */
  function Weight(s: State, x: Pte): nat {
    match x
    case Present(p, _, _, _) => (if p in s.ref then s.ref[p] else 0) + SwapCount(s, p)
    case Swapped(e) =>
      (if e in s.cache && s.cache[e] in s.ref then s.ref[s.cache[e]] else 0) + (if e < |s.memMap| then s.memMap[e] else 0)
  }

  /** The fault takes a page for itself: on first access, or to copy a private page that has another name. */
  predicate TakesPage(s: State, sl: Slot, write: bool) {
    sl in s.area &&
    if sl in s.pte then write && s.area[sl].Private? && Weight(s, s.pte[sl]) > 1
    else s.area[sl].Private? || s.area[sl].shm !in s.pte
  }

  /** The swap entry that swap_in_page is called with. */
  function Wanted(s: State, sl: Slot): Option<Entry> {
    if sl in s.pte then if s.pte[sl].Swapped? then Some(s.pte[sl].entry) else None
    else if sl in s.area && s.area[sl].Shared? && s.area[sl].shm in s.pte && s.pte[s.area[sl].shm].Swapped?
    then Some(s.pte[s.area[sl].shm].entry)
    else None
  }

  /** What do_page_fault answers to a fault it does not refuse, with a page table at hand. */
  function Fetched(s: State, sl: Slot, write: bool, q: Option<Page>, q2: Option<Page>, readOk: bool): Code {
    var e := Wanted(s, sl);
    if e.Some? then
      if e.value in s.cache then Ok else if q2 == None then NoMem else if !readOk then SwapFault else Ok
    else if TakesPage(s, sl, write) && q == None then NoMem
    else Ok
  }

  /** The answer is 0 and the access will fault again: the page is there, has to be copied, and there is none to copy to. */
  predicate Stalls(s: State, sl: Slot, write: bool, q: Option<Page>, q2: Option<Page>, readOk: bool) {
    && Wanted(s, sl).Some? && (Wanted(s, sl).value in s.cache || (q2.Some? && readOk))
    && TakesPage(s, sl, write) && q == None
  }

  /** The entries that stand for the same bytes as this one. */
  ghost function Kin(s: State, sl: Slot): set<Slot>
    requires sl in s.pte
  {
    set y | y in s.pte && Obj(s.index, s.pte[y]) == Obj(s.index, s.pte[sl])
  }

  /** page_launder is writing the page this entry stands for. */
  predicate BeingWritten(s: State, x: Pte) {
    s.laundering.Some? && s.laundering.value in s.index && Obj(s.index, x) == Backing(s.index[s.laundering.value])
  }

  /** So a private page is copied exactly when some other entry stands for it or it is being written. */
  lemma WeightMeans(s: State, sl: Slot)
    requires Core(s) && sl in s.pte
    ensures Weight(s, s.pte[sl]) == |Kin(s, sl)| + if BeingWritten(s, s.pte[sl]) then 1 else 0
    ensures Weight(s, s.pte[sl]) > 1 <==> Kin(s, sl) != {sl} || BeingWritten(s, s.pte[sl])
  {
    match Obj(s.index, s.pte[sl]) {
      case Frame(p) => FrameKin(s, sl, p);
      case Backing(e) => BackingKin(s, sl, e);
    }
    OneOrMore(Kin(s, sl), sl);
  }

  /** A fault is answered by what the entry names: nothing yet, a page on disk, or a page in memory that has to be copied when
      another entry stands for it or it is being written. */
  lemma FaultAnswers(s: State, sl: Slot, write: bool, q: Option<Page>, q2: Option<Page>, readOk: bool)
    requires Core(s) && sl in s.area
    ensures sl !in s.pte && (s.area[sl].Private? || s.area[sl].shm !in s.pte) ==>
              Fetched(s, sl, write, q, q2, readOk) == (if q.Some? then Ok else NoMem)
    ensures sl !in s.pte && s.area[sl].Shared? && s.area[sl].shm in s.pte && s.pte[s.area[sl].shm].Present? ==>
              Fetched(s, sl, write, q, q2, readOk) == Ok
    ensures forall e :: (sl in s.pte && s.pte[sl] == Swapped(e)) ||
                        (sl !in s.pte && s.area[sl].Shared? && s.area[sl].shm in s.pte && s.pte[s.area[sl].shm] == Swapped(e)) ==>
              && (Fetched(s, sl, write, q, q2, readOk) == Ok <==> e in s.cache || (q2.Some? && readOk))
              && (Fetched(s, sl, write, q, q2, readOk) == NoMem <==> e !in s.cache && q2 == None)
    ensures sl in s.pte && s.pte[sl].Present? ==>
              Fetched(s, sl, write, q, q2, readOk) ==
              (if write && s.area[sl].Private? && q == None && (Kin(s, sl) != {sl} || BeingWritten(s, s.pte[sl])) then NoMem else Ok)
    ensures Stalls(s, sl, write, q, q2, readOk) <==>
              && Fetched(s, sl, write, q, q2, readOk) == Ok && sl in s.pte && s.pte[sl].Swapped?
              && write && s.area[sl].Private? && q == None && (Kin(s, sl) != {sl} || BeingWritten(s, s.pte[sl]))
    ensures q.Some? && q2.Some? && readOk ==>
              Fetched(s, sl, write, q, q2, readOk) == Ok && !Stalls(s, sl, write, q, q2, readOk)
  {
    if sl in s.pte {
      WeightMeans(s, sl);
    }
  }

  lemma OneOrMore(ns: set<Slot>, sl: Slot)
    requires sl in ns
    ensures |ns| >= 1 && (|ns| == 1 <==> ns == {sl})
  {
    assert ns == (ns - {sl}) + {sl};
    assert ns == {sl} <==> ns - {sl} == {};
  }

  lemma FrameKin(s: State, sl: Slot, p: Page)
    requires Core(s) && sl in s.pte && Obj(s.index, s.pte[sl]) == Frame(p)
    ensures Weight(s, s.pte[sl]) == |Kin(s, sl)| && !BeingWritten(s, s.pte[sl])
  {
    assert Kin(s, sl) == Namers(s.pte, Frame(p));
    assert Holds(Naming, s) && Holds(Refs, s);
  }

  lemma BackingKin(s: State, sl: Slot, e: Entry)
    requires Core(s) && sl in s.pte && Obj(s.index, s.pte[sl]) == Backing(e)
    ensures Weight(s, s.pte[sl]) == |Kin(s, sl)| + Pin(s, e) && (BeingWritten(s, s.pte[sl]) <==> Pin(s, e) == 1)
  {
    EntryUsed(s, sl, e);
    var outs, ins := Namers(s.pte, Backing(e)), if e in s.cache then Namers(s.pte, Frame(s.cache[e])) else {};
    assert Holds(Cache, s);
    KinSplit(s, sl, e, outs, ins);
    assert Holds(Refs, s);
    assert Holds(SwapMap, s);
    assert |outs + ins| == |outs| + |ins|;
  }

  lemma EntryUsed(s: State, sl: Slot, e: Entry)
    requires Core(s) && sl in s.pte && Obj(s.index, s.pte[sl]) == Backing(e)
    ensures 0 < e < |s.memMap| && s.memMap[e] != SWAP_UNUSED
    ensures e in s.cache ==> s.cache[e] in s.ref && s.cache[e] in s.index && s.index[s.cache[e]] == e
    ensures s.pte[sl].Present? ==> e in s.cache && s.pte[sl].page == s.cache[e]
  {
    assert Holds(Naming, s) && Holds(Cache, s);
  }

  lemma KinSplit(s: State, sl: Slot, e: Entry, outs: set<Slot>, ins: set<Slot>)
    requires CacheOk(s) && sl in s.pte && Obj(s.index, s.pte[sl]) == Backing(e)
    requires outs == Namers(s.pte, Backing(e)) && ins == if e in s.cache then Namers(s.pte, Frame(s.cache[e])) else {}
    ensures Kin(s, sl) == outs + ins && outs !! ins
  {
    forall y
      ensures y in Kin(s, sl) <==> y in outs + ins
    {
    }
  }

  lemma FreeUnnamed(s: State, p: Page)
    requires Core(s) && p in s.free
    ensures p in s.ref && s.ref[p] == 0
  {
    assert Holds(Shape, s) && Holds(Naming, s) && Holds(Refs, s);
    CountZero(s.pte, Frame(p));
  }
}

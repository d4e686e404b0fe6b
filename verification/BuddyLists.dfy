/** The free lists of a buddy allocator, one for each order, against the block heads they link. */
module BuddyLists {
  import opened Lists
  import opened BuddyMath
  import opened BuddyBlocks

  lemma DelIs(s: seq<Page>, p: Page)
    requires Distinct(s) && p in s
    ensures Distinct(Without(s, p)) && |Without(s, p)| == |s| - 1
    ensures forall q: Page :: q in Without(s, p) <==> q in s && q != p
  {
    WithoutAll(s, p);
    WithoutSize(s, p);
  }

  lemma ConsIs(s: seq<Page>, p: Page)
    requires Distinct(s) && p !in s
    ensures Distinct([p] + s) && forall q :: q in [p] + s <==> q == p || q in s
  {
    var t := [p] + s;
    forall i, j | 0 <= i < j < |t| ensures t[i] != t[j] {
      assert t[j] == s[j - 1] && s[j - 1] in s;
    }
  }

  /** List `o` links exactly the heads of order `o`, and its count is its length. */
  ghost predicate ListOk(list: seq<Page>, nr: nat, o: nat, h: Heads) {
    nr == |list| && Distinct(list) && forall p :: p in list <==> IsBlock(h, p, o)
  }

  ghost predicate ListsOk(lists: seq<seq<Page>>, nr: seq<nat>, h: Heads) {
    && |lists| == |nr| == MAX_ORDER + 1
    && (forall o :: 0 <= o <= MAX_ORDER ==> ListOk(lists[o], nr[o], o, h))
  }

  lemma ListAdd(lists: seq<seq<Page>>, nr: seq<nat>, h: Heads, p: Page, o: nat)
    requires ListsOk(lists, nr, h) && o <= MAX_ORDER && p !in h
    ensures ListsOk(lists[o := [p] + lists[o]], nr[o := nr[o] + 1], h[p := o])
  {
    var lists', nr', h' := lists[o := [p] + lists[o]], nr[o := nr[o] + 1], h[p := o];
    forall k | 0 <= k <= MAX_ORDER ensures ListOk(lists'[k], nr'[k], k, h') {
      assert ListOk(lists[k], nr[k], k, h);
      if k == o {
        ConsIs(lists[k], p);
      }
    }
  }

  lemma ListWithout(lists: seq<seq<Page>>, nr: seq<nat>, h: Heads, p: Page, o: nat)
    requires ListsOk(lists, nr, h) && o <= MAX_ORDER && IsBlock(h, p, o)
    ensures nr[o] > 0 && ListsOk(lists[o := Without(lists[o], p)], nr[o := nr[o] - 1], h - {p})
  {
    assert ListOk(lists[o], nr[o], o, h);
    DelIs(lists[o], p);
    var lists', nr', h' := lists[o := Without(lists[o], p)], nr[o := nr[o] - 1], h - {p};
    forall k | 0 <= k <= MAX_ORDER ensures ListOk(lists'[k], nr'[k], k, h') {
      assert ListOk(lists[k], nr[k], k, h);
    }
  }

  // ---- the whole state

  datatype State = State(lists: seq<seq<Page>>, nr: seq<nat>, heads: Heads, free: set<Page>, sizes: seq<nat>)

  datatype Part = Blocks | Links | Count

  ghost predicate Holds(part: Part, s: State) {
    match part
    case Blocks => Canon(s.heads, s.free, s.sizes)
    case Links => ListsOk(s.lists, s.nr, s.heads)
    case Count => |s.nr| == MAX_ORDER + 1 && Total(s.nr, 0) == |s.free|
  }

  /** Canonical blocks, linked by the lists; the counts add up to the free pages. */
  ghost predicate Ok(s: State) {
    forall part :: Holds(part, s)
  }

  /** Set PG_property on p and link it. */
  function Put(s: State, p: Page, o: nat): State
    requires o < |s.lists| && o < |s.nr|
  {
    s.(lists := s.lists[o := [p] + s.lists[o]], nr := s.nr[o := s.nr[o] + 1], heads := s.heads[p := o])
  }

  /** Clear PG_property on p and unlink it. */
  function Drop(s: State, p: Page, o: nat): State
    requires o < |s.lists| && o < |s.nr| && s.nr[o] > 0
  {
    s.(lists := s.lists[o := Without(s.lists[o], p)], nr := s.nr[o := s.nr[o] - 1], heads := s.heads - {p})
  }

  lemma CountIs(s: State)
    requires Ok(s)
    ensures |s.nr| == MAX_ORDER + 1 && Total(s.nr, 0) == |s.free|
  {
    assert Holds(Count, s);
  }

  lemma PutOk(s: State, p: Page, o: nat)
    requires Ok(s) && Fits(s.sizes, p, o) && Run(p, Pow2(o)) !! s.free
    requires o < MAX_ORDER ==> !IsBlock(s.heads, Buddy(p, o), o)
    ensures |s.lists| == |s.nr| == MAX_ORDER + 1
    ensures Ok(Put(s, p, o).(free := s.free + Run(p, Pow2(o))))
  {
    assert Holds(Blocks, s) && Holds(Links, s) && Holds(Count, s);
    var s' := Put(s, p, o).(free := s.free + Run(p, Pow2(o)));
    Add(s.heads, s.free, s.sizes, p, o);
    forall part ensures Holds(part, s') {
      match part
      case Blocks =>
      case Links => ListAdd(s.lists, s.nr, s.heads, p, o);
      case Count => AddCount(s.nr, o, s.free, p);
    }
  }

  lemma AddCount(nr: seq<nat>, o: nat, free: set<Page>, p: Page)
    requires o < |nr| && Total(nr, 0) == |free| && Run(p, Pow2(o)) !! free
    ensures Total(nr[o := nr[o] + 1], 0) == |free + Run(p, Pow2(o))|
  {
    TotalUpdate(nr, 0, o, nr[o] + 1);
    RunSize(p, Pow2(o));
    Distrib(nr[o], 1, Pow2(o));
  }

  lemma DropOk(s: State, p: Page, o: nat)
    requires Ok(s) && o <= MAX_ORDER && IsBlock(s.heads, p, o)
    ensures |s.lists| == |s.nr| == MAX_ORDER + 1 && s.nr[o] > 0
    ensures Ok(Drop(s, p, o).(free := s.free - Run(p, Pow2(o))))
    ensures Run(p, Pow2(o)) <= s.free && Fits(s.sizes, p, o)
  {
    assert Holds(Blocks, s) && Holds(Links, s) && Holds(Count, s);
    Remove(s.heads, s.free, s.sizes, p);
    ListWithout(s.lists, s.nr, s.heads, p, o);
    var s' := Drop(s, p, o).(free := s.free - Run(p, Pow2(o)));
    forall part ensures Holds(part, s') {
      match part
      case Blocks =>
      case Links =>
      case Count => DelCount(s.nr, o, s.free, p);
    }
  }

  lemma DelCount(nr: seq<nat>, o: nat, free: set<Page>, p: Page)
    requires o < |nr| && nr[o] > 0 && Total(nr, 0) == |free| && Run(p, Pow2(o)) <= free
    ensures Total(nr[o := nr[o] - 1], 0) == |free - Run(p, Pow2(o))|
  {
    TotalUpdate(nr, 0, o, nr[o] - 1);
    RunSize(p, Pow2(o));
    Distrib(nr[o] - 1, 1, Pow2(o));
  }

  lemma FirstIsBlock(s: State, o: nat)
    requires Ok(s) && o <= MAX_ORDER
    ensures |s.lists| == MAX_ORDER + 1
    ensures s.lists[o] != [] ==> IsBlock(s.heads, s.lists[o][0], o)
    ensures s.lists[o] == [] ==> forall p :: !IsBlock(s.heads, p, o)
  {
    assert Holds(Links, s);
    assert ListOk(s.lists[o], s.nr[o], o, s.heads);
  }

  lemma BlockOrRun(s: State, k: nat)
    requires Ok(s) && k <= MAX_ORDER
    ensures HasBlock(s.heads, k) <==> HasRun(s.free, k)
  {
    assert Holds(Blocks, s);
    RunIffBlock(s.heads, s.free, s.sizes, k);
  }

  lemma SearchStep(s: State, o: nat)
    requires Ok(s) && o <= MAX_ORDER
    ensures |s.lists| == MAX_ORDER + 1
    ensures s.lists[o] != [] ==> HasBlock(s.heads, o)
    ensures s.lists[o] == [] ==> (HasBlock(s.heads, o) <==> HasBlock(s.heads, o + 1))
  {
    FirstIsBlock(s, o);
    if s.lists[o] == [] && HasBlock(s.heads, o) {
      var p :| p in s.heads && s.heads[p] >= o;
      assert !IsBlock(s.heads, p, o);
    }
  }

  lemma SearchEnd(s: State)
    requires Ok(s)
    ensures !HasBlock(s.heads, MAX_ORDER + 1)
  {
    assert Holds(Blocks, s);
    assert forall p :: p in s.heads ==> Fits(s.sizes, p, s.heads[p]);
  }

  // ---- splitting a block

  /** The upper half of an aligned run is its lower half's buddy. */
  lemma Upper(sizes: seq<nat>, p: Page, o: nat)
    requires Fits(sizes, p, o + 1)
    ensures var b := Page(p.zone, p.idx + Pow2(o));
      && b != p && Fits(sizes, p, o) && Fits(sizes, b, o) && Buddy(b, o) == p
      && Run(p, Pow2(o + 1)) == Run(p, Pow2(o)) + Run(b, Pow2(o)) && Run(p, Pow2(o)) !! Run(b, Pow2(o))
  {
    UpperFits(sizes, p, o);
    RunSplit(p, Pow2(o), Pow2(o));
  }

  lemma UpperFits(sizes: seq<nat>, p: Page, o: nat)
    requires Fits(sizes, p, o + 1)
    ensures var b := Page(p.zone, p.idx + Pow2(o)); b != p && Fits(sizes, p, o) && Fits(sizes, b, o) && Buddy(b, o) == p
    ensures Pow2(o + 1) == Pow2(o) + Pow2(o)
  {
    Halves(p.idx, o);
    Siblings(p.idx, o);
  }

  /** Of a block of order o + 1 that has been taken out, the upper half is put back. */
  lemma UpperOk(s: State, p: Page, b: Page, o: nat)
    requires Ok(s.(heads := s.heads - {p})) && Fits(s.sizes, b, o) && Buddy(b, o) == p && b != p && Run(b, Pow2(o)) !! s.free
    ensures |s.lists| == |s.nr| == MAX_ORDER + 1
    ensures Ok(State(s.lists[o := [b] + s.lists[o]], s.nr[o := s.nr[o] + 1], (s.heads - {p})[b := o], s.free + Run(b, Pow2(o)), s.sizes))
  {
    PutOk(s.(heads := s.heads - {p}), b, o);
  }

  lemma LaterGone(h: Heads, p: Page, b: Page, o: nat)
    requires b != p
    ensures (h - {p})[b := o] == h[b := o] - {p}
  {}

  // ---- coalescing

  /** A run and its free buddy make the run above them. */
  lemma MergeOk(s: State, p: Page, o: nat)
    requires Ok(s) && Fits(s.sizes, p, o) && Run(p, Pow2(o)) !! s.free && o < MAX_ORDER && IsBlock(s.heads, Buddy(p, o), o)
    ensures |s.lists| == |s.nr| == MAX_ORDER + 1 && s.nr[o] > 0
    ensures var b, up := Buddy(p, o), Page(p.zone, Parent(p.idx, o));
      && Ok(Drop(s, b, o).(free := s.free - Run(b, Pow2(o)))) && Run(b, Pow2(o)) <= s.free
      && Fits(s.sizes, up, o + 1) && Run(up, Pow2(o + 1)) == Run(p, Pow2(o)) + Run(b, Pow2(o))
  {
    var b, up := Buddy(p, o), Page(p.zone, Parent(p.idx, o));
    DropOk(s, b, o);
    Siblings(p.idx, o);
    RunSplit(up, Pow2(o), Pow2(o));
  }

  datatype StepPart = Sane | Shape | Sets

  ghost predicate MergingIn(part: StepPart, s: State, p: Page, o: nat, all: set<Page>) {
    match part
    case Sane => Ok(s)
    case Shape => Fits(s.sizes, p, o)
    case Sets => Run(p, Pow2(o)) !! s.free && s.free + Run(p, Pow2(o)) == all
  }

  /** A run waiting to be put back: together with the free pages it makes up `all`. */
  ghost predicate Merging(s: State, p: Page, o: nat, all: set<Page>) {
    forall part :: MergingIn(part, s, p, o, all)
  }

  lemma MergingIs(s: State, p: Page, o: nat, all: set<Page>)
    ensures Merging(s, p, o, all) <==>
      Ok(s) && Fits(s.sizes, p, o) && Run(p, Pow2(o)) !! s.free && s.free + Run(p, Pow2(o)) == all
  {
    if Merging(s, p, o, all) {
      assert MergingIn(Sane, s, p, o, all) && MergingIn(Shape, s, p, o, all) && MergingIn(Sets, s, p, o, all);
    }
    if Ok(s) && Fits(s.sizes, p, o) && Run(p, Pow2(o)) !! s.free && s.free + Run(p, Pow2(o)) == all {
      forall part ensures MergingIn(part, s, p, o, all) {
        match part
        case Sane =>
        case Shape =>
        case Sets =>
      }
    }
  }

  /** One step of coalescing: the pages free or held stay the same. */
  lemma MergeStep(s: State, p: Page, o: nat, all: set<Page>)
    requires Merging(s, p, o, all) && o < MAX_ORDER && IsBlock(s.heads, Buddy(p, o), o)
    ensures |s.lists| == |s.nr| == MAX_ORDER + 1 && s.nr[o] > 0
    ensures var b := Buddy(p, o);
      Merging(Drop(s, b, o).(free := s.free - Run(b, Pow2(o))), Page(p.zone, Parent(p.idx, o)), o + 1, all)
  {
    MergingIs(s, p, o, all);
    MergeOk(s, p, o);
    var b := Buddy(p, o);
    MergingIs(Drop(s, b, o).(free := s.free - Run(b, Pow2(o))), Page(p.zone, Parent(p.idx, o)), o + 1, all);
  }

  ghost predicate CuttingIn(part: StepPart, s: State, p: Page, o: nat, was: set<Page>) {
    match part
    case Sane => Ok(s.(heads := s.heads - {p}))
    case Shape => Fits(s.sizes, p, o)
    case Sets => Run(p, Pow2(o)) <= was && s.free == was - Run(p, Pow2(o))
  }

  /** A block taken from the free pages `was`, its head not yet cleared. */
  ghost predicate Cutting(s: State, p: Page, o: nat, was: set<Page>) {
    forall part :: CuttingIn(part, s, p, o, was)
  }

  lemma CuttingIs(s: State, p: Page, o: nat, was: set<Page>)
    ensures Cutting(s, p, o, was) <==>
      Ok(s.(heads := s.heads - {p})) && Fits(s.sizes, p, o) && Run(p, Pow2(o)) <= was && s.free == was - Run(p, Pow2(o))
  {
    if Cutting(s, p, o, was) {
      assert CuttingIn(Sane, s, p, o, was) && CuttingIn(Shape, s, p, o, was) && CuttingIn(Sets, s, p, o, was);
    }
    if Ok(s.(heads := s.heads - {p})) && Fits(s.sizes, p, o) && Run(p, Pow2(o)) <= was && s.free == was - Run(p, Pow2(o)) {
      forall part ensures CuttingIn(part, s, p, o, was) {
        match part
        case Sane =>
        case Shape =>
        case Sets =>
      }
    }
  }

  /** One step of splitting: of the block taken out, the lower half remains. */
  lemma SplitStep(s: State, p: Page, o: nat, was: set<Page>)
    requires Cutting(s, p, o + 1, was)
    ensures |s.lists| == |s.nr| == MAX_ORDER + 1 && o < MAX_ORDER
    ensures var b := Page(p.zone, p.idx + Pow2(o));
      Cutting(State(s.lists[o := [b] + s.lists[o]], s.nr[o := s.nr[o] + 1], s.heads[b := o], s.free + Run(b, Pow2(o)), s.sizes), p, o, was)
  {
    CuttingIs(s, p, o + 1, was);
    var b := Page(p.zone, p.idx + Pow2(o));
    Upper(s.sizes, p, o);
    UpperOk(s, p, b, o);
    LaterGone(s.heads, p, b, o);
    CuttingIs(State(s.lists[o := [b] + s.lists[o]], s.nr[o := s.nr[o] + 1], s.heads[b := o], s.free + Run(b, Pow2(o)), s.sizes), p, o, was);
  }

  /** Pages that are not free are not block heads: the assertion on the pages being freed cannot fail. */
  lemma NotHeads(s: State, p: Page, n: nat)
    requires Ok(s) && Run(p, n) !! s.free
    ensures forall x :: x in Run(p, n) ==> x !in s.heads
  {
    assert Holds(Blocks, s);
    forall x | x in Run(p, n) ensures x !in s.heads {
      assert x in s.heads ==> Spans(x, s.heads[x], x);
      assert x in s.heads ==> Covered(s.heads, x);
    }
  }

  // ---- ranges held by a caller, and given back

  datatype HeldPart = InZone | NotFree

  ghost predicate HeldIn(part: HeldPart, s: State, p: Page, n: nat) {
    match part
    case InZone => p.zone < |s.sizes| && p.idx + n <= s.sizes[p.zone]
    case NotFree => Run(p, n) !! s.free
  }

  /** n pages of one zone from p on, none of them free. */
  ghost predicate Held(s: State, p: Page, n: nat) {
    forall part :: HeldIn(part, s, p, n)
  }

  datatype GainPart = StillOk | MorePages

  ghost predicate GainIn(part: GainPart, s: State, s': State, p: Page, n: nat) {
    match part
    case StillOk => Ok(s') && s'.sizes == s.sizes
    case MorePages => s'.free == s.free + Run(p, n)
  }

  /** Exactly these n pages have become free. */
  ghost predicate Gained(s: State, s': State, p: Page, n: nat) {
    forall part :: GainIn(part, s, s', p, n)
  }

  lemma GainedIs(s: State, s': State, p: Page, n: nat)
    ensures Gained(s, s', p, n) <==> Ok(s') && s'.sizes == s.sizes && s'.free == s.free + Run(p, n)
  {
    if Gained(s, s', p, n) {
      assert GainIn(StillOk, s, s', p, n) && GainIn(MorePages, s, s', p, n);
    }
    if Ok(s') && s'.sizes == s.sizes && s'.free == s.free + Run(p, n) {
      forall part ensures GainIn(part, s, s', p, n) {
        match part
        case StillOk =>
        case MorePages =>
      }
    }
  }

  lemma HeldIs(s: State, p: Page, n: nat)
    ensures Held(s, p, n) <==> p.zone < |s.sizes| && p.idx + n <= s.sizes[p.zone] && Run(p, n) !! s.free
  {
    if Held(s, p, n) {
      assert HeldIn(InZone, s, p, n) && HeldIn(NotFree, s, p, n);
    }
    if p.zone < |s.sizes| && p.idx + n <= s.sizes[p.zone] && Run(p, n) !! s.free {
      forall part ensures HeldIn(part, s, p, n) {
        match part
        case InZone =>
        case NotFree =>
      }
    }
  }

  lemma GainedNothing(s: State, p: Page)
    requires Ok(s)
    ensures Gained(s, s, p, 0)
  {
    assert Run(p, 0) == {};
    GainedIs(s, s, p, 0);
  }

  /** After a first part of a held range has been freed, the next part is still held. */
  lemma HeldAfter(s: State, s': State, p: Page, len: nat, a: nat, b: nat)
    requires Held(s, p, len) && Gained(s, s', p, a) && a + b <= len
    ensures Held(s', Page(p.zone, p.idx + a), b)
  {
    HeldIs(s, p, len);
    GainedIs(s, s', p, a);
    RunSplit(p, a, b);
    RunSplit(p, a + b, len - a - b);
    HeldIs(s', Page(p.zone, p.idx + a), b);
  }

  lemma GainedBoth(s: State, s1: State, s2: State, p: Page, a: nat, b: nat)
    requires Gained(s, s1, p, a) && Gained(s1, s2, Page(p.zone, p.idx + a), b)
    ensures Gained(s, s2, p, a + b)
  {
    GainedIs(s, s1, p, a);
    GainedIs(s1, s2, Page(p.zone, p.idx + a), b);
    RunSplit(p, a, b);
    GainedIs(s, s2, p, a + b);
  }

  lemma HeldFits(s: State, p: Page, o: nat)
    requires Held(s, p, Pow2(o)) && Aligned(p.idx, o) && o <= MAX_ORDER
    ensures Fits(s.sizes, p, o) && Run(p, Pow2(o)) !! s.free
  {
    HeldIs(s, p, Pow2(o));
  }
}

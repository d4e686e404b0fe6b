/** Free blocks of a buddy allocator: the free pages determine them. */
module BuddyBlocks {
  import opened BuddyMath

  const MAX_ORDER: nat := 10

  /** A page, by its zone and its index from the zone's first page. */
  datatype Page = Page(zone: nat, idx: nat)

  /** The pages with PG_property set, with their `property`: the heads of the free blocks. */
  type Heads = map<Page, nat>

  predicate Spans(p: Page, o: nat, x: Page) {
    x.zone == p.zone && p.idx <= x.idx < p.idx + Pow2(o)
  }

  /** n pages from p on. */
  ghost function Run(p: Page, n: nat): set<Page> {
    set i | p.idx <= i < p.idx + n :: Page(p.zone, i)
  }

  lemma RunMember(p: Page, n: nat, x: Page)
    ensures x in Run(p, n) <==> x.zone == p.zone && p.idx <= x.idx < p.idx + n
  {
    if x.zone == p.zone && p.idx <= x.idx < p.idx + n {
      assert x == Page(p.zone, x.idx);
    }
  }

  function Buddy(p: Page, o: nat): Page {
    Page(p.zone, BuddyOf(p.idx, o))
  }

  ghost predicate Fits(sizes: seq<nat>, p: Page, o: nat) {
    p.zone < |sizes| && o <= MAX_ORDER && Aligned(p.idx, o) && p.idx + Pow2(o) <= sizes[p.zone]
  }

  ghost predicate Shaped(h: Heads, sizes: seq<nat>) {
    forall p :: p in h ==> Fits(sizes, p, h[p])
  }

  ghost predicate Separate(h: Heads) {
    forall p, q :: p in h && q in h && p != q ==> Apart(p, h[p], q, h[q])
  }

  predicate Apart(p: Page, a: nat, q: Page, b: nat) {
    p.zone != q.zone || p.idx + Pow2(a) <= q.idx || q.idx + Pow2(b) <= p.idx
  }

  ghost predicate Covered(h: Heads, x: Page) {
    exists p :: p in h && Spans(p, h[p], x)
  }

  ghost predicate Exact(h: Heads, free: set<Page>) {
    forall x :: x in free <==> Covered(h, x)
  }

  /** No two buddies below the largest order are both free. */
  ghost predicate Merged(h: Heads) {
    forall p :: p in h && h[p] < MAX_ORDER ==> !IsBlock(h, Buddy(p, h[p]), h[p])
  }

  predicate IsBlock(h: Heads, p: Page, o: nat) {
    p in h && h[p] == o
  }

  ghost predicate Canon(h: Heads, free: set<Page>, sizes: seq<nat>) {
    Shaped(h, sizes) && Separate(h) && Exact(h, free) && Merged(h)
  }

  // ---- the free pages determine the blocks

  /** Two runs of one order that share a page are the same run. */
  lemma SameRun(p: Page, q: Page, o: nat, x: Page)
    requires Aligned(p.idx, o) && Aligned(q.idx, o) && Spans(p, o, x) && Spans(q, o, x)
    ensures p == q
  {
    Nested(p.idx, o, q.idx, o, x.idx);
    Nested(q.idx, o, p.idx, o, x.idx);
  }

  /** The page lies in a free block of order at most `k`. */
  ghost predicate CoveredUpTo(h: Heads, k: nat, x: Page) {
    exists q :: q in h && h[q] <= k && Spans(q, h[q], x)
  }

  /** Every page of the run is covered by a block no larger than the run. */
  ghost predicate Filled(h: Heads, p: Page, k: nat) {
    forall x :: Spans(p, k, x) ==> CoveredUpTo(h, k, x)
  }

  datatype TidyPart = OfShape | OfPlace | OfMerging

  ghost predicate TidyIn(part: TidyPart, h: Heads, sizes: seq<nat>) {
    match part
    case OfShape => Shaped(h, sizes)
    case OfPlace => Separate(h)
    case OfMerging => Merged(h)
  }

  ghost predicate Tidy(h: Heads, sizes: seq<nat>) {
    forall part :: TidyIn(part, h, sizes)
  }

  lemma CanonTidy(h: Heads, free: set<Page>, sizes: seq<nat>)
    requires Canon(h, free, sizes)
    ensures Tidy(h, sizes)
  {
    forall part ensures TidyIn(part, h, sizes) {
      match part
      case OfShape =>
      case OfPlace =>
      case OfMerging =>
    }
  }

  /** A run filled by blocks that fit inside it is itself one block. */
  lemma {:induction false} FilledIsBlock(h: Heads, sizes: seq<nat>, p: Page, k: nat)
    requires Tidy(h, sizes) && k <= MAX_ORDER && Aligned(p.idx, k) && Filled(h, p, k)
    ensures IsBlock(h, p, k)
    decreases k, 1
  {
    assert TidyIn(OfShape, h, sizes);
    assert Spans(p, k, p) && CoveredUpTo(h, k, p);
    var q :| q in h && h[q] <= k && Spans(q, h[q], p);
    assert Fits(sizes, q, h[q]);
    if k > 0 {
      NoSmallerBlock(h, sizes, p, k - 1, q);
    }
    SameRun(p, q, k, p);
  }

  /** A block smaller than the run at its front would make both halves blocks, which would have been merged. */
  lemma {:induction false} NoSmallerBlock(h: Heads, sizes: seq<nat>, p: Page, j: nat, q: Page)
    requires Tidy(h, sizes) && j < MAX_ORDER && Aligned(p.idx, j + 1) && Filled(h, p, j + 1)
    ensures !(q in h && h[q] <= j && Spans(q, h[q], p))
    decreases j + 1, 0
  {
    NotBothHalves(h, sizes, p, j);
    if q in h && h[q] <= j && Spans(q, h[q], p) {
      FilledHalves(h, sizes, p, j + 1, q);
      Halves(p.idx, j);
      FilledIsBlock(h, sizes, p, j);
      FilledIsBlock(h, sizes, Page(p.zone, p.idx + Pow2(j)), j);
    }
  }

  lemma NotBothHalves(h: Heads, sizes: seq<nat>, p: Page, o: nat)
    requires Tidy(h, sizes) && o < MAX_ORDER && Aligned(p.idx, o + 1)
    ensures !(IsBlock(h, p, o) && IsBlock(h, Page(p.zone, p.idx + Pow2(o)), o))
  {
    assert TidyIn(OfMerging, h, sizes);
    assert Buddy(p, o) == Page(p.zone, p.idx + Pow2(o));
  }

  lemma FilledHalves(h: Heads, sizes: seq<nat>, p: Page, k: nat, q: Page)
    requires Tidy(h, sizes) && 0 < k <= MAX_ORDER && Aligned(p.idx, k) && Filled(h, p, k)
    requires q in h && h[q] < k && Spans(q, h[q], p)
    ensures Filled(h, p, k - 1) && Filled(h, Page(p.zone, p.idx + Pow2(k - 1)), k - 1)
  {
    assert TidyIn(OfShape, h, sizes) && TidyIn(OfPlace, h, sizes);
    var j: nat := k - 1;
    var half := Page(p.zone, p.idx + Pow2(j));
    forall x | Spans(p, j, x) ensures CoveredUpTo(h, j, x) {
      SmallerCover(h, sizes, p, k, q, x);
    }
    forall x | Spans(half, j, x) ensures CoveredUpTo(h, j, x) {
      SmallerCover(h, sizes, p, k, q, x);
    }
  }

  lemma SmallerCover(h: Heads, sizes: seq<nat>, p: Page, k: nat, q: Page, x: Page)
    requires Shaped(h, sizes) && Separate(h) && 0 < k <= MAX_ORDER && Aligned(p.idx, k) && Filled(h, p, k)
    requires q in h && h[q] < k && Spans(q, h[q], p) && Spans(p, k, x)
    ensures CoveredUpTo(h, k - 1, x)
  {
    var r :| r in h && h[r] <= k && Spans(r, h[r], x);
    assert r != q ==> Apart(r, h[r], q, h[q]);
    if h[r] == k {
      SameRun(p, r, k, x);
    }
  }

  /** All pages of the run are free. */
  ghost predicate AllFree(free: set<Page>, p: Page, o: nat) {
    forall x :: Spans(p, o, x) ==> x in free
  }

  ghost predicate Maximal(free: set<Page>, p: Page, o: nat) {
    && o <= MAX_ORDER && Aligned(p.idx, o) && AllFree(free, p, o)
    && (o < MAX_ORDER ==> !AllFree(free, Page(p.zone, Parent(p.idx, o)), o + 1))
  }

  /** The blocks are exactly the largest aligned runs of free pages. */
  lemma BlocksAreMaximal(h: Heads, free: set<Page>, sizes: seq<nat>, p: Page, o: nat)
    requires Canon(h, free, sizes)
    ensures IsBlock(h, p, o) <==> Maximal(free, p, o)
  {
    if IsBlock(h, p, o) {
      BlockIsMaximal(h, free, sizes, p, o);
    }
    if Maximal(free, p, o) {
      MaximalIsBlock(h, free, sizes, p, o);
    }
  }

  lemma BlockIsMaximal(h: Heads, free: set<Page>, sizes: seq<nat>, p: Page, o: nat)
    requires Canon(h, free, sizes) && IsBlock(h, p, o)
    ensures Maximal(free, p, o)
  {
    forall x | Spans(p, o, x) ensures x in free {
      assert Covered(h, x);
    }
    Siblings(p.idx, o);
    var up := Page(p.zone, Parent(p.idx, o));
    if o < MAX_ORDER && AllFree(free, up, o + 1) {
      Halves(up.idx, o);
      forall x | Spans(Buddy(p, o), o, x) ensures CoveredUpTo(h, o, x) {
        assert Spans(up, o + 1, x) && x in free;
        assert Covered(h, x);
        var q :| q in h && Spans(q, h[q], x);
        assert q != p ==> Apart(q, h[q], p, o);
        if h[q] > o {
          LargerMeets(p, o, q, h[q], up, x);
        }
      }
      CanonTidy(h, free, sizes);
      FilledIsBlock(h, sizes, Buddy(p, o), o);
    }
  }

  /** A block larger than half of a run, with a page in that run, holds all of it. */
  lemma LargerMeets(p: Page, o: nat, q: Page, k: nat, up: Page, x: Page)
    requires Aligned(up.idx, o + 1) && Aligned(q.idx, k) && k > o && Spans(up, o + 1, x) && Spans(q, k, x)
    requires p.zone == up.zone && up.idx <= p.idx && p.idx + Pow2(o) <= up.idx + Pow2(o + 1)
    ensures Spans(q, k, p)
  {
    Nested(up.idx, o + 1, q.idx, k, x.idx);
  }

  lemma MaximalIsBlock(h: Heads, free: set<Page>, sizes: seq<nat>, p: Page, o: nat)
    requires Canon(h, free, sizes) && Maximal(free, p, o)
    ensures IsBlock(h, p, o)
  {
    forall x | Spans(p, o, x) ensures CoveredUpTo(h, o, x) {
      assert Covered(h, x);
      var q :| q in h && Spans(q, h[q], x);
      if h[q] > o {
        LargerBlock(h, free, p, o, q, x);
      }
    }
    CanonTidy(h, free, sizes);
    FilledIsBlock(h, sizes, p, o);
  }

  lemma LargerBlock(h: Heads, free: set<Page>, p: Page, o: nat, q: Page, x: Page)
    requires Exact(h, free) && Aligned(p.idx, o) && Spans(p, o, x) && q in h && h[q] > o && Aligned(q.idx, h[q]) && Spans(q, h[q], x)
    ensures AllFree(free, Page(p.zone, Parent(p.idx, o)), o + 1)
  {
    Siblings(p.idx, o);
    var up := Page(p.zone, Parent(p.idx, o));
    assert Spans(up, o + 1, x);
    Nested(up.idx, o + 1, q.idx, h[q], x.idx);
    forall y | Spans(up, o + 1, y) ensures y in free {
      assert Spans(q, h[q], y) && Covered(h, y);
    }
  }

  /** Two canonical sets of blocks with the same free pages are the same. */
  lemma BlocksUnique(h: Heads, h': Heads, free: set<Page>, sizes: seq<nat>, sizes': seq<nat>)
    requires Canon(h, free, sizes) && Canon(h', free, sizes')
    ensures h == h'
  {
    forall p | p in h ensures p in h' && h'[p] == h[p] {
      BlocksAreMaximal(h, free, sizes, p, h[p]);
      BlocksAreMaximal(h', free, sizes', p, h[p]);
    }
    forall p | p in h' ensures p in h {
      BlocksAreMaximal(h', free, sizes', p, h'[p]);
      BlocksAreMaximal(h, free, sizes, p, h'[p]);
    }
  }

  /** Some aligned run of 2^k pages is wholly free. */
  ghost predicate HasRun(free: set<Page>, k: nat) {
    exists p: Page :: Aligned(p.idx, k) && AllFree(free, p, k)
  }

  ghost predicate HasBlock(h: Heads, k: nat) {
    exists p :: p in h && h[p] >= k
  }

  /** There is a block of order `k` or more exactly if some aligned run of 2^k pages is free. */
  lemma RunIffBlock(h: Heads, free: set<Page>, sizes: seq<nat>, k: nat)
    requires Canon(h, free, sizes) && k <= MAX_ORDER
    ensures HasBlock(h, k) <==> HasRun(free, k)
  {
    if p :| p in h && h[p] >= k {
      AlignedLe(p.idx, k, h[p]);
      PowMono(k, h[p]);
      forall x | Spans(p, k, x) ensures x in free {
        assert Spans(p, h[p], x) && Covered(h, x);
      }
    }
    if p: Page :| Aligned(p.idx, k) && AllFree(free, p, k) {
      if forall q :: q in h ==> h[q] < k {
        forall x | Spans(p, k, x) ensures CoveredUpTo(h, k, x) {
          assert Covered(h, x);
        }
        CanonTidy(h, free, sizes);
        FilledIsBlock(h, sizes, p, k);
      }
    }
  }

  // ---- taking out and putting in one block

  lemma RunSpans(p: Page, o: nat)
    ensures forall x :: x in Run(p, Pow2(o)) <==> Spans(p, o, x)
  {
    forall x ensures x in Run(p, Pow2(o)) <==> Spans(p, o, x) {
      RunMember(p, Pow2(o), x);
    }
  }

  lemma Remove(h: Heads, free: set<Page>, sizes: seq<nat>, p: Page)
    requires Canon(h, free, sizes) && p in h
    ensures Canon(h - {p}, free - Run(p, Pow2(h[p])), sizes)
    ensures Run(p, Pow2(h[p])) <= free
  {
    RunSpans(p, h[p]);
    var h' := h - {p};
    forall x ensures x in free - Run(p, Pow2(h[p])) <==> Covered(h', x) {
      if x in free && x !in Run(p, Pow2(h[p])) {
        assert Covered(h, x);
        var q :| q in h && Spans(q, h[q], x);
        assert q in h' && h'[q] == h[q];
      }
      if Covered(h', x) {
        var q :| q in h' && Spans(q, h'[q], x);
        assert Covered(h, x) && Apart(q, h[q], p, h[p]);
      }
    }
    forall x | x in Run(p, Pow2(h[p])) ensures x in free {
      assert Covered(h, x);
    }
  }

  lemma Add(h: Heads, free: set<Page>, sizes: seq<nat>, p: Page, o: nat)
    requires Canon(h, free, sizes) && Fits(sizes, p, o) && Run(p, Pow2(o)) !! free
    requires o < MAX_ORDER ==> !IsBlock(h, Buddy(p, o), o)
    ensures p !in h && Canon(h[p := o], free + Run(p, Pow2(o)), sizes)
  {
    RunSpans(p, o);
    var h' := h[p := o];
    forall q | q in h ensures q != p && Apart(q, h[q], p, o) && Apart(p, o, q, h[q]) {
      NoClash(h, free, q, p, o);
    }
    forall x ensures x in free + Run(p, Pow2(o)) <==> Covered(h', x) {
      if x in free {
        assert Covered(h, x);
        var q :| q in h && Spans(q, h[q], x);
        assert h'[q] == h[q];
      } else if Spans(p, o, x) {
        assert h'[p] == o;
      }
      if Covered(h', x) {
        var q :| q in h' && Spans(q, h'[q], x);
        assert q == p || Covered(h, x);
      }
    }
    AddMerged(h, sizes, p, o);
  }

  lemma NoClash(h: Heads, free: set<Page>, q: Page, p: Page, o: nat)
    requires Exact(h, free) && q in h && Run(p, Pow2(o)) !! free
    ensures q != p && Apart(q, h[q], p, o) && Apart(p, o, q, h[q])
  {
    RunSpans(p, o);
    if !Apart(q, h[q], p, o) {
      var x := if q.idx < p.idx then p else q;
      assert Spans(q, h[q], x) && Covered(h, x) && Spans(p, o, x);
    }
  }

  lemma AddMerged(h: Heads, sizes: seq<nat>, p: Page, o: nat)
    requires Shaped(h, sizes) && Merged(h) && Aligned(p.idx, o) && p !in h && (o < MAX_ORDER ==> !IsBlock(h, Buddy(p, o), o))
    ensures Merged(h[p := o])
  {
    Siblings(p.idx, o);
    forall q | q in h && h[q] < MAX_ORDER ensures !IsBlock(h[p := o], Buddy(q, h[q]), h[q]) {
      Siblings(q.idx, h[q]);
    }
  }

  // ---- counting

  lemma {:induction false} RunSize(p: Page, n: nat)
    ensures |Run(p, n)| == n
  {
    if n > 0 {
      RunSize(p, n - 1);
      assert Run(p, n) == Run(p, n - 1) + {Page(p.zone, p.idx + n - 1)};
    } else {
      assert Run(p, 0) == {};
    }
  }

  lemma RunSplit(p: Page, a: nat, b: nat)
    ensures Run(p, a + b) == Run(p, a) + Run(Page(p.zone, p.idx + a), b)
    ensures Run(p, a) !! Run(Page(p.zone, p.idx + a), b)
  {
    var q := Page(p.zone, p.idx + a);
    forall x: Page ensures x in Run(p, a + b) <==> x in Run(p, a) || x in Run(q, b) {
      RunMember(p, a + b, x);
      RunMember(p, a, x);
      RunMember(q, b, x);
    }
  }

  /** buddy_nr_free_pages from order `o` up. */
  function Total(nr: seq<nat>, o: nat): nat
    requires o <= |nr|
    decreases |nr| - o
  {
    if o == |nr| then 0 else nr[o] * Pow2(o) + Total(nr, o + 1)
  }

  lemma {:induction false} TotalUpdate(nr: seq<nat>, o: nat, k: nat, n: nat)
    requires o <= |nr| && k < |nr|
    ensures Total(nr[k := n], o) == if o <= k then Total(nr, o) - nr[k] * Pow2(k) + n * Pow2(k) else Total(nr, o)
    decreases |nr| - o
  {
    if o < |nr| {
      TotalUpdate(nr, o + 1, k, n);
    }
  }
}

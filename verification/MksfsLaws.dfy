/** tools/mksfs.c: what building an image does, in the kernel's own terms of places and owners. */
module MksfsLaws {
  import opened SfsDisk
  import opened SfsOwn
  import opened SfsPlaces
  import opened SfsGrow
  import opened SfsFlat
  import opened SfsShrink
  import opened SfsLaws
  import opened SfsCost

  /** The blocks not handed out yet. */
  function Left(next: nat, n: nat): (r: set<nat>)
    ensures forall b: nat :: b in r <==> next <= b < n
    decreases n - next
  {
    if next >= n then {} else {next} + Left(next + 1, n)
  }

  lemma {:induction false} LeftSize(next: nat, n: nat)
    requires next <= n
    ensures |Left(next, n)| == n - next
    decreases n - next
  {
    if next < n {
      LeftSize(next + 1, n);
    }
  }

  // ---- blocks and inodes

  /** sfs_alloc_ino: the block is taken, whatever it holds. */
  ghost function TakenBy(s: Fs, b: nat): Fs
    requires s.unused > 0
  {
    s.(free := s.free - {b}, unused := s.unused - 1, loose := s.loose + {b})
  }

  lemma TakeKeeps(s: Fs, b: nat)
    requires Inv(s) && b in s.free
    ensures 0 < b < |s.w.disk| && s.unused > 0 && Inv(TakenBy(s, b))
  {
    assert Holds(Parts, s) && Holds(Counted, s) && Holds(Fields, s) && Holds(Kept, s) && Holds(Named, s);
    assert |s.free| > 0;
    var s' := TakenBy(s, b);
    forall law
      ensures Holds(law, s')
    {
      match law
      case Parts =>
      case Counted => assert |s.free - {b}| == |s.free| - 1;
      case Kept =>
      case Named =>
      case Fields =>
    }
  }

  ghost function Wrote(s: Fs, b: nat, x: Block): Fs
    requires b < |s.w.disk|
  {
    s.(w := s.w.(disk := s.w.disk[b := x]))
  }

  /** write_block on a block that is in no place yet. */
  lemma WriteKeeps(s: Fs, b: nat, x: Block, p: Place)
    requires Inv(s) && b in s.loose
    ensures 0 < b < |s.w.disk| && Inv(Wrote(s, b, x)) && Quiet(s, Wrote(s, b, x), p)
    ensures forall q :: At(Wrote(s, b, x).w, q) == At(s.w, q)
  {
    LooseRange(s, b);
    LooseIsNotIndex(s, b);
    var w' := Wrote(s, b, x).w;
    forall q
      ensures At(w', q) == At(s.w, q)
    {
      WriteFrame(s.w, b, x, q);
    }
    assert Holds(Fields, s);
    SameKeeps(s, w');
    forall q | At(s.w, q) != 0
      ensures At(s.w, q) != b
    {
      Range(s, q);
    }
  }

  function EmptyInode(): Inode {
    Inode(0, 0, seq(N_DIRECT, i => 0), 0, 0)
  }

  /** alloc_cache_inode. */
  ghost function WithInode(s: Fs, n: nat): Fs {
    s.(w := s.w.(inodes := s.w.inodes[n := EmptyInode()]), owner := s.owner[n := Self(n)], loose := s.loose - {n})
  }

  lemma InodePlaces(w: World, n: nat, p: Place)
    requires n !in w.inodes
    ensures At(w.(inodes := w.inodes[n := EmptyInode()]), p) == if p == Self(n) then n else At(w, p)
  {
    var w' := w.(inodes := w.inodes[n := EmptyInode()]);
    assert IndOf(w', p.ino) == IndOf(w, p.ino) && DbOf(w', p.ino) == DbOf(w, p.ino);
  }

  lemma InodeKeeps(s: Fs, n: nat)
    requires Inv(s) && AllFilled(s.w) && n in s.loose
    ensures n !in s.w.inodes && Inv(WithInode(s, n)) && AllFilled(WithInode(s, n).w)
    ensures forall p :: At(WithInode(s, n).w, p) == if p == Self(n) then n else At(s.w, p)
  {
    LooseRange(s, n);
    NotAnInode(s, n);
    var s' := WithInode(s, n);
    forall p
      ensures At(s'.w, p) == if p == Self(n) then n else At(s.w, p)
    {
      InodePlaces(s.w, n, p);
    }
    InodeInv(s, n);
    forall m
      ensures Filled(s'.w, m)
    {
      assert Filled(s.w, m);
    }
  }

  lemma NotAnInode(s: Fs, n: nat)
    requires Inv(s) && n in s.loose
    ensures n !in s.w.inodes
  {
    LooseRange(s, n);
    if n in s.w.inodes {
      Range(s, Self(n));
      assert false;
    }
  }

  lemma InodeInv(s: Fs, n: nat)
    requires Inv(s) && n in s.loose && n !in s.w.inodes
    requires forall p :: At(WithInode(s, n).w, p) == if p == Self(n) then n else At(s.w, p)
    ensures Inv(WithInode(s, n))
  {
    LooseRange(s, n);
    assert Holds(Parts, s) && Holds(Counted, s) && Holds(Fields, s) && Holds(Kept, s) && Holds(Named, s);
    var s' := WithInode(s, n);
    forall law
      ensures Holds(law, s')
    {
      match law
      case Parts =>
      case Counted =>
      case Kept =>
        forall b | b in s'.owner
          ensures b != 0 && At(s'.w, s'.owner[b]) == b
        {
          assert b != n ==> At(s.w, s.owner[b]) == b;
        }
      case Named =>
      case Fields =>
    }
  }

  // ---- index blocks

  /** An index block is made and hung in at place p: no other place changes, and no data. */
  ghost predicate Indexed(s: Fs, s': Fs, p: Place, d: Place) {
    && Inv(s') && Quiet(s, s', d) && s'.loose == s.loose && s'.reserved == s.reserved
    && (forall q :: q != p ==> At(s'.w, q) == At(s.w, q))
    && (forall b :: b in s.loose ==> Content(s'.w, b) == Content(s.w, b))
  }

  lemma DataKept(s: Fs, s': Fs, p: Place, d: Place)
    requires Indexed(s, s', p, d) && d != p
    ensures At(s'.w, d) == At(s.w, d) && s'.loose == s.loose
  {
    assert At(s'.w, d) == At(s.w, d);
  }

  lemma SecsKept(s: Fs, s': Fs, n: nat, j: nat, d: Place)
    requires Indexed(s, s', Db(n), d)
    ensures SecOf(s'.w, n, j) == SecOf(s.w, n, j)
  {
    assert At(s'.w, Sec(n, j)) == At(s.w, Sec(n, j));
  }

  lemma NewInd(s: Fs, n: nat, a: nat, d: Place)
    requires Inv(s) && n in s.w.inodes && IndOf(s.w, n) == 0 && a in s.free
    ensures 0 < a < |s.w.disk| && s.unused > 0
    ensures var s1 := Allocated(s, a); Indexed(s, Hung(s1, WithInd(s1.w, n, a), Ind(n), a), Ind(n), d)
  {
    AllocQuiet(s, a, d);
    var s1 := Allocated(s, a);
    HangInd(s1, n, a, d);
    var s2 := Hung(s1, WithInd(s1.w, n, a), Ind(n), a);
    QuietTrans(s, s1, s2, d);
    FreeNotLoose(s, a);
  }

  lemma NewDb(s: Fs, n: nat, a: nat, d: Place)
    requires Inv(s) && n in s.w.inodes && DbOf(s.w, n) == 0 && a in s.free
    ensures 0 < a < |s.w.disk| && s.unused > 0
    ensures var s1 := Allocated(s, a); Indexed(s, Hung(s1, WithDb(s1.w, n, a), Db(n), a), Db(n), d)
  {
    AllocQuiet(s, a, d);
    var s1 := Allocated(s, a);
    HangDb(s1, n, a, d);
    var s2 := Hung(s1, WithDb(s1.w, n, a), Db(n), a);
    QuietTrans(s, s1, s2, d);
    FreeNotLoose(s, a);
  }

  lemma FreeNotLoose(s: Fs, a: nat)
    requires Inv(s) && a in s.free
    ensures a !in s.loose && a !in s.owner
  {
    assert Holds(Parts, s);
  }

  lemma NewSec(s: Fs, n: nat, j: nat, a: nat, d: Place)
    requires Inv(s) && DbOf(s.w, n) != 0 && j < N_ENTRY && SecOf(s.w, n, j) == 0 && a in s.free
    ensures 0 < a < |s.w.disk| && s.unused > 0 && DbOf(s.w, n) < |s.w.disk| && a < WORD
    ensures var s1 := Allocated(s, a);
      Indexed(s, Hung(s1, WithWord(s1.w, DbOf(s.w, n), j, a), Sec(n, j), a), Sec(n, j), d)
  {
    AllocQuiet(s, a, d);
    var s1 := Allocated(s, a);
    FreeNotLoose(s, a);
    assert At(s1.w, Sec(n, j)) == At(s.w, Sec(n, j));
    SecPlaces(s1, n, j, a);
    GrowDb(s1, n, j, a, d);
    var s2 := Hung(s1, WithWord(s1.w, DbOf(s.w, n), j, a), Sec(n, j), a);
    QuietTrans(s, s1, s2, d);
    NotLoose(s, Db(n));
  }

  lemma SecPlaces(s: Fs, n: nat, j: nat, a: nat)
    requires Inv(s) && DbOf(s.w, n) != 0 && j < N_ENTRY && SecOf(s.w, n, j) == 0 && a in s.loose && Blank(s.w, a)
    ensures DbOf(s.w, n) < |s.w.disk| && a < WORD
    ensures Stores(s.w, WithWord(s.w, DbOf(s.w, n), j, a), Sec(n, j), a)
  {
    LooseRange(s, a);
    Range(s, Db(n));
    OwnedThrough(s, Db(n));
    DbWordStores(s.w, n, j, a);
  }

  lemma NotLoose(s: Fs, p: Place)
    requires Inv(s) && At(s.w, p) != 0
    ensures At(s.w, p) !in s.loose
  {
    Range(s, p);
  }

  // ---- the data block

  /** Block b, written before, becomes the block of place d; no other place changes, and no data. */
  ghost predicate Stored(s: Fs, s': Fs, d: Place, b: nat) {
    && Inv(s') && Quiet(s, s', d) && s'.loose == s.loose - {b} && s'.reserved == s.reserved
    && At(s'.w, d) == b != 0 && Content(s'.w, b) == Content(s.w, b)
    && (forall q :: q != d ==> At(s'.w, q) == At(s.w, q))
  }

  lemma EnterDirect(s: Fs, n: nat, i: nat, b: nat)
    requires Inv(s) && n in s.w.inodes && i < N_DIRECT && At(s.w, Direct(n, i)) == 0 && b in s.loose
    ensures i < |s.w.inodes[n].direct|
    ensures Stored(s, Hung(s, WithDirect(s.w, n, i, b), Direct(n, i), b), Direct(n, i), b)
  {
    LooseRange(s, b);
    GrowDirect(s, n, i, b);
    DirectStores(s.w, n, i, b);
  }

  lemma EnterInd(s: Fs, n: nat, i: nat, b: nat)
    requires Inv(s) && IndOf(s.w, n) != 0 && i < N_ENTRY && At(s.w, IndData(n, i)) == 0 && b in s.loose
    ensures IndOf(s.w, n) < |s.w.disk| && b < WORD
    ensures Stored(s, Hung(s, WithWord(s.w, IndOf(s.w, n), i, b), IndData(n, i), b), IndData(n, i), b)
  {
    LooseRange(s, b);
    GrowInd(s, n, i, b);
    NotLoose(s, Ind(n));
    OwnedThrough(s, Ind(n));
    IndWordStores(s.w, n, i, b);
  }

  lemma EnterSec(s: Fs, n: nat, j: nat, i: nat, b: nat)
    requires Inv(s) && SecOf(s.w, n, j) != 0 && i < N_ENTRY && At(s.w, SecData(n, j, i)) == 0 && b in s.loose
    ensures SecOf(s.w, n, j) < |s.w.disk| && b < WORD
    ensures Stored(s, Hung(s, WithWord(s.w, SecOf(s.w, n, j), i, b), SecData(n, j, i), b), SecData(n, j, i), b)
  {
    LooseRange(s, b);
    GrowSec(s, n, j, i, b);
    NotLoose(s, Sec(n, j));
    OwnedThrough(s, Sec(n, j));
    SecWordStores(s.w, n, j, i, b);
  }

  // ---- the file with one block more

  ghost function Longer(s: Fs, n: nat, size: nat): Fs
    requires n in s.w.inodes
  {
    var d := s.w.inodes[n];
    s.(w := s.w.(inodes := s.w.inodes[n := d.(blocks := d.blocks + 1, size := size)]))
  }

  lemma LongerKeeps(s: Fs, s1: Fs, n: nat, b: nat, size: nat)
    requires Inv(s) && AllFilled(s.w) && n in s.w.inodes && s.w.inodes[n].blocks < MAX_BLOCKS
    requires var d := Data(n, s.w.inodes[n].blocks); Inv(s1) && Quiet(s, s1, d) && At(s1.w, d) == b != 0
    ensures n in s1.w.inodes && Inv(Longer(s1, n, size)) && AllFilled(Longer(s1, n, size).w)
    ensures forall p :: At(Longer(s1, n, size).w, p) == At(s1.w, p)
  {
    PlacesByFields(s1.w, Longer(s1, n, size).w);
    assert Holds(Fields, s1);
    SameKeeps(s1, Longer(s1, n, size).w);
    LongerFilled(s, s1, n, size);
  }

  lemma LongerBlocks(s: Fs, s1: Fs, n: nat, b: nat, size: nat)
    requires AllFilled(s.w) && n in s.w.inodes && n in s1.w.inodes
    requires var d := Data(n, s.w.inodes[n].blocks); Quiet(s, s1, d) && At(s1.w, d) == b
    ensures Blocks(Longer(s1, n, size).w, n) == Blocks(s.w, n) + [Content(s1.w, b)]
    ensures forall m :: m in s.w.inodes && m != n ==> Blocks(Longer(s1, n, size).w, m) == Blocks(s.w, m)
  {
    PlacesByFields(s1.w, Longer(s1, n, size).w);
    forall m | m in s.w.inodes
      ensures Blocks(s1.w, m) == Blocks(s.w, m)
    {
      assert Filled(s.w, m);
      SameBlocks(s, s1, m, Data(n, s.w.inodes[n].blocks));
    }
  }

  lemma LongerFilled(s: Fs, s1: Fs, n: nat, size: nat)
    requires AllFilled(s.w) && n in s.w.inodes && n in s1.w.inodes
    requires var d := Data(n, s.w.inodes[n].blocks); Quiet(s, s1, d) && At(s1.w, d) != 0
    ensures AllFilled(Longer(s1, n, size).w)
  {
    var k := s.w.inodes[n].blocks;
    CreatedFilled(s, s1, n, k);
    var w, w' := s1.w.(inodes := s1.w.inodes[n := s1.w.inodes[n].(blocks := k + 1)]), Longer(s1, n, size).w;
    PlacesByFields(w, w');
    forall m
      ensures Filled(w', m)
    {
      assert Filled(w, m);
    }
  }

  // ---- the writer's pointers to the index blocks it is filling

  /** A file has no index block before it needs it; l1 and l2 are the blocks the last append went through. */
  ghost predicate Tight(w: World, n: nat, l1: nat, l2: nat)
    requires n in w.inodes
  {
    var k := w.inodes[n].blocks;
    && (IndOf(w, n) != 0 <==> k > N_DIRECT) && (DbOf(w, n) != 0 <==> k > L1_BLOCKS)
    && (N_DIRECT < k <= L1_BLOCKS ==> l1 == IndOf(w, n))
    && (k > L1_BLOCKS ==> l2 == DbOf(w, n) && l1 == SecOf(w, n, (k - 1 - L1_BLOCKS) / N_ENTRY))
    && (forall j: nat :: j < N_ENTRY ==> (SecOf(w, n, j) != 0 <==> k > L1_BLOCKS + N_ENTRY * j))
  }

  lemma TightSame(w: World, w': World, n: nat, l1: nat, l2: nat)
    requires n in w.inodes && n in w'.inodes && w'.inodes[n].blocks == w.inodes[n].blocks && Tight(w, n, l1, l2)
    requires forall p: Place :: p.ino == n ==> At(w', p) == At(w, p)
    ensures Tight(w', n, l1, l2)
  {
    assert At(w', Ind(n)) == At(w, Ind(n)) && At(w', Db(n)) == At(w, Db(n));
    forall j: nat
      ensures SecOf(w', n, j) == SecOf(w, n, j)
    {
      assert At(w', Sec(n, j)) == At(w, Sec(n, j));
    }
  }

  lemma SecsNext(w: World, w': World, n: nat, k: nat, j: nat)
    requires j < N_ENTRY && (SecOf(w, n, j) != 0 <==> k > L1_BLOCKS + N_ENTRY * j) && ReachedAt(w, w', Data(n, k))
    ensures SecOf(w', n, j) != 0 <==> k + 1 > L1_BLOCKS + N_ENTRY * j
  {
    if k < L1_BLOCKS {
      assert SecOf(w', n, j) == SecOf(w, n, j);
    } else {
      var here: nat := (k - L1_BLOCKS) / N_ENTRY;
      assert j != here ==> SecOf(w', n, j) == SecOf(w, n, j);
      assert SecOf(w', n, here) != 0;
    }
  }

  lemma TightNext(w: World, w': World, n: nat, l1: nat, l2: nat, m1: nat, m2: nat)
    requires n in w.inodes && n in w'.inodes && Tight(w, n, l1, l2)
    requires w.inodes[n].blocks < MAX_BLOCKS && w'.inodes[n].blocks == w.inodes[n].blocks + 1
    requires ReachedAt(w, w', Data(n, w.inodes[n].blocks)) && Aimed(w', n, w.inodes[n].blocks, Pointers(m1, m2))
    ensures Tight(w', n, m1, m2)
  {
    var k := w.inodes[n].blocks;
    forall j: nat | j < N_ENTRY
      ensures SecOf(w', n, j) != 0 <==> k + 1 > L1_BLOCKS + N_ENTRY * j
    {
      SecsNext(w, w', n, k, j);
    }
  }

  /** The index blocks that the next block goes through, if they exist, are the ones pointed to. */
  ghost predicate Held(w: World, n: nat, l1: nat, l2: nat)
    requires n in w.inodes
  {
    var k := w.inodes[n].blocks;
    && (N_DIRECT <= k < L1_BLOCKS && IndOf(w, n) != 0 ==> l1 == IndOf(w, n))
    && (k >= L1_BLOCKS && DbOf(w, n) != 0 ==> l2 == DbOf(w, n))
    && (k >= L1_BLOCKS && SecOf(w, n, (k - L1_BLOCKS) / N_ENTRY) != 0 ==> l1 == SecOf(w, n, (k - L1_BLOCKS) / N_ENTRY))
  }

  /** The pointers are right when an append needs an index block that exists: update_cache has nothing to search for. */
  lemma PointersHold(w: World, n: nat, l1: nat, l2: nat)
    requires n in w.inodes && Tight(w, n, l1, l2) && w.inodes[n].blocks < MAX_BLOCKS
    ensures Held(w, n, l1, l2)
  {
    var k := w.inodes[n].blocks;
    if k >= L1_BLOCKS {
      var j: nat := (k - L1_BLOCKS) / N_ENTRY;
      assert SecOf(w, n, j) != 0 <==> k > L1_BLOCKS + N_ENTRY * j;
    }
  }

  /** The blocks of a file of k blocks that hold block numbers. */
  function IndexBlocks(k: nat): nat {
    Bit(k > N_DIRECT) + Bit(k > L1_BLOCKS) + Seconds(k)
  }

  lemma IndexStep(k: nat)
    requires k >= L1_BLOCKS
    ensures var full := k == L1_BLOCKS + N_ENTRY * ((k - L1_BLOCKS) / N_ENTRY);
      IndexBlocks(k + 1) == IndexBlocks(k) + Bit(k == L1_BLOCKS) + Bit(full)
  {
    OneSecond(k);
  }

  /** For a file the writer made, the missing ones are those a file of one block more has more. */
  lemma MissingIs(w: World, n: nat, l1: nat, l2: nat)
    requires n in w.inodes && Tight(w, n, l1, l2) && w.inodes[n].blocks < MAX_BLOCKS
    ensures IndexBlocks(w.inodes[n].blocks + 1) == IndexBlocks(w.inodes[n].blocks) + MissingAt(w, Data(n, w.inodes[n].blocks))
  {
    var k := w.inodes[n].blocks;
    if k >= L1_BLOCKS {
      IndexStep(k);
      SecondIs(w, n, l1, l2);
    }
  }

  lemma SecondIs(w: World, n: nat, l1: nat, l2: nat)
    requires n in w.inodes && Tight(w, n, l1, l2) && L1_BLOCKS <= w.inodes[n].blocks < MAX_BLOCKS
    ensures var k := w.inodes[n].blocks; var j: nat := (k - L1_BLOCKS) / N_ENTRY;
      SecOf(w, n, j) == 0 <==> k == L1_BLOCKS + N_ENTRY * j
  {
    var k := w.inodes[n].blocks;
    var j: nat := (k - L1_BLOCKS) / N_ENTRY;
    assert SecOf(w, n, j) != 0 <==> k > L1_BLOCKS + N_ENTRY * j;
  }

  /** The block numbers of a file, in order, as the kernel reads them. */
  ghost function Numbers(w: World, n: nat): (r: seq<nat>)
    requires n in w.inodes
    ensures |r| == w.inodes[n].blocks && forall i :: 0 <= i < |r| ==> r[i] == At(w, Data(n, i))
  {
    seq(w.inodes[n].blocks, i requires 0 <= i => At(w, Data(n, i)))
  }

  datatype AppendLaw = AppendFiles | AppendNumbers | AppendBytes | AppendOthers

  ghost predicate AppendHolds(law: AppendLaw, s: Fs, s': Fs, n: nat, b: nat, size: nat) {
    && s'.w.inodes.Keys == s.w.inodes.Keys && n in s.w.inodes
    && match law
       case AppendFiles => s'.w.inodes[n].size == size && s'.w.inodes[n].blocks == s.w.inodes[n].blocks + 1
       case AppendNumbers => Numbers(s'.w, n) == Numbers(s.w, n) + [b]
       case AppendBytes => Blocks(s'.w, n) == Blocks(s.w, n) + [Content(s.w, b)]
       case AppendOthers => forall m :: m in s.w.inodes && m != n ==>
         && s'.w.inodes[m] == s.w.inodes[m]
         && Numbers(s'.w, m) == Numbers(s.w, m) && Blocks(s'.w, m) == Blocks(s.w, m)
  }

  /** File n has one block more, block b with what was written to it; every other file is as it was. */
  ghost predicate Appended(s: Fs, s': Fs, n: nat, b: nat, size: nat) {
    forall law :: AppendHolds(law, s, s', n, b, size)
  }

  lemma AppendedIs(s: Fs, s1: Fs, n: nat, b: nat, size: nat)
    requires Inv(s) && AllFilled(s.w) && n in s.w.inodes && s.w.inodes[n].blocks < MAX_BLOCKS
    requires var d := Data(n, s.w.inodes[n].blocks); Inv(s1) && Quiet(s, s1, d) && At(s1.w, d) == b != 0
    requires Content(s1.w, b) == Content(s.w, b)
    requires forall m :: m in s.w.inodes && m != n ==> s1.w.inodes[m] == s.w.inodes[m]
    requires forall m :: m in s.w.inodes ==> forall i: nat :: i < s.w.inodes[m].blocks ==> At(s1.w, Data(m, i)) == At(s.w, Data(m, i))
    ensures n in s1.w.inodes && Appended(s, Longer(s1, n, size), n, b, size)
  {
    var s' := Longer(s1, n, size);
    LongerKeeps(s, s1, n, b, size);
    LongerBlocks(s, s1, n, b, size);
    forall law
      ensures AppendHolds(law, s, s', n, b, size)
    {
      match law
      case AppendFiles =>
      case AppendNumbers =>
      case AppendBytes =>
      case AppendOthers =>
    }
  }

  datatype EndLaw = EndStored | EndIndex | EndOthers

  ghost predicate EndHolds(law: EndLaw, s: Fs, s': Fs, n: nat, b: nat) {
    && n in s.w.inodes && n in s'.w.inodes
    && var k := s.w.inodes[n].blocks;
       match law
       case EndStored =>
         && Inv(s') && Quiet(s, s', Data(n, k)) && s'.loose == s.loose - {b} && s'.reserved == s.reserved
         && At(s'.w, Data(n, k)) == b != 0 && Content(s'.w, b) == Content(s.w, b)
       case EndIndex => ReachedAt(s.w, s'.w, Data(n, k))
       case EndOthers =>
         && (forall q: Place :: q.ino != n ==> At(s'.w, q) == At(s.w, q))
         && (forall m :: m in s.w.inodes && m != n ==> m in s'.w.inodes && s'.w.inodes[m] == s.w.inodes[m])
  }

  /** Block b is stored as the next block of file n, which does not count it yet. */
  ghost predicate Ended(s: Fs, s': Fs, n: nat, b: nat) {
    forall law :: EndHolds(law, s, s', n, b)
  }

  lemma EndDirect(s: Fs, s': Fs, n: nat, b: nat)
    requires n in s.w.inodes && n in s'.w.inodes && s.w.inodes[n].blocks < N_DIRECT
    requires Stored(s, s', Direct(n, s.w.inodes[n].blocks), b)
    requires forall m :: m in s.w.inodes && m != n ==> m in s'.w.inodes && s'.w.inodes[m] == s.w.inodes[m]
    ensures Ended(s, s', n, b)
  {
    forall law
      ensures EndHolds(law, s, s', n, b)
    {
      match law
      case EndStored =>
      case EndIndex => IndexSame(s, s', n, Direct(n, s.w.inodes[n].blocks));
      case EndOthers =>
    }
  }

  lemma IndexSame(s: Fs, s': Fs, n: nat, p: Place)
    requires IsData(p) && forall q :: q != p ==> At(s'.w, q) == At(s.w, q)
    ensures IndOf(s'.w, n) == IndOf(s.w, n) && DbOf(s'.w, n) == DbOf(s.w, n)
    ensures forall j: nat :: SecOf(s'.w, n, j) == SecOf(s.w, n, j)
  {
    assert At(s'.w, Ind(n)) == At(s.w, Ind(n)) && At(s'.w, Db(n)) == At(s.w, Db(n));
    forall j: nat
      ensures SecOf(s'.w, n, j) == SecOf(s.w, n, j)
    {
      assert At(s'.w, Sec(n, j)) == At(s.w, Sec(n, j));
    }
  }

  lemma AreEnded(s: Fs, s': Fs, n: nat, d: Place, b: nat)
    requires n in s.w.inodes && n in s'.w.inodes && d == Data(n, s.w.inodes[n].blocks)
    requires Inv(s') && Quiet(s, s', d) && s'.loose == s.loose - {b} && s'.reserved == s.reserved
    requires At(s'.w, d) == b != 0 && Content(s'.w, b) == Content(s.w, b) && ReachedAt(s.w, s'.w, d)
    requires forall q: Place :: q.ino != n ==> At(s'.w, q) == At(s.w, q)
    requires forall m :: m in s.w.inodes && m != n ==> m in s'.w.inodes && s'.w.inodes[m] == s.w.inodes[m]
    ensures Ended(s, s', n, b)
  {
    forall law
      ensures EndHolds(law, s, s', n, b)
    {
      match law
      case EndStored =>
      case EndIndex =>
      case EndOthers =>
    }
  }

  lemma IndReached(s: Fs, s1: Fs, s': Fs, n: nat, d: Place, b: nat)
    requires Indexed(s, s1, Ind(n), d) && IndOf(s1.w, n) != 0 && Stored(s1, s', d, b) && d.IndData? && d.ino == n
    ensures ReachedAt(s.w, s'.w, d) && IndOf(s'.w, n) == IndOf(s1.w, n)
  {
    IndexSame(s1, s', n, d);
    IndOnly(s, s1, n);
  }

  lemma IndQuiet(s: Fs, s1: Fs, s': Fs, n: nat, d: Place, b: nat)
    requires Indexed(s, s1, Ind(n), d) && Stored(s1, s', d, b) && b in s.loose && d.IndData? && d.ino == n
    ensures Quiet(s, s', d) && s'.loose == s.loose - {b} && s'.reserved == s.reserved && Content(s'.w, b) == Content(s.w, b)
    ensures forall q: Place :: q.ino != n ==> At(s'.w, q) == At(s.w, q)
  {
    QuietTrans(s, s1, s', d);
    forall q: Place | q.ino != n
      ensures At(s'.w, q) == At(s.w, q)
    {
      assert At(s1.w, q) == At(s.w, q);
    }
  }

  lemma EndInd(s: Fs, s1: Fs, s': Fs, n: nat, d: Place, b: nat)
    requires n in s.w.inodes && n in s'.w.inodes && b in s.loose
    requires d == Data(n, s.w.inodes[n].blocks) && d.IndData?
    requires Indexed(s, s1, Ind(n), d) && IndOf(s1.w, n) != 0 && Stored(s1, s', d, b)
    requires forall m :: m in s.w.inodes && m != n ==> m in s'.w.inodes && s'.w.inodes[m] == s.w.inodes[m]
    ensures Ended(s, s', n, b) && IndOf(s'.w, n) == IndOf(s1.w, n)
  {
    IndReached(s, s1, s', n, d, b);
    IndQuiet(s, s1, s', n, d, b);
    AreEnded(s, s', n, d, b);
  }

  lemma IndOnly(s: Fs, s': Fs, n: nat)
    requires forall q :: q != Ind(n) ==> At(s'.w, q) == At(s.w, q)
    ensures DbOf(s'.w, n) == DbOf(s.w, n) && forall j: nat :: SecOf(s'.w, n, j) == SecOf(s.w, n, j)
  {
    assert At(s'.w, Db(n)) == At(s.w, Db(n));
    forall j: nat
      ensures SecOf(s'.w, n, j) == SecOf(s.w, n, j)
    {
      assert At(s'.w, Sec(n, j)) == At(s.w, Sec(n, j));
    }
  }

  /** The double-indirect block and second-level block j are there; no other place changed, and no data. */
  ghost predicate Prepared(s: Fs, s': Fs, n: nat, j: nat, d: Place) {
    exists mid :: Indexed(s, mid, Db(n), d) && DbOf(mid.w, n) != 0 && Indexed(mid, s', Sec(n, j), d) && SecOf(s'.w, n, j) != 0
  }

  lemma PreparedData(s: Fs, s': Fs, n: nat, j: nat, d: Place)
    requires Prepared(s, s', n, j, d) && IsData(d)
    ensures At(s'.w, d) == At(s.w, d) && s'.loose == s.loose
  {
    var mid :| Indexed(s, mid, Db(n), d) && DbOf(mid.w, n) != 0 && Indexed(mid, s', Sec(n, j), d) && SecOf(s'.w, n, j) != 0;
    assert At(mid.w, d) == At(s.w, d);
  }

  lemma PreparedQuiet(s: Fs, s2: Fs, s': Fs, n: nat, j: nat, d: Place, b: nat)
    requires Prepared(s, s2, n, j, d) && Stored(s2, s', d, b) && b in s.loose && IsData(d)
    ensures Quiet(s, s', d) && s'.loose == s.loose - {b} && s'.reserved == s.reserved && Content(s'.w, b) == Content(s.w, b)
  {
    var s1 :| Indexed(s, s1, Db(n), d) && DbOf(s1.w, n) != 0 && Indexed(s1, s2, Sec(n, j), d) && SecOf(s2.w, n, j) != 0;
    assert b in s1.loose && Content(s1.w, b) == Content(s.w, b) && Content(s2.w, b) == Content(s1.w, b);
    QuietTrans(s, s1, s2, d);
    QuietTrans(s, s2, s', d);
  }

  lemma PreparedOthers(s: Fs, s2: Fs, s': Fs, n: nat, j: nat, d: Place, b: nat)
    requires Prepared(s, s2, n, j, d) && Stored(s2, s', d, b) && d.ino == n
    ensures forall q: Place :: q.ino != n ==> At(s'.w, q) == At(s.w, q)
  {
    var s1 :| Indexed(s, s1, Db(n), d) && DbOf(s1.w, n) != 0 && Indexed(s1, s2, Sec(n, j), d) && SecOf(s2.w, n, j) != 0;
    forall q: Place | q.ino != n
      ensures At(s'.w, q) == At(s.w, q)
    {
      assert At(s1.w, q) == At(s.w, q) && At(s2.w, q) == At(s1.w, q) && At(s'.w, q) == At(s2.w, q);
    }
  }

  lemma PreparedIndex(s: Fs, s2: Fs, s': Fs, n: nat, j: nat, d: Place, b: nat)
    requires Prepared(s, s2, n, j, d) && Stored(s2, s', d, b) && IsData(d)
    ensures DbOf(s'.w, n) == DbOf(s2.w, n) != 0 && SecOf(s'.w, n, j) == SecOf(s2.w, n, j) != 0
    ensures IndOf(s'.w, n) == IndOf(s.w, n) && forall i: nat :: i != j ==> SecOf(s'.w, n, i) == SecOf(s.w, n, i)
  {
    var s1 :| Indexed(s, s1, Db(n), d) && DbOf(s1.w, n) != 0 && Indexed(s1, s2, Sec(n, j), d) && SecOf(s2.w, n, j) != 0;
    IndexSame(s2, s', n, d);
    DbAndSecOnly(s, s1, s2, n, j);
  }

  lemma EndSec(s: Fs, s2: Fs, s': Fs, n: nat, j: nat, d: Place, b: nat)
    requires n in s.w.inodes && n in s'.w.inodes && b in s.loose
    requires d == Data(n, s.w.inodes[n].blocks) && d.SecData? && d.j == j
    requires Prepared(s, s2, n, j, d) && Stored(s2, s', d, b)
    requires forall m :: m in s.w.inodes && m != n ==> m in s'.w.inodes && s'.w.inodes[m] == s.w.inodes[m]
    ensures Ended(s, s', n, b) && DbOf(s'.w, n) == DbOf(s2.w, n) && SecOf(s'.w, n, j) == SecOf(s2.w, n, j)
  {
    PreparedIndex(s, s2, s', n, j, d, b);
    PreparedQuiet(s, s2, s', n, j, d, b);
    PreparedOthers(s, s2, s', n, j, d, b);
    AreEnded(s, s', n, d, b);
  }

  lemma DbAndSecOnly(s: Fs, s1: Fs, s2: Fs, n: nat, j: nat)
    requires forall q :: q != Db(n) ==> At(s1.w, q) == At(s.w, q)
    requires forall q :: q != Sec(n, j) ==> At(s2.w, q) == At(s1.w, q)
    ensures IndOf(s2.w, n) == IndOf(s.w, n) && DbOf(s2.w, n) == DbOf(s1.w, n)
    ensures forall i: nat :: i != j ==> SecOf(s2.w, n, i) == SecOf(s.w, n, i)
  {
    assert At(s1.w, Ind(n)) == At(s.w, Ind(n)) && At(s2.w, Ind(n)) == At(s1.w, Ind(n)) && At(s2.w, Db(n)) == At(s1.w, Db(n));
    forall i: nat | i != j
      ensures SecOf(s2.w, n, i) == SecOf(s.w, n, i)
    {
      assert At(s1.w, Sec(n, i)) == At(s.w, Sec(n, i)) && At(s2.w, Sec(n, i)) == At(s1.w, Sec(n, i));
    }
  }

  lemma EndAppend(s: Fs, s1: Fs, n: nat, b: nat, size: nat)
    requires Inv(s) && AllFilled(s.w) && n in s.w.inodes && s.w.inodes[n].blocks < MAX_BLOCKS && Ended(s, s1, n, b)
    ensures n in s1.w.inodes && Appended(s, Longer(s1, n, size), n, b, size)
    ensures Inv(Longer(s1, n, size)) && AllFilled(Longer(s1, n, size).w)
    ensures forall p :: At(Longer(s1, n, size).w, p) == At(s1.w, p)
  {
    assert EndHolds(EndStored, s, s1, n, b) && EndHolds(EndOthers, s, s1, n, b);
    LongerKeeps(s, s1, n, b, size);
    forall m, i: nat | m in s.w.inodes && i < s.w.inodes[m].blocks
      ensures At(s1.w, Data(m, i)) == At(s.w, Data(m, i))
    {
      assert Filled(s.w, m);
      assert At(s.w, Data(m, i)) != 0 && IsData(Data(m, i));
    }
    AppendedIs(s, s1, n, b, size);
  }

  /** The other files' pointers stay right. */
  lemma OthersTight(s: Fs, s1: Fs, n: nat, b: nat, size: nat, m: nat, l1: nat, l2: nat)
    requires Ended(s, s1, n, b) && n in s1.w.inodes && m in s.w.inodes && m != n && Tight(s.w, m, l1, l2)
    requires forall p :: At(Longer(s1, n, size).w, p) == At(s1.w, p)
    ensures m in Longer(s1, n, size).w.inodes && Tight(Longer(s1, n, size).w, m, l1, l2)
  {
    assert EndHolds(EndOthers, s, s1, n, b);
    TightSame(s.w, Longer(s1, n, size).w, m, l1, l2);
  }

  /** And so do its own. */
  lemma OwnTight(s: Fs, s1: Fs, n: nat, b: nat, size: nat, l1: nat, l2: nat, m1: nat, m2: nat)
    requires n in s.w.inodes && s.w.inodes[n].blocks < MAX_BLOCKS && Tight(s.w, n, l1, l2) && Ended(s, s1, n, b)
    requires n in s1.w.inodes && s1.w.inodes[n].blocks == s.w.inodes[n].blocks
    requires Aimed(s1.w, n, s.w.inodes[n].blocks, Pointers(m1, m2))
    requires forall p :: At(Longer(s1, n, size).w, p) == At(s1.w, p)
    ensures Tight(Longer(s1, n, size).w, n, m1, m2)
  {
    assert EndHolds(EndIndex, s, s1, n, b);
    var w' := Longer(s1, n, size).w;
    assert At(w', Ind(n)) == At(s1.w, Ind(n)) && At(w', Db(n)) == At(s1.w, Db(n));
    forall j: nat
      ensures SecOf(w', n, j) == SecOf(s1.w, n, j)
    {
      assert At(w', Sec(n, j)) == At(s1.w, Sec(n, j));
    }
    TightNext(s.w, w', n, l1, l2, m1, m2);
  }

  /** cache_inode's pointers to the index blocks being filled, 0 for none. */
  datatype Pointers = Pointers(l1: nat, l2: nat)

  ghost predicate Pointed(w: World, ptrs: map<nat, Pointers>) {
    ptrs.Keys == w.inodes.Keys && forall n :: n in w.inodes ==> Tight(w, n, ptrs[n].l1, ptrs[n].l2)
  }

  /** The pointers are the index blocks that block k goes through. */
  ghost predicate Aimed(w: World, n: nat, k: nat, p: Pointers) {
    && (N_DIRECT <= k < L1_BLOCKS ==> p.l1 == IndOf(w, n))
    && (k >= L1_BLOCKS ==> p.l2 == DbOf(w, n) && p.l1 == SecOf(w, n, (k - L1_BLOCKS) / N_ENTRY))
  }

  lemma AppendPointed(s: Fs, s1: Fs, n: nat, b: nat, size: nat, was: map<nat, Pointers>, p: Pointers)
    requires n in s.w.inodes && s.w.inodes[n].blocks < MAX_BLOCKS && Pointed(s.w, was) && Ended(s, s1, n, b)
    requires s1.w.inodes.Keys == s.w.inodes.Keys && Aimed(s1.w, n, s.w.inodes[n].blocks, p)
    requires forall q :: At(Longer(s1, n, size).w, q) == At(s1.w, q)
    ensures Pointed(Longer(s1, n, size).w, was[n := p])
  {
    assert EndHolds(EndStored, s, s1, n, b);
    forall m | m in s.w.inodes
      ensures Tight(Longer(s1, n, size).w, m, was[n := p][m].l1, was[n := p][m].l2)
    {
      if m == n {
        OwnTight(s, s1, n, b, size, was[n].l1, was[n].l2, p.l1, p.l2);
      } else {
        OthersTight(s, s1, n, b, size, m, was[m].l1, was[m].l2);
      }
    }
  }

  /** Counting the block completes the append. */
  lemma FinishAppend(s: Fs, s1: Fs, n: nat, b: nat, size: nat, was: map<nat, Pointers>, p: Pointers)
    requires Inv(s) && AllFilled(s.w) && Pointed(s.w, was)
    requires n in s.w.inodes && s.w.inodes[n].blocks < MAX_BLOCKS && Ended(s, s1, n, b)
    requires s1.w.inodes.Keys == s.w.inodes.Keys && Aimed(s1.w, n, s.w.inodes[n].blocks, p)
    ensures n in s1.w.inodes && Appended(s, Longer(s1, n, size), n, b, size) && s1.loose == s.loose - {b}
    ensures Inv(Longer(s1, n, size)) && AllFilled(Longer(s1, n, size).w) && Pointed(Longer(s1, n, size).w, was[n := p])
  {
    EndAppend(s, s1, n, b, size);
    AppendPointed(s, s1, n, b, size, was, p);
    assert EndHolds(EndStored, s, s1, n, b);
  }

  // ---- files and images

  /** No place and no inode changes: every file keeps its blocks, and the pointers stay right. */
  lemma SamePlaces(s: Fs, s': Fs, ptrs: map<nat, Pointers>)
    requires AllFilled(s.w) && Pointed(s.w, ptrs) && s'.w.inodes == s.w.inodes && forall p :: At(s'.w, p) == At(s.w, p)
    ensures AllFilled(s'.w) && Pointed(s'.w, ptrs)
  {
    forall m
      ensures Filled(s'.w, m)
    {
      assert Filled(s.w, m);
    }
    forall m | m in s.w.inodes
      ensures Tight(s'.w, m, ptrs[m].l1, ptrs[m].l2)
    {
      TightSame(s.w, s'.w, m, ptrs[m].l1, ptrs[m].l2);
    }
  }

  /** A new block is filled and in no place yet. */
  lemma NewBlockKeeps(s: Fs, b: nat, x: Block, ptrs: map<nat, Pointers>)
    requires Inv(s) && AllFilled(s.w) && Pointed(s.w, ptrs) && b in s.free
    ensures 0 < b < |s.w.disk| && s.unused > 0
    ensures var s' := Wrote(TakenBy(s, b), b, x);
      && Inv(s') && AllFilled(s'.w) && Pointed(s'.w, ptrs)
      && forall m :: m in s.w.inodes ==> Blocks(s'.w, m) == Blocks(s.w, m) && Numbers(s'.w, m) == Numbers(s.w, m)
  {
    TakeKeeps(s, b);
    var s1, p := TakenBy(s, b), Direct(0, 0);
    WriteKeeps(s1, b, x, p);
    var s' := Wrote(s1, b, x);
    SamePlaces(s1, s', ptrs);
    forall m | m in s.w.inodes
      ensures Blocks(s'.w, m) == Blocks(s.w, m) && Numbers(s'.w, m) == Numbers(s.w, m)
    {
      assert Filled(s1.w, m);
      SameBlocks(s1, s', m, p);
    }
  }

  /** A new inode is an empty file. */
  lemma NewInodeKeeps(s: Fs, n: nat, ptrs: map<nat, Pointers>)
    requires Inv(s) && AllFilled(s.w) && Pointed(s.w, ptrs) && n in s.loose
    ensures n !in s.w.inodes && Inv(WithInode(s, n)) && AllFilled(WithInode(s, n).w)
    ensures Pointed(WithInode(s, n).w, ptrs[n := Pointers(0, 0)])
  {
    InodeKeeps(s, n);
    var s' := WithInode(s, n);
    forall m | m in s'.w.inodes
      ensures m == n ==> Tight(s'.w, n, 0, 0)
      ensures m != n ==> Tight(s'.w, m, ptrs[m].l1, ptrs[m].l2)
    {
      if m != n {
        TightSame(s.w, s'.w, m, ptrs[m].l1, ptrs[m].l2);
      }
    }
  }

  /** The last block of a file is written with zeros after the data. */
  lemma LastBlock(whole: seq<Byte>, off: nat, c: seq<Byte>)
    requires off + |c| <= |whole| && c == whole[off..off + |c|] && |c| <= BLK_SIZE && off % BLK_SIZE == 0
    ensures whole[..off] + (c + Pad(BLK_SIZE - |c|)) == Grow(whole[..off + |c|], off + BLK_SIZE)
  {
    assert whole[..off + |c|] == whole[..off] + c;
  }

  lemma AppendedFlat(s: Fs, s': Fs, n: nat, b: nat, size: nat)
    requires Appended(s, s', n, b, size)
    ensures n in s.w.inodes && n in s'.w.inodes && Flat(s'.w, n) == Flat(s.w, n) + Content(s.w, b)
    ensures s'.w.inodes[n].size == size && s'.w.inodes[n].blocks == s.w.inodes[n].blocks + 1
  {
    assert AppendHolds(AppendBytes, s, s', n, b, size) && AppendHolds(AppendFiles, s, s', n, b, size);
    CatMore(Blocks(s.w, n), Content(s.w, b));
  }

  lemma {:induction false} IndexGrows(k: nat, m: nat)
    requires k <= m
    ensures IndexBlocks(k) <= IndexBlocks(m)
    decreases m - k
  {
    if k < m {
      IndexGrows(k + 1, m);
      if k >= L1_BLOCKS {
        IndexStep(k);
      }
    }
  }

  /** create_sfs: the superblock and the freemap are reserved, the root is an empty directory, the rest is free. */
  lemma CreatedInv(disk: seq<Block>, next: nat, reserved: set<nat>)
    requires 2 < next <= |disk| <= WORD && forall b: nat :: b in reserved <==> b == 0 || 2 <= b < next
    ensures var s := Fs(World(disk, map[1 := EmptyInode()]), Left(next, |disk|), |disk| - next, map[1 := Self(1)], {}, reserved);
      Inv(s) && AllFilled(s.w) && Pointed(s.w, map[1 := Pointers(0, 0)])
  {
    var s := Fs(World(disk, map[1 := EmptyInode()]), Left(next, |disk|), |disk| - next, map[1 := Self(1)], {}, reserved);
    LeftSize(next, |disk|);
    forall p
      ensures At(s.w, p) == if p == Self(1) then 1 else 0
    {
      assert IndOf(s.w, p.ino) == 0 && DbOf(s.w, p.ino) == 0;
    }
    forall law
      ensures Holds(law, s)
    {
      match law
      case Parts =>
      case Counted =>
      case Kept =>
      case Named =>
      case Fields =>
    }
    forall m
      ensures Filled(s.w, m)
    {
    }
  }

  lemma AppendedApart(s: Fs, s': Fs, n: nat, b: nat, size: nat)
    requires Appended(s, s', n, b, size)
    ensures s'.w.inodes.Keys == s.w.inodes.Keys
    ensures forall m :: m in s.w.inodes && m != n ==> s'.w.inodes[m] == s.w.inodes[m] && Blocks(s'.w, m) == Blocks(s.w, m)
  {
    assert AppendHolds(AppendOthers, s, s', n, b, size);
  }

  datatype CopyLaw = CopyFiles | CopyBytes | CopyOthers

  ghost predicate CopyHolds(law: CopyLaw, s0: Fs, s: Fs, n: nat, whole: seq<Byte>, off: nat) {
    && n in s.w.inodes && s.w.inodes.Keys == s0.w.inodes.Keys && off <= |whole|
    && var d := s.w.inodes[n];
       match law
       case CopyFiles => d.size == off <= d.blocks * BLK_SIZE < off + BLK_SIZE
       case CopyBytes => Flat(s.w, n) == Grow(whole[..off], d.blocks * BLK_SIZE)
       case CopyOthers => forall m :: m in s.w.inodes && m != n ==>
         s.w.inodes[m] == s0.w.inodes[m] && Blocks(s.w, m) == Blocks(s0.w, m)
  }

  /** The first off bytes of the source file have been copied to file n, and the other files are as they were. */
  ghost predicate Copied(s0: Fs, s: Fs, n: nat, whole: seq<Byte>, off: nat) {
    forall law :: CopyHolds(law, s0, s, n, whole, off)
  }

  lemma CopyStart(s: Fs, n: nat, whole: seq<Byte>)
    requires n in s.w.inodes && s.w.inodes[n] == EmptyInode()
    ensures Copied(s, s, n, whole, 0)
  {
    forall law
      ensures CopyHolds(law, s, s, n, whole, 0)
    {
      match law
      case CopyFiles =>
      case CopyBytes =>
      case CopyOthers =>
    }
  }

  lemma CopyMore(s0: Fs, s: Fs, s1: Fs, s': Fs, n: nat, whole: seq<Byte>, off: nat, end: nat, c: seq<Byte>, b: nat)
    requires Copied(s0, s, n, whole, off) && n in s.w.inodes && off == s.w.inodes[n].blocks * BLK_SIZE
    requires off < end <= |whole| && end <= off + BLK_SIZE && c == whole[off..end]
    requires s1.w.inodes == s.w.inodes && forall m :: m in s.w.inodes ==> Blocks(s1.w, m) == Blocks(s.w, m)
    requires Content(s1.w, b) == c + Pad(BLK_SIZE - |c|) && Appended(s1, s', n, b, end)
    ensures Copied(s0, s', n, whole, end) && n in s'.w.inodes && s'.w.inodes[n].blocks == s.w.inodes[n].blocks + 1
  {
    assert CopyHolds(CopyFiles, s0, s, n, whole, off) && CopyHolds(CopyBytes, s0, s, n, whole, off);
    assert CopyHolds(CopyOthers, s0, s, n, whole, off);
    AppendedFlat(s1, s', n, b, end);
    AppendedApart(s1, s', n, b, end);
    LastBlock(whole, off, c);
    forall law
      ensures CopyHolds(law, s0, s', n, whole, end)
    {
      match law
      case CopyFiles =>
      case CopyBytes =>
      case CopyOthers =>
    }
  }

  lemma CopyEnds(s0: Fs, s: Fs, n: nat, whole: seq<Byte>)
    requires Copied(s0, s, n, whole, |whole|)
    ensures n in s.w.inodes && FileOk(s.w, n) && Contents(s.w, n) == whole && s.w.inodes.Keys == s0.w.inodes.Keys
    ensures forall m :: m in s.w.inodes && m != n ==> s.w.inodes[m] == s0.w.inodes[m] && Blocks(s.w, m) == Blocks(s0.w, m)
  {
    assert CopyHolds(CopyFiles, s0, s, n, whole, |whole|) && CopyHolds(CopyBytes, s0, s, n, whole, |whole|);
    assert CopyHolds(CopyOthers, s0, s, n, whole, |whole|);
    assert whole[..|whole|] == whole;
  }

  datatype ImagePart = ImageSize | ImageInv | ImageFilled | ImagePointed

  ghost predicate ImageIn(part: ImagePart, s: Fs, ptrs: map<nat, Pointers>, next: nat, ninos: nat) {
    match part
    case ImageSize => next <= ninos == |s.w.disk|
    case ImageInv => Inv(s)
    case ImageFilled => AllFilled(s.w)
    case ImagePointed => Pointed(s.w, ptrs)
  }

  /** An image in the making meets the kernel's invariant, and the writer's pointers are right. */
  ghost predicate ImageOk(s: Fs, ptrs: map<nat, Pointers>, next: nat, ninos: nat) {
    forall part :: ImageIn(part, s, ptrs, next, ninos)
  }

  lemma ImageIs(s: Fs, ptrs: map<nat, Pointers>, next: nat, ninos: nat)
    ensures ImageOk(s, ptrs, next, ninos)
      <==> next <= ninos == |s.w.disk| && Inv(s) && AllFilled(s.w) && Pointed(s.w, ptrs)
  {
    if ImageOk(s, ptrs, next, ninos) {
      assert ImageIn(ImageSize, s, ptrs, next, ninos) && ImageIn(ImageInv, s, ptrs, next, ninos);
      assert ImageIn(ImageFilled, s, ptrs, next, ninos) && ImageIn(ImagePointed, s, ptrs, next, ninos);
    }
    if next <= ninos == |s.w.disk| && Inv(s) && AllFilled(s.w) && Pointed(s.w, ptrs) {
      forall part
        ensures ImageIn(part, s, ptrs, next, ninos)
      {
        match part
        case ImageSize =>
        case ImageInv =>
        case ImageFilled =>
        case ImagePointed =>
      }
    }
  }

  lemma AppendedNumbers(s: Fs, s': Fs, n: nat, b: nat, size: nat)
    requires Appended(s, s', n, b, size)
    ensures n in s.w.inodes && n in s'.w.inodes && Numbers(s'.w, n) == Numbers(s.w, n) + [b]
  {
    assert AppendHolds(AppendNumbers, s, s', n, b, size);
  }

  datatype BasePart = BaseSize | BaseInv

  ghost predicate BaseIn(part: BasePart, s: Fs, next: nat, ninos: nat) {
    match part
    case BaseSize => next <= ninos == |s.w.disk|
    case BaseInv => Inv(s)
  }

  /** What holds of an image in the middle of an append as well. */
  ghost predicate BaseOk(s: Fs, next: nat, ninos: nat) {
    forall part :: BaseIn(part, s, next, ninos)
  }

  lemma BaseIs(s: Fs, next: nat, ninos: nat)
    ensures BaseOk(s, next, ninos) <==> next <= ninos == |s.w.disk| && Inv(s)
  {
    if BaseOk(s, next, ninos) {
      assert BaseIn(BaseSize, s, next, ninos) && BaseIn(BaseInv, s, next, ninos);
    }
    if next <= ninos == |s.w.disk| && Inv(s) {
      forall part
        ensures BaseIn(part, s, next, ninos)
      {
        match part
        case BaseSize =>
        case BaseInv =>
      }
    }
  }
}

/** What each operation of the file system comes to, and why it keeps the ownership of blocks and the bytes of files. */
module SfsLaws {
  import opened SfsDisk
  import opened SfsBitmap
  import opened SfsOwn
  import opened SfsPlaces
  import opened SfsGrow
  import opened SfsFlat
  import opened SfsShrink
  import opened SfsCost

  const E_INVAL: int := 3

  /** How an entry of an index block was come by: it needed none or one or two new blocks, or the disk was full. */
  datatype How = Same | One | Two | Full

  /** One block has been allocated and entered in an existing index block. */
  ghost predicate Entered(s: Fs, s': Fs, indirect: nat, index: nat, b: nat) {
    && b in s.free && b < |s.w.disk| <= WORD && s.unused > 0 && indirect < |s.w.disk| && index < N_ENTRY
    && s' == Allocated(s, b).(w := WithWord(Allocated(s, b).w, indirect, index, b))
  }

  /** Two blocks have been allocated, the second entered in the first. */
  ghost predicate EnteredNew(s: Fs, s': Fs, a: nat, index: nat, b: nat) {
    && a in s.free && 0 < a < |s.w.disk| && s.unused > 0 && b in s.free - {a}
    && Entered(Allocated(s, a), s', a, index, b)
  }

  ghost predicate GivenBack(s: Fs, s': Fs) {
    exists b :: b in s.free && b < |s.w.disk| && s.unused > 0 && s' == Released(Allocated(s, b), b)
  }

  /** What asking for a data block comes to: its number, its creation, or a full disk with nothing changed for any file. */
  ghost predicate Got(s: Fs, s': Fs, p: Place, create: bool, ret: int, b: nat) {
    forall law :: GotLaw(law, s, s', p, create, ret, b)
  }

  datatype GetLaw = Owns | Calm | Answer | Space | Reach

  ghost predicate GotLaw(law: GetLaw, s: Fs, s': Fs, p: Place, create: bool, ret: int, b: nat) {
    match law
    case Owns => Inv(s') && s'.loose == {} && s'.reserved == s.reserved
    case Calm => Quiet(s, s', p) && (!create || At(s.w, p) != 0 ==> s' == s && ret == 0)
    case Answer =>
      && (ret == 0 ==> b == At(s'.w, p) && (create ==> b != 0))
      && (ret != 0 ==> At(s'.w, p) == 0)
      && (At(s.w, p) == 0 && At(s'.w, p) != 0 ==> Content(s'.w, At(s'.w, p)) == Zeros())
    // a new block takes one block and the index blocks it needs; it fails exactly when they are not there
    case Space =>
      && (ret != 0 ==> ret == -E_NO_MEM)
      && (create && At(s.w, p) == 0 ==> (ret == 0 <==> |s.free| >= 1 + MissingAt(s.w, p)))
      && (create && At(s.w, p) == 0 && ret == 0 ==> |s'.free| + 1 + MissingAt(s.w, p) == |s.free|)
    case Reach => create && At(s.w, p) == 0 && ret == 0 ==> ReachedAt(s.w, s'.w, p)
  }

  lemma GotAll(s: Fs, s': Fs, p: Place, create: bool, ret: int, b: nat)
    ensures Got(s, s', p, create, ret, b) <==>
      && GotLaw(Owns, s, s', p, create, ret, b) && GotLaw(Calm, s, s', p, create, ret, b)
      && GotLaw(Answer, s, s', p, create, ret, b) && GotLaw(Space, s, s', p, create, ret, b)
      && GotLaw(Reach, s, s', p, create, ret, b)
  {
    if GotLaw(Owns, s, s', p, create, ret, b) && GotLaw(Calm, s, s', p, create, ret, b)
       && GotLaw(Answer, s, s', p, create, ret, b) && GotLaw(Space, s, s', p, create, ret, b)
       && GotLaw(Reach, s, s', p, create, ret, b) {
      forall law ensures GotLaw(law, s, s', p, create, ret, b) {
        match law
        case Owns =>
        case Calm =>
        case Answer =>
        case Space =>
        case Reach =>
      }
    }
  }

  lemma Unchanged(s: Fs, p: Place, create: bool)
    requires Inv(s) && s.loose == {} && (!create || At(s.w, p) != 0)
    ensures Got(s, s, p, create, 0, At(s.w, p))
  {
    GotAll(s, s, p, create, 0, At(s.w, p));
  }

  lemma Failed(s: Fs, s': Fs, p: Place, b: nat)
    requires Inv(s) && s.loose == {} && (s' == s || GivenBack(s, s')) && At(s.w, p) == 0 && |s.free| < 1 + MissingAt(s.w, p)
    ensures Got(s, s', p, true, -E_NO_MEM, b)
  {
    NothingTaken(s, s', p);
    GotAll(s, s', p, true, -E_NO_MEM, b);
  }

  lemma IndexInUse(s: Fs, p: Place)
    requires Inv(s)
    ensures At(s.w, p) < |s.w.disk| && (At(s.w, p) != 0 ==> At(s.w, p) !in s.free)
  {
    assert Holds(Parts, s);
    if At(s.w, p) != 0 {
      Range(s, p);
    }
  }

  lemma NothingTaken(s: Fs, s': Fs, p: Place)
    requires Inv(s) && (s' == s || GivenBack(s, s'))
    ensures Inv(s') && Quiet(s, s', p) && s'.loose == s.loose - s.free && At(s'.w, p) == At(s.w, p) && s'.reserved == s.reserved
  {
    assert Holds(Parts, s);
    if s' != s {
      var b :| b in s.free && b < |s.w.disk| && s.unused > 0 && s' == Released(Allocated(s, b), b);
      GiveBack(s, b, p);
      AllocQuiet(s, b, p);
    }
  }

  lemma GrewDirect(s: Fs, n: nat, i: nat, b: nat)
    requires Inv(s) && s.loose == {} && n in s.w.inodes && i < N_DIRECT && At(s.w, Direct(n, i)) == 0 && b in s.free
    ensures i < |s.w.inodes[n].direct| && b < |s.w.disk| && s.unused > 0
    ensures var a := Allocated(s, b); Got(s, Hung(a, WithDirect(a.w, n, i, b), Direct(n, i), b), Direct(n, i), true, 0, b)
  {
    var p := Direct(n, i);
    AllocQuiet(s, b, p);
    var a := Allocated(s, b);
    GrowDirect(a, n, i, b);
    var s' := Hung(a, WithDirect(a.w, n, i, b), p, b);
    QuietTrans(s, a, s', p);
    IndexPlaces(s.w, s'.w, n, p, p);
    OneLess(s.free, b);
    GotAll(s, s', p, true, 0, b);
  }

  lemma GrewInd(s: Fs, s1: Fs, n: nat, i: nat, indirect: nat, b: nat)
    requires Inv(s) && s.loose == {} && indirect == IndOf(s.w, n) != 0 && i < N_ENTRY && At(s.w, IndData(n, i)) == 0
    requires Entered(s, s1, indirect, i, b)
    ensures var s' := s1.(owner := s1.owner[b := IndData(n, i)], loose := s1.loose - {b});
      Got(s, s', IndData(n, i), true, 0, b)
  {
    var p := IndData(n, i);
    AllocQuiet(s, b, p);
    var a := Allocated(s, b);
    GrowInd(a, n, i, b);
    var s' := Hung(a, WithWord(a.w, indirect, i, b), p, b);
    QuietTrans(s, a, s', p);
    Range(s, Ind(n));
    IndexPlaces(s.w, s'.w, n, p, p);
    OneLess(s.free, b);
    GotAll(s, s', p, true, 0, b);
  }

  lemma GrewIndNew(s: Fs, s1: Fs, n: nat, i: nat, a: nat, b: nat)
    requires Inv(s) && s.loose == {} && n in s.w.inodes && IndOf(s.w, n) == 0 && i < N_ENTRY
    requires EnteredNew(s, s1, a, i, b)
    ensures var s' := s1.(w := WithInd(s1.w, n, a), owner := s1.owner[a := Ind(n)][b := IndData(n, i)], loose := s1.loose - {a} - {b});
      Got(s, s', IndData(n, i), true, 0, b)
  {
    var p := IndData(n, i);
    AllocQuiet(s, a, p);
    var s2 := Allocated(s, a);
    AllocQuiet(s2, b, p);
    var s3 := Allocated(s2, b);
    QuietTrans(s, s2, s3, p);
    FreshBlank(s2, a, b);
    GrowIndNew(s3, n, i, a, b);
    var s' := HungBoth(s3, WithInd(WithWord(s3.w, a, i, b), n, a), Ind(n), a, p, b);
    QuietTrans(s, s3, s', p);
    IndexPlaces(s.w, s'.w, n, Ind(n), p);
    OneLess(s.free, a);
    OneLess(s.free - {a}, b);
    GotAll(s, s', p, true, 0, b);
  }

  lemma OneLess(free: set<nat>, b: nat)
    requires b in free
    ensures |free - {b}| == |free| - 1
  {}

  lemma FreshBlank(s: Fs, a: nat, b: nat)
    requires b < |s.w.disk| && s.unused > 0 && a != b && Blank(s.w, a)
    ensures Blank(Allocated(s, b).w, a)
  {
    assert forall i :: 0 <= i < N_ENTRY ==> Read(Allocated(s, b).w.disk, a, i) == Read(s.w.disk, a, i);
  }

  ghost predicate SecondLaw(law: GetLaw, s: Fs, s': Fs, p: Place, create: bool, ret: int, b: nat) {
    match law
    case Owns => Inv(s') && s'.loose == {} && s'.reserved == s.reserved
    case Calm =>
      && p.SecData? && Quiet(s, s', p) && At(s'.w, p) == At(s.w, p)
      && (!create || SecOf(s.w, p.ino, p.j) != 0 ==> s' == s && ret == 0)
    case Answer => p.SecData? && (ret == 0 ==> b == SecOf(s'.w, p.ino, p.j) && (create ==> b != 0))
    case Space =>
      && (ret != 0 ==> ret == -E_NO_MEM) && (create ==> (ret == 0 <==> |s.free| >= MissingAt(s.w, p)))
      && (create && ret == 0 ==> |s'.free| + MissingAt(s.w, p) == |s.free|)
    case Reach => create && ret == 0 ==> ReachedAt(s.w, s'.w, p)
  }

  /** What asking for the second-level block on the way to data place p comes to. */
  ghost predicate Seconded(s: Fs, s': Fs, p: Place, create: bool, ret: int, b: nat) {
    forall law :: SecondLaw(law, s, s', p, create, ret, b)
  }

  lemma SecondedAll(s: Fs, s': Fs, p: Place, create: bool, ret: int, b: nat)
    ensures Seconded(s, s', p, create, ret, b) <==>
      && SecondLaw(Owns, s, s', p, create, ret, b) && SecondLaw(Calm, s, s', p, create, ret, b)
      && SecondLaw(Answer, s, s', p, create, ret, b) && SecondLaw(Space, s, s', p, create, ret, b)
      && SecondLaw(Reach, s, s', p, create, ret, b)
  {
    if SecondLaw(Owns, s, s', p, create, ret, b) && SecondLaw(Calm, s, s', p, create, ret, b)
       && SecondLaw(Answer, s, s', p, create, ret, b) && SecondLaw(Space, s, s', p, create, ret, b)
       && SecondLaw(Reach, s, s', p, create, ret, b) {
      forall law ensures SecondLaw(law, s, s', p, create, ret, b) {
        match law
        case Owns =>
        case Calm =>
        case Answer =>
        case Space =>
        case Reach =>
      }
    }
  }

  lemma SecondSame(s: Fs, p: Place, create: bool)
    requires Inv(s) && s.loose == {} && p.SecData? && (!create || SecOf(s.w, p.ino, p.j) != 0)
    ensures Seconded(s, s, p, create, 0, SecOf(s.w, p.ino, p.j))
  {
    SecondedAll(s, s, p, create, 0, SecOf(s.w, p.ino, p.j));
  }

  lemma SecondFailed(s: Fs, s': Fs, p: Place, b: nat)
    requires Inv(s) && s.loose == {} && (s' == s || GivenBack(s, s')) && p.SecData? && SecOf(s.w, p.ino, p.j) == 0 && |s.free| < MissingAt(s.w, p)
    ensures Seconded(s, s', p, true, -E_NO_MEM, b)
  {
    NothingTaken(s, s', p);
    SecondedAll(s, s', p, true, -E_NO_MEM, b);
  }

  /** Creating the second-level block first does not change what asking for the data block comes to. */
  lemma GotAfter(s: Fs, s1: Fs, s2: Fs, p: Place, create: bool, second: nat, ret: int, b: nat)
    requires Seconded(s, s1, p, create, 0, second) && Got(s1, s2, p, create, ret, b)
    ensures Got(s, s2, p, create, ret, b)
  {
    SecondedAll(s, s1, p, create, 0, second);
    GotAll(s1, s2, p, create, ret, b);
    QuietTrans(s, s1, s2, p);
    assert create ==> MissingAt(s1.w, p) == 0;
    GotAll(s, s2, p, create, ret, b);
  }

  lemma NotAfter(s: Fs, s1: Fs, p: Place, create: bool, second: nat, ret: int, b: nat)
    requires Seconded(s, s1, p, create, ret, second) && ret != 0
    ensures Got(s, s1, p, create, ret, b)
  {
    SecondedAll(s, s1, p, create, ret, second);
    GotAll(s, s1, p, create, ret, b);
  }

  lemma GrewSec(s: Fs, s1: Fs, n: nat, j: nat, i: nat, second: nat, b: nat)
    requires Inv(s) && s.loose == {} && second == SecOf(s.w, n, j) != 0 && i < N_ENTRY && At(s.w, SecData(n, j, i)) == 0
    requires Entered(s, s1, second, i, b)
    ensures var s' := s1.(owner := s1.owner[b := SecData(n, j, i)], loose := s1.loose - {b});
      Got(s, s', SecData(n, j, i), true, 0, b)
  {
    var p := SecData(n, j, i);
    AllocQuiet(s, b, p);
    var a := Allocated(s, b);
    assert At(a.w, Sec(n, j)) == second;
    GrowSec(a, n, j, i, b);
    var s' := Hung(a, WithWord(a.w, second, i, b), p, b);
    QuietTrans(s, a, s', p);
    Range(s, Sec(n, j));
    IndexPlaces(s.w, s'.w, n, p, p);
    OneLess(s.free, b);
    GotAll(s, s', p, true, 0, b);
  }

  lemma GrewDb(s: Fs, s1: Fs, n: nat, j: nat, db: nat, b: nat, p: Place)
    requires Inv(s) && s.loose == {} && db == DbOf(s.w, n) != 0 && j < N_ENTRY && SecOf(s.w, n, j) == 0
    requires Entered(s, s1, db, j, b) && p.SecData? && p.ino == n && p.j == j
    ensures Seconded(s, s1.(owner := s1.owner[b := Sec(n, j)], loose := s1.loose - {b}), p, true, 0, b)
  {
    AllocQuiet(s, b, p);
    var a := Allocated(s, b);
    assert At(a.w, Sec(n, j)) == 0 && At(a.w, Db(n)) == db;
    GrowDb(a, n, j, b, p);
    var s' := Hung(a, WithWord(a.w, db, j, b), Sec(n, j), b);
    QuietTrans(s, a, s', p);
    NewSecondEmpty(a, s', n, j, b, p);
    IndexPlaces(s.w, s'.w, n, Sec(n, j), p);
    OneLess(s.free, b);
    SecondedAll(s, s', p, true, 0, b);
  }

  /** A fresh second-level block has no entries. */
  lemma NewSecondEmpty(a: Fs, s': Fs, n: nat, j: nat, b: nat, p: Place)
    requires Blank(a.w, b) && p.SecData? && p.ino == n && p.j == j && SecOf(s'.w, n, j) == b && Content(s'.w, b) == Content(a.w, b)
    requires |s'.w.disk| == |a.w.disk|
    ensures At(s'.w, p) == 0
  {
    if p.k < N_ENTRY {
      assert Read(s'.w.disk, b, p.k) == Read(a.w.disk, b, p.k);
    }
  }

  lemma GrewDbNew(s: Fs, s1: Fs, n: nat, j: nat, a: nat, b: nat, p: Place)
    requires Inv(s) && s.loose == {} && n in s.w.inodes && DbOf(s.w, n) == 0 && j < N_ENTRY
    requires EnteredNew(s, s1, a, j, b) && p.SecData? && p.ino == n && p.j == j
    ensures var s' := s1.(w := WithDb(s1.w, n, a), owner := s1.owner[a := Db(n)][b := Sec(n, j)], loose := s1.loose - {a} - {b});
      Seconded(s, s', p, true, 0, b)
  {
    AllocQuiet(s, a, p);
    var s2 := Allocated(s, a);
    AllocQuiet(s2, b, p);
    var s3 := Allocated(s2, b);
    QuietTrans(s, s2, s3, p);
    FreshBlank(s2, a, b);
    GrowDbNew(s3, n, j, a, b, p);
    var s' := HungBoth(s3, WithDb(WithWord(s3.w, a, j, b), n, a), Db(n), a, Sec(n, j), b);
    QuietTrans(s, s3, s', p);
    NewSecondEmpty(s3, s', n, j, b, p);
    NewDbReached(s, s', n, j, b, p);
    OneLess(s.free, a);
    OneLess(s.free - {a}, b);
    SecondedAll(s, s', p, true, 0, b);
  }

  lemma NewDbReached(s: Fs, s': Fs, n: nat, j: nat, b: nat, p: Place)
    requires DbOf(s.w, n) == 0 && p.SecData? && p.ino == n && p.j == j && SecOf(s'.w, n, j) == b != 0
    requires forall q :: q != Db(n) && q != Sec(n, j) ==> At(s'.w, q) == At(s.w, q)
    ensures ReachedAt(s.w, s'.w, p) && MissingAt(s.w, p) == 2
  {
    assert At(s'.w, Ind(n)) == At(s.w, Ind(n));
    forall i: nat | i != j ensures SecOf(s'.w, n, i) == SecOf(s.w, n, i) {
      assert At(s'.w, Sec(n, i)) == At(s.w, Sec(n, i));
    }
  }

  // ---- loading a block

  /** Files, sizes and data stay; a load past the end adds a block of zeros. */
  ghost predicate Loaded(s: Fs, s': Fs, n: nat, index: nat, ret: int, b: nat) {
    && n in s.w.inodes && s'.w.inodes.Keys == s.w.inodes.Keys && |s'.w.disk| == |s.w.disk| && s'.reserved == s.reserved
    && (forall m :: m in s.w.inodes ==> s'.w.inodes[m].size == s.w.inodes[m].size)
    && (forall m :: m in s.w.inodes && m != n ==> Blocks(s'.w, m) == Blocks(s.w, m))
    && Blocks(s'.w, n) == (if ret == 0 && index == s.w.inodes[n].blocks then Blocks(s.w, n) + [Zeros()] else Blocks(s.w, n))
    && (ret == 0 ==> b == At(s'.w, Data(n, index)) && 0 < b < |s'.w.disk|)
    && (ret != 0 ==> ret == -E_NO_MEM && index == s.w.inodes[n].blocks)
    && (index < s.w.inodes[n].blocks ==> s' == s)
    && (index == s.w.inodes[n].blocks ==> Took(s, s', n, ret))
  }

  /** The next block of a file is there exactly if it and the index blocks it needs were free, and it took just those. */
  ghost predicate Took(s: Fs, s': Fs, n: nat, ret: int)
    requires n in s.w.inodes
  {
    var p := Data(n, s.w.inodes[n].blocks);
    && (ret == 0 <==> |s.free| >= 1 + MissingAt(s.w, p))
    && (ret == 0 ==> |s'.free| + 1 + MissingAt(s.w, p) == |s.free| && ReachedAt(s.w, s'.w, p))
  }

  lemma SameBlocks(s: Fs, s': Fs, m: nat, p: Place)
    requires m in s.w.inodes && m in s'.w.inodes && Filled(s.w, m) && Quiet(s, s', p)
    ensures Blocks(s'.w, m) == Blocks(s.w, m)
  {
    forall i: nat | i < s.w.inodes[m].blocks ensures Content(s'.w, At(s'.w, Data(m, i))) == Content(s.w, At(s.w, Data(m, i))) {
      assert At(s.w, Data(m, i)) != 0 && IsData(Data(m, i));
    }
  }

  lemma SameFilled(s: Fs, s': Fs, m: nat, p: Place)
    requires Filled(s.w, m) && Quiet(s, s', p) && (forall i: nat :: Data(m, i) == p ==> At(s'.w, p) == At(s.w, p))
    ensures Filled(s'.w, m)
  {
    if m in s.w.inodes {
      forall i: nat ensures At(s'.w, Data(m, i)) != 0 <==> i < s'.w.inodes[m].blocks {
        assert IsData(Data(m, i));
      }
    }
  }

  lemma NotLoaded(s: Fs, s': Fs, n: nat, index: nat, b: nat)
    requires Inv(s) && AllFilled(s.w) && n in s.w.inodes && index == s.w.inodes[n].blocks
    requires Got(s, s', Data(n, index), true, -E_NO_MEM, b)
    ensures AllFilled(s'.w) && Loaded(s, s', n, index, -E_NO_MEM, b)
  {
    GotAll(s, s', Data(n, index), true, -E_NO_MEM, b);
    assert Filled(s.w, n);
    assert At(s.w, Data(n, index)) == 0;
    forall m ensures Filled(s'.w, m) {
      SameFilled(s, s', m, Data(n, index));
    }
    forall m | m in s.w.inodes ensures Blocks(s'.w, m) == Blocks(s.w, m) {
      SameBlocks(s, s', m, Data(n, index));
    }
  }

  /** Counting the block changes no place. */
  lemma TookCounted(s: Fs, s1: Fs, s': Fs, n: nat, p: Place)
    requires ReachedAt(s.w, s1.w, p) && IsData(p) && p.ino == n && forall q :: At(s'.w, q) == At(s1.w, q)
    ensures ReachedAt(s.w, s'.w, p)
  {
    IndexPlaces(s1.w, s'.w, n, p, p);
  }

  lemma CreatedOk(s: Fs, s1: Fs, n: nat, index: nat, b: nat)
    requires Inv(s) && AllFilled(s.w) && n in s.w.inodes && index == s.w.inodes[n].blocks < MAX_BLOCKS
    requires Got(s, s1, Data(n, index), true, 0, b) && At(s.w, Data(n, index)) == 0
    ensures n in s1.w.inodes && Inv(Counted1(s1, n, index)) && AllFilled(Counted1(s1, n, index).w)
    ensures Loaded(s, Counted1(s1, n, index), n, index, 0, b)
  {
    GotAll(s, s1, Data(n, index), true, 0, b);
    var s' := Counted1(s1, n, index);
    PlacesByFields(s1.w, s'.w);
    assert Holds(Fields, s1);
    SameKeeps(s1, s'.w);
    CreatedFilled(s, s1, n, index);
    TookCounted(s, s1, s', n, Data(n, index));
    IndexInUse(s1, Data(n, index));
    CreatedBlocks(s, s1, n, index, b);
  }

  ghost function Counted1(s: Fs, n: nat, index: nat): Fs
    requires n in s.w.inodes
  {
    s.(w := s.w.(inodes := s.w.inodes[n := s.w.inodes[n].(blocks := index + 1)]))
  }

  lemma CreatedBlocks(s: Fs, s1: Fs, n: nat, index: nat, b: nat)
    requires AllFilled(s.w) && n in s.w.inodes && n in s1.w.inodes && index == s.w.inodes[n].blocks && Quiet(s, s1, Data(n, index))
    requires At(s1.w, Data(n, index)) == b && Content(s1.w, b) == Zeros()
    ensures Blocks(Counted1(s1, n, index).w, n) == Blocks(s.w, n) + [Zeros()]
    ensures forall m :: m in s.w.inodes && m != n ==> Blocks(Counted1(s1, n, index).w, m) == Blocks(s.w, m)
  {
    PlacesByFields(s1.w, Counted1(s1, n, index).w);
    forall m | m in s.w.inodes ensures Blocks(s1.w, m) == Blocks(s.w, m) {
      assert Filled(s.w, m);
      SameBlocks(s, s1, m, Data(n, index));
    }
  }

  lemma CreatedFilled(s: Fs, s1: Fs, n: nat, index: nat)
    requires AllFilled(s.w) && n in s.w.inodes && index == s.w.inodes[n].blocks
    requires Quiet(s, s1, Data(n, index)) && At(s1.w, Data(n, index)) != 0
    ensures AllFilled(s1.w.(inodes := s1.w.inodes[n := s1.w.inodes[n].(blocks := index + 1)]))
  {
    var w' := s1.w.(inodes := s1.w.inodes[n := s1.w.inodes[n].(blocks := index + 1)]);
    PlacesByFields(s1.w, w');
    forall m ensures Filled(w', m) {
      assert Filled(s.w, m);
      if m in s.w.inodes {
        forall i: nat ensures At(w', Data(m, i)) != 0 <==> i < w'.inodes[m].blocks {
          assert IsData(Data(m, i));
          if Data(m, i) == Data(n, index) {
            DataInjective(m, i, n, index);
          }
        }
      }
    }
  }

  /** Other files keep their blocks, and every file its size. */
  ghost predicate Untouched(s: Fs, s': Fs, n: nat) {
    && s'.w.inodes.Keys == s.w.inodes.Keys && s'.reserved == s.reserved && |s'.w.disk| == |s.w.disk|
    && (forall m :: m in s.w.inodes ==> s'.w.inodes[m].size == s.w.inodes[m].size)
    && (forall m :: m in s.w.inodes && m != n ==> Blocks(s'.w, m) == Blocks(s.w, m))
  }

  lemma LoadedFlat(s: Fs, s1: Fs, n: nat, index: nat, b: nat)
    requires Loaded(s, s1, n, index, 0, b) && index <= s.w.inodes[n].blocks
    ensures n in s1.w.inodes && Flat(s1.w, n) == Grow(Flat(s.w, n), (index + 1) * BLK_SIZE) && index < s1.w.inodes[n].blocks
  {
    if index == s.w.inodes[n].blocks {
      CatMore(Blocks(s.w, n), Zeros());
    }
  }

  lemma LoadedBalance(s: Fs, s1: Fs, n: nat, index: nat, b: nat)
    requires Loaded(s, s1, n, index, 0, b) && index <= s.w.inodes[n].blocks
    ensures Balanced(s, s1, n) && s.w.inodes[n].blocks <= s1.w.inodes[n].blocks
  {
    if index == s.w.inodes[n].blocks {
      BalancedLoad(s, s1, n);
    }
  }

  /** Writing a data block of a file changes the bytes of that file alone. */
  lemma DataWrite(s: Fs, n: nat, i: nat, off: nat, d: seq<Byte>)
    requires Inv(s) && AllFilled(s.w) && n in s.w.inodes && i < s.w.inodes[n].blocks && off + |d| <= BLK_SIZE
    ensures 0 < At(s.w, Data(n, i)) < |s.w.disk|
    ensures var b := At(s.w, Data(n, i));
      var s' := s.(w := s.w.(disk := s.w.disk[b := Patch(s.w.disk[b], off, d)]));
      && Inv(s') && AllFilled(s'.w) && Untouched(s, s', n) && (forall q :: At(s'.w, q) == At(s.w, q))
      && i * BLK_SIZE + off + |d| <= |Flat(s.w, n)|
      && Flat(s'.w, n) == Splice(Flat(s.w, n), i * BLK_SIZE + off, d)
  {
    assert Filled(s.w, n);
    var p := Data(n, i);
    var b := At(s.w, p);
    Range(s, p);
    LooseIsNotIndex(s, b);
    var w' := s.w.(disk := s.w.disk[b := Patch(s.w.disk[b], off, d)]);
    forall q ensures At(w', q) == At(s.w, q) {
      WriteFrame(s.w, b, Patch(s.w.disk[b], off, d), q);
    }
    assert Holds(Fields, s);
    SameKeeps(s, w');
    assert forall m :: Filled(s.w, m) ==> Filled(w', m);
    WrittenBlocks(s, w', n, i, off, d);
    CatPatch(Blocks(s.w, n), i, off, d);
  }

  lemma WrittenBlocks(s: Fs, w': World, n: nat, i: nat, off: nat, d: seq<Byte>)
    requires Inv(s) && AllFilled(s.w) && n in s.w.inodes && i < s.w.inodes[n].blocks && off + |d| <= BLK_SIZE
    requires 0 < At(s.w, Data(n, i)) < |s.w.disk| && (forall q :: At(w', q) == At(s.w, q))
    requires var b := At(s.w, Data(n, i)); w' == s.w.(disk := s.w.disk[b := Patch(s.w.disk[b], off, d)])
    ensures Blocks(w', n) == Blocks(s.w, n)[i := Patch(Blocks(s.w, n)[i], off, d)]
    ensures forall m :: m in s.w.inodes && m != n ==> Blocks(w', m) == Blocks(s.w, m)
  {
    var b := At(s.w, Data(n, i));
    forall m, j: nat | m in s.w.inodes && j < s.w.inodes[m].blocks && (m != n || j != i) ensures At(s.w, Data(m, j)) != b {
      if At(s.w, Data(m, j)) == b {
        NoSharing(s, Data(m, j), Data(n, i));
        DataInjective(m, j, n, i);
      }
    }
    forall m | m in s.w.inodes && m != n ensures Blocks(w', m) == Blocks(s.w, m) {}
  }

  // ---- a write in progress

  datatype WriteLaw = OfFiles | OfOthers | OfBytes

  ghost predicate WritingLaw(law: WriteLaw, s0: Fs, s: Fs, n: nat, off: nat, d: seq<Byte>) {
    match law
    case OfFiles => AllFilled(s.w) && n in s0.w.inodes && n in s.w.inodes
    case OfOthers => Untouched(s0, s, n)
    case OfBytes => n in s0.w.inodes && n in s.w.inodes && Written(Flat(s0.w, n), Flat(s.w, n), off, d)
  }

  /** From s0 to s, what file n lacks has shrunk by what the disk has lost. */
  ghost predicate Balanced(s0: Fs, s: Fs, n: nat) {
    && n in s0.w.inodes && n in s.w.inodes
    && forall t: nat :: t >= s.w.inodes[n].blocks ==> |s0.free| + Short(s.w, n, t) == |s.free| + Short(s0.w, n, t)
  }

  lemma BalancedLoad(s: Fs, s': Fs, n: nat)
    requires n in s.w.inodes && n in s'.w.inodes && s'.w.inodes[n].blocks == s.w.inodes[n].blocks + 1 && Took(s, s', n, 0)
    ensures Balanced(s, s', n)
  {
    forall t: nat | t >= s'.w.inodes[n].blocks ensures |s.free| + Short(s'.w, n, t) == |s'.free| + Short(s.w, n, t) {
      ShortStep(s.w, s'.w, n, t);
    }
  }

  lemma BalancedSame(s: Fs, s': Fs, n: nat)
    requires n in s.w.inodes && n in s'.w.inodes && s'.w.inodes[n].blocks == s.w.inodes[n].blocks && s'.free == s.free
    requires forall p :: At(s'.w, p) == At(s.w, p)
    ensures Balanced(s, s', n)
  {
    forall t: nat | t >= s'.w.inodes[n].blocks ensures |s.free| + Short(s'.w, n, t) == |s'.free| + Short(s.w, n, t) {
      ShortSame(s.w, s'.w, n, t);
    }
  }

  lemma BalancedTrans(s0: Fs, s: Fs, s': Fs, n: nat)
    requires Balanced(s0, s, n) && Balanced(s, s', n) && s.w.inodes[n].blocks <= s'.w.inodes[n].blocks
    ensures Balanced(s0, s', n)
  {
    forall t: nat | t >= s'.w.inodes[n].blocks ensures |s0.free| + Short(s'.w, n, t) == |s'.free| + Short(s0.w, n, t) {
      assert |s.free| + Short(s'.w, n, t) == |s'.free| + Short(s.w, n, t);
      assert |s0.free| + Short(s.w, n, t) == |s.free| + Short(s0.w, n, t);
    }
  }

  /** The disk has room for file n to grow to f blocks, and not to f + 1. */
  ghost predicate StuckAt(s: Fs, n: nat, f: nat) {
    n in s.w.inodes && Short(s.w, n, f) <= |s.free| < Short(s.w, n, f + 1)
  }

  lemma Stuck(s0: Fs, s: Fs, n: nat)
    requires Balanced(s0, s, n) && Filled(s.w, n) && |s.free| < 1 + MissingAt(s.w, Data(n, s.w.inodes[n].blocks))
    ensures StuckAt(s0, n, s.w.inodes[n].blocks)
  {
    var k := s.w.inodes[n].blocks;
    NothingShort(s.w, n, k);
    ShortOne(s.w, n);
    assert |s0.free| + Short(s.w, n, k) == |s.free| + Short(s0.w, n, k);
    assert |s0.free| + Short(s.w, n, k + 1) == |s.free| + Short(s0.w, n, k + 1);
  }

  lemma Enough(s0: Fs, s: Fs, n: nat, t: nat)
    requires Balanced(s0, s, n) && Filled(s.w, n) && t <= s.w.inodes[n].blocks
    ensures |s0.free| >= Short(s0.w, n, t)
  {
    var k := s.w.inodes[n].blocks;
    NothingShort(s.w, n, k);
    ShortGrows(s0.w, n, t, k);
    assert |s0.free| + Short(s.w, n, k) == |s.free| + Short(s0.w, n, k);
  }

  lemma NotEnough(s: Fs, n: nat, f: nat, t: nat)
    requires StuckAt(s, n, f) && f < t
    ensures |s.free| < Short(s.w, n, t)
  {
    ShortGrows(s.w, n, f + 1, t);
  }

  /** From s0 to s, exactly `d` has been written at `off` of file n. */
  ghost predicate Writing(s0: Fs, s: Fs, n: nat, off: nat, d: seq<Byte>) {
    forall law :: WritingLaw(law, s0, s, n, off, d)
  }

  lemma WritingStart(s: Fs, n: nat, off: nat)
    requires AllFilled(s.w) && n in s.w.inodes && off / BLK_SIZE <= s.w.inodes[n].blocks
    ensures Writing(s, s, n, off, [])
  {
    forall law ensures WritingLaw(law, s, s, n, off, []) {
      match law
      case OfFiles =>
      case OfOthers =>
      case OfBytes =>
    }
  }

  /** The next byte to write lies in a block of the file or in the one after its end. */
  lemma WritingAt(s0: Fs, s: Fs, n: nat, off: nat, d: seq<Byte>)
    requires Writing(s0, s, n, off, d)
    ensures AllFilled(s.w) && n in s.w.inodes && (off + |d|) / BLK_SIZE <= s.w.inodes[n].blocks
  {
    assert WritingLaw(OfFiles, s0, s, n, off, d) && WritingLaw(OfBytes, s0, s, n, off, d);
  }

  lemma WritingStep(s0: Fs, s: Fs, s': Fs, n: nat, off: nat, d: seq<Byte>, e: seq<Byte>, index: nat, o: nat)
    requires Writing(s0, s, n, off, d) && AllFilled(s'.w) && Untouched(s, s', n) && n in s.w.inodes && |e| > 0
    requires index * BLK_SIZE + o == off + |d| && o + |e| <= BLK_SIZE
    requires Flat(s'.w, n) == Splice(Grow(Flat(s.w, n), (index + 1) * BLK_SIZE), index * BLK_SIZE + o, e)
    ensures Writing(s0, s', n, off, d + e)
  {
    assert WritingLaw(OfFiles, s0, s, n, off, d) && WritingLaw(OfOthers, s0, s, n, off, d);
    assert WritingLaw(OfBytes, s0, s, n, off, d);
    NextPiece(Flat(s0.w, n), Flat(s.w, n), Flat(s'.w, n), off, d, e, index, o);
    forall law ensures WritingLaw(law, s0, s', n, off, d + e) {
      match law
      case OfFiles =>
      case OfOthers =>
      case OfBytes =>
    }
  }

  lemma NextPiece(was: seq<Byte>, mid: seq<Byte>, now: seq<Byte>, off: nat, d: seq<Byte>, e: seq<Byte>, index: nat, o: nat)
    requires Written(was, mid, off, d) && |e| > 0 && index * BLK_SIZE + o == off + |d| && o + |e| <= BLK_SIZE
    requires now == Splice(Grow(mid, (index + 1) * BLK_SIZE), index * BLK_SIZE + o, e)
    ensures Written(was, now, off, d + e)
  {
    WrittenMore(was, mid, now, off, d, e, (index + 1) * BLK_SIZE);
  }

  lemma WritingStays(s0: Fs, s: Fs, s': Fs, n: nat, off: nat, d: seq<Byte>)
    requires Writing(s0, s, n, off, d) && AllFilled(s'.w) && Untouched(s, s', n) && n in s.w.inodes && Flat(s'.w, n) == Flat(s.w, n)
    ensures Writing(s0, s', n, off, d)
  {
    assert WritingLaw(OfFiles, s0, s, n, off, d) && WritingLaw(OfOthers, s0, s, n, off, d) && WritingLaw(OfBytes, s0, s, n, off, d);
    forall law ensures WritingLaw(law, s0, s', n, off, d) {
      match law
      case OfFiles =>
      case OfOthers =>
      case OfBytes =>
    }
  }

  // ---- where the pieces of a transfer lie

  lemma FirstPiece(offset: nat, end: nat)
    requires offset < end && offset % BLK_SIZE != 0
    ensures var nblks := end / BLK_SIZE - offset / BLK_SIZE;
      && nblks >= 0
      && (nblks == 0 ==> offset % BLK_SIZE + (end - offset) <= BLK_SIZE)
      && (nblks != 0 ==> offset + (BLK_SIZE - offset % BLK_SIZE) == (offset / BLK_SIZE + 1) * BLK_SIZE <= end)
  {}

  lemma PieceIndex(pos: nat)
    requires pos < MAX_FILE_SIZE
    ensures pos / BLK_SIZE < MAX_BLOCKS && pos / BLK_SIZE * BLK_SIZE + pos % BLK_SIZE == pos
  {}

  lemma MiddlePiece(index: nat, end: nat)
    requires index < end / BLK_SIZE
    ensures (index * BLK_SIZE) % BLK_SIZE == 0 && (index + 1) * BLK_SIZE <= end
  {}

  lemma LastPiece(offset: nat, end: nat)
    ensures (end / BLK_SIZE * BLK_SIZE) % BLK_SIZE == 0 && end == end / BLK_SIZE * BLK_SIZE + end % BLK_SIZE
  {}

  // ---- the end of a transfer

  /** Conversion to a 32-bit signed integer. */
  function Int32(x: int): int {
    (x + 0x8000_0000) % 0x1_0000_0000 - 0x8000_0000
  }

  lemma EndPosition(offset: int, len: nat)
    requires -0x8000_0000 <= offset < 0x8000_0000 && len < 0x1_0000_0000
    ensures Int32(offset + len) == if offset + len < 0x8000_0000 then offset + len else offset + len - 0x1_0000_0000
  {}

  function Clip(offset: int, len: nat, limit: nat): int {
    if offset + len > limit then (if offset > limit then offset else limit) else offset + len
  }

  /** A transfer is cut at the limit and nowhere else. */
  lemma ClipIs(offset: int, len: nat, limit: nat)
    requires 0 <= offset <= limit
    ensures Clip(offset, len, limit) == offset + len || (Clip(offset, len, limit) == limit && limit < offset + len)
  {
  }

  /** The arguments of a transfer that reads or writes at least one byte, if the file has it. */
  predicate Transfers(offset: int, len: nat) {
    0 <= offset < MAX_FILE_SIZE && 0 < len && offset + len < 0x8000_0000
  }

  ghost predicate OthersKept(s: Fs, s': Fs, n: nat) {
    && s'.w.inodes.Keys == s.w.inodes.Keys
    && (forall m :: m in s.w.inodes && m != n ==> s'.w.inodes[m].size == s.w.inodes[m].size && Blocks(s'.w, m) == Blocks(s.w, m))
  }

  datatype FileLaw = Sound | Rest | Bytes

  ghost predicate WroteLaw(law: FileLaw, s: Fs, s': Fs, n: nat, off: nat, d: seq<Byte>) {
    && n in s.w.inodes && n in s'.w.inodes
    && match law
       case Sound => AllFilled(s'.w)
       case Rest => OthersKept(s, s', n)
       case Bytes => Written(Flat(s.w, n), Flat(s'.w, n), off, d) && s'.w.inodes[n].size == Max(s.w.inodes[n].size, off + |d|)
  }

  /** The blocks of file n are what they were with `d` written at `off`, its size reaches to the end of that,
      and no other file has changed. */
  ghost predicate WroteFile(s: Fs, s': Fs, n: nat, off: nat, d: seq<Byte>) {
    forall law :: WroteLaw(law, s, s', n, off, d)
  }

  /** Every byte of the file lies in a block of it. */
  ghost predicate Roomy(w: World, n: nat) {
    n in w.inodes && w.inodes[n].size <= w.inodes[n].blocks * BLK_SIZE
  }

  lemma WroteMeans(s: Fs, s': Fs, n: nat, off: nat, d: seq<Byte>)
    requires WroteFile(s, s', n, off, d) && Roomy(s.w, n)
    ensures AllFilled(s'.w) && OthersKept(s, s', n) && n in s'.w.inodes
    ensures Roomy(s'.w, n) <==> d != [] || off <= s.w.inodes[n].blocks * BLK_SIZE
    ensures off <= s.w.inodes[n].size ==> Roomy(s'.w, n) && Contents(s'.w, n) == Overwrite(Contents(s.w, n), off, d)
  {
    assert WroteLaw(Sound, s, s', n, off, d) && WroteLaw(Rest, s, s', n, off, d) && WroteLaw(Bytes, s, s', n, off, d);
    if off <= s.w.inodes[n].size {
      WrittenBytes(Flat(s.w, n), Flat(s'.w, n), s.w.inodes[n].size, off, d);
    }
  }

  /** A write at `off` gets the block it starts in, or needs none. */
  ghost predicate FirstFits(s: Fs, n: nat, off: nat) {
    n in s.w.inodes && (off <= s.w.inodes[n].blocks * BLK_SIZE || |s.free| >= Short(s.w, n, off / BLK_SIZE + 1))
  }

  /** Whether every byte up to the size lies in a block after a write is known before it. */
  lemma RoomAfter(s: Fs, s': Fs, n: nat, off: nat, end: nat, d: seq<Byte>)
    requires WroteFile(s, s', n, off, d) && Roomy(s.w, n) && off < end && off + |d| <= end
    requires if off + |d| == end then |s.free| >= Short(s.w, n, BlocksFor(end))
             else StuckAt(s, n, (off + |d|) / BLK_SIZE) && (d == [] || (off + |d|) % BLK_SIZE == 0)
    ensures Roomy(s'.w, n) <==> FirstFits(s, n, off)
  {
    WroteMeans(s, s', n, off, d);
    if d != [] {
      var f := if off + |d| == end then BlocksFor(end) else (off + |d|) / BLK_SIZE;
      assert off / BLK_SIZE + 1 <= f;
      ShortGrows(s.w, n, off / BLK_SIZE + 1, f);
    }
  }

  /** A file in as many blocks as it needs, with zeros at the end of the last, stays one, and any gap is zeros. */
  lemma WroteSound(s: Fs, s': Fs, n: nat, off: nat, d: seq<Byte>)
    requires WroteFile(s, s', n, off, d) && n in s.w.inodes && FileOk(s.w, n) && (off <= s.w.inodes[n].size || d != [])
    ensures n in s'.w.inodes && FileOk(s'.w, n) && Contents(s'.w, n) == Overwrite(Contents(s.w, n), off, d)
  {
    assert WroteLaw(Bytes, s, s', n, off, d);
    WrittenFile(Contents(s.w, n), Flat(s.w, n), Flat(s'.w, n), off, d);
  }

  lemma SizeBound(s: Fs, n: nat)
    requires Inv(s) && Roomy(s.w, n)
    ensures s.w.inodes[n].size <= MAX_FILE_SIZE
  {
    assert Holds(Fields, s);
  }

  /** A transfer that stops inside block f, which is before the end, did not get that block. */
  lemma StopsBefore(offset: nat, alen: nat, end: nat)
    requires offset + alen < end
    ensures (offset + alen) / BLK_SIZE < BlocksFor(end)
  {}

  /** A position in the file is in one of its blocks or at their end. */
  lemma InsideFile(s: Fs, n: nat, offset: nat)
    requires Roomy(s.w, n) && offset <= s.w.inodes[n].size
    ensures offset / BLK_SIZE <= s.w.inodes[n].blocks
  {}

  /** A transfer gets to its end exactly if there is room for all its blocks. */
  lemma WriteSpace(s0: Fs, s: Fs, n: nat, off: nat, end: nat, alen: nat, d: seq<Byte>)
    requires Writing(s0, s, n, off, d) && alen == |d| && off + alen <= end && off < end
    requires off + alen == end ==> Balanced(s0, s, n)
    requires off + alen < end ==> StuckAt(s0, n, (off + alen) / BLK_SIZE)
    ensures n in s0.w.inodes && (off + alen == end <==> |s0.free| >= Short(s0.w, n, BlocksFor(end)))
  {
    assert WritingLaw(OfFiles, s0, s, n, off, d) && WritingLaw(OfBytes, s0, s, n, off, d);
    if off + alen == end {
      assert Filled(s.w, n);
      Enough(s0, s, n, BlocksFor(end));
    } else {
      StopsBefore(off, alen, end);
      NotEnough(s0, n, (off + alen) / BLK_SIZE, BlocksFor(end));
    }
  }

  /** Raising the size to the end of what was written makes the file the overwritten one. */
  lemma WritingDone(s0: Fs, s: Fs, n: nat, off: nat, d: seq<Byte>)
    requires Inv(s) && Writing(s0, s, n, off, d) && n in s0.w.inodes
    ensures n in s.w.inodes && s.w.inodes[n].size == s0.w.inodes[n].size
    ensures var size := Max(s0.w.inodes[n].size, off + |d|);
      var s' := Resized(s, n, size);
      Inv(s') && WroteFile(s0, s', n, off, d) && (size == s0.w.inodes[n].size ==> s' == s)
  {
    assert WritingLaw(OfFiles, s0, s, n, off, d) && WritingLaw(OfOthers, s0, s, n, off, d) && WritingLaw(OfBytes, s0, s, n, off, d);
    var size := Max(s0.w.inodes[n].size, off + |d|);
    ResizeKeeps(s, n, size);
    var s' := Resized(s, n, size);
    forall law ensures WroteLaw(law, s0, s', n, off, d) {
      match law
      case Sound =>
      case Rest =>
      case Bytes =>
    }
  }

  ghost function Resized(s: Fs, n: nat, size: nat): Fs
    requires n in s.w.inodes
  {
    s.(w := s.w.(inodes := s.w.inodes[n := s.w.inodes[n].(size := size)]))
  }

  lemma ResizeKeeps(s: Fs, n: nat, size: nat)
    requires Inv(s) && AllFilled(s.w) && n in s.w.inodes
    ensures var s' := Resized(s, n, size);
      && Inv(s') && AllFilled(s'.w) && s'.w.inodes.Keys == s.w.inodes.Keys
      && (forall m :: m in s.w.inodes ==> Blocks(s'.w, m) == Blocks(s.w, m))
      && (size == s.w.inodes[n].size ==> s' == s)
  {
    var w' := Resized(s, n, size).w;
    PlacesByFields(s.w, w');
    assert Holds(Fields, s);
    SameKeeps(s, w');
    forall m ensures Filled(w', m) {
      assert Filled(s.w, m);
    }
    forall m | m in s.w.inodes ensures Blocks(w', m) == Blocks(s.w, m) {}
  }

  // ---- truncation

  datatype LostLaw = LostFiles | LostOwned | LostOthers | LostBlock

  ghost predicate LostHolds(law: LostLaw, s: Fs, s': Fs, n: nat) {
    match law
    case LostFiles => AllFilled(s'.w) && |s'.free| == |s.free| + 1
    case LostOwned => s'.free + OwnedBy(s', n) == s.free + OwnedBy(s, n)
    case LostOthers => Untouched(s, s', n)
    case LostBlock =>
      && n in s.w.inodes && n in s'.w.inodes && s'.w.inodes[n].blocks == s.w.inodes[n].blocks - 1
      && Blocks(s'.w, n) == Blocks(s.w, n)[..s'.w.inodes[n].blocks]
      && s'.w.inodes[n].indirect == s.w.inodes[n].indirect && s'.w.inodes[n].db == s.w.inodes[n].db
  }

  /** File n has lost its last block, and one more block is free. */
  ghost predicate Lost(s: Fs, s': Fs, n: nat) {
    forall law :: LostHolds(law, s, s', n)
  }

  /** A second-level block is named in an entry of an index block. */
  lemma SecondRange(s: Fs, n: nat, j: nat, i: nat)
    requires At(s.w, SecData(n, j, i)) != 0
    ensures j < N_ENTRY
  {}

  lemma LastLost(s: Fs, s1: Fs, n: nat)
    requires AllFilled(s.w) && n in s.w.inodes && s.w.inodes[n].blocks > 0 && WasCut(s, s1, Data(n, s.w.inodes[n].blocks - 1))
    requires n in s1.w.inodes
    requires s1.w.inodes[n].indirect == s.w.inodes[n].indirect && s1.w.inodes[n].db == s.w.inodes[n].db
    ensures s1.w.inodes[n].blocks == s.w.inodes[n].blocks && s1.loose == s.loose
    ensures Inv(Shortened(s1, n)) && Lost(s, Shortened(s1, n), n)
  {
    CutMeans(s, s1, Data(n, s.w.inodes[n].blocks - 1));
    ShortenKeeps(s, s1, n);
    var s' := Shortened(s1, n);
    forall law ensures LostHolds(law, s, s', n) {
      match law
      case LostFiles =>
      case LostOwned =>
      case LostOthers =>
      case LostBlock =>
    }
  }

  /** The blocks of a file after some have been added or taken away at its end. */
  ghost function Fitted(flat: seq<Byte>, len: nat): seq<Byte> {
    if len <= |flat| then flat[..len] else Grow(flat, len)
  }

  lemma FittedAt(flat: seq<Byte>, len: nat, i: nat)
    requires i < len
    ensures |Fitted(flat, len)| == len && Fitted(flat, len)[i] == if i < |flat| then flat[i] else 0
  {
  }

  datatype SizedLaw = SizedFiles | SizedOthers | SizedBytes

  ghost predicate SizedHolds(law: SizedLaw, s0: Fs, s: Fs, n: nat) {
    match law
    case SizedFiles => AllFilled(s.w) && n in s0.w.inodes && n in s.w.inodes
    case SizedOthers => Untouched(s0, s, n)
    case SizedBytes => n in s0.w.inodes && n in s.w.inodes && Flat(s.w, n) == Fitted(Flat(s0.w, n), s.w.inodes[n].blocks * BLK_SIZE)
  }

  /** Only the number of blocks of file n has changed; new ones are zero. */
  ghost predicate Sized(s0: Fs, s: Fs, n: nat) {
    forall law :: SizedHolds(law, s0, s, n)
  }

  lemma SizedStart(s: Fs, n: nat)
    requires AllFilled(s.w) && n in s.w.inodes
    ensures Sized(s, s, n)
  {
    forall law ensures SizedHolds(law, s, s, n) {
      match law
      case SizedFiles =>
      case SizedOthers =>
      case SizedBytes => assert Flat(s.w, n)[..|Flat(s.w, n)|] == Flat(s.w, n);
    }
  }

  lemma SizedFilled(s0: Fs, s: Fs, n: nat)
    requires Sized(s0, s, n)
    ensures AllFilled(s.w) && n in s.w.inodes && n in s0.w.inodes
  {
    assert SizedHolds(SizedFiles, s0, s, n);
  }

  lemma SizedLoad(s0: Fs, s: Fs, s': Fs, n: nat, ret: int, b: nat)
    requires Sized(s0, s, n) && n in s.w.inodes && n in s0.w.inodes && s0.w.inodes[n].blocks <= s.w.inodes[n].blocks
    requires AllFilled(s'.w) && Loaded(s, s', n, s.w.inodes[n].blocks, ret, b)
    ensures Sized(s0, s', n) && n in s'.w.inodes && s'.w.inodes[n].blocks == s.w.inodes[n].blocks + if ret == 0 then 1 else 0
  {
    assert SizedHolds(SizedFiles, s0, s, n) && SizedHolds(SizedOthers, s0, s, n) && SizedHolds(SizedBytes, s0, s, n);
    var k := s.w.inodes[n].blocks;
    if ret == 0 {
      LoadedFlat(s, s', n, k, b);
      GrowTwice(Flat(s0.w, n), k * BLK_SIZE, (k + 1) * BLK_SIZE);
      FittedGrow(Flat(s0.w, n), k * BLK_SIZE, (k + 1) * BLK_SIZE);
    }
    forall law ensures SizedHolds(law, s0, s', n) {
      match law
      case SizedFiles =>
      case SizedOthers =>
      case SizedBytes =>
    }
  }

  lemma FittedGrow(flat: seq<Byte>, a: nat, b: nat)
    requires |flat| <= a <= b
    ensures Fitted(flat, a) == Grow(flat, a) && Fitted(flat, b) == Grow(flat, b)
  {}

  // ---- a read in progress

  /** Bytes of a file, zeros where it has no block. */
  ghost function Padded(flat: seq<Byte>, off: nat, len: nat): seq<Byte> {
    Grow(flat, off + len)[off..off + len]
  }

  lemma PaddedAt(flat: seq<Byte>, off: nat, len: nat, i: nat)
    requires i < len
    ensures |Padded(flat, off, len)| == len && Padded(flat, off, len)[i] == if off + i < |flat| then flat[off + i] else 0
  {
  }

  datatype ReadLaw = ReadFiles | ReadBlocks | ReadBytes

  ghost predicate ReadingLaw(law: ReadLaw, s0: Fs, s: Fs, n: nat, off: nat, out: seq<Byte>) {
    && n in s0.w.inodes && n in s.w.inodes
    && match law
       case ReadFiles => Sized(s0, s, n) && Balanced(s0, s, n)
       case ReadBlocks =>
         && s.w.inodes[n].blocks == ReadBlocksFor(s0.w.inodes[n].blocks, off, |out|)
         && (off + |out|) / BLK_SIZE <= s.w.inodes[n].blocks
         && (s.w.inodes[n].blocks == s0.w.inodes[n].blocks ==> s == s0)
       case ReadBytes => out == Padded(Flat(s0.w, n), off, |out|)
  }

  /** How many blocks a file has after `len` bytes of it have been read. */
  function ReadBlocksFor(blocks: nat, off: nat, len: nat): nat {
    if len == 0 then blocks else Max(blocks, BlocksFor(off + len))
  }

  /** From s0 to s, `out` has been read at `off` of file n. */
  ghost predicate Reading(s0: Fs, s: Fs, n: nat, off: nat, out: seq<Byte>) {
    forall law :: ReadingLaw(law, s0, s, n, off, out)
  }

  /** The next block could not be had. */
  ghost predicate ReadStuck(s0: Fs, s: Fs, n: nat, off: nat, out: seq<Byte>) {
    && Sized(s0, s, n) && n in s0.w.inodes && n in s.w.inodes && StuckAt(s0, n, (off + |out|) / BLK_SIZE)
    && s.w.inodes[n].blocks == ReadBlocksFor(s0.w.inodes[n].blocks, off, |out|)
    && s0.w.inodes[n].blocks <= (off + |out|) / BLK_SIZE
    && out == Padded(Flat(s0.w, n), off, |out|)
  }

  lemma ReadingStart(s: Fs, n: nat, off: nat)
    requires AllFilled(s.w) && n in s.w.inodes && off / BLK_SIZE <= s.w.inodes[n].blocks
    ensures Reading(s, s, n, off, [])
  {
    SizedStart(s, n);
    BalancedSame(s, s, n);
    forall law ensures ReadingLaw(law, s, s, n, off, []) {
      match law
      case ReadFiles =>
      case ReadBlocks =>
      case ReadBytes =>
    }
  }

  lemma ReadingAt(s0: Fs, s: Fs, n: nat, off: nat, out: seq<Byte>)
    requires Reading(s0, s, n, off, out)
    ensures AllFilled(s.w) && n in s.w.inodes && (off + |out|) / BLK_SIZE <= s.w.inodes[n].blocks
  {
    assert ReadingLaw(ReadFiles, s0, s, n, off, out) && ReadingLaw(ReadBlocks, s0, s, n, off, out);
    SizedFilled(s0, s, n);
  }

  lemma ReadingStep(s0: Fs, s: Fs, s': Fs, n: nat, off: nat, out: seq<Byte>, piece: seq<Byte>, index: nat, o: nat, b: nat)
    requires Reading(s0, s, n, off, out) && Loaded(s, s', n, index, 0, b) && AllFilled(s'.w) && n in s'.w.inodes
    requires index * BLK_SIZE + o == off + |out| && 0 < |piece| <= BLK_SIZE - o && index <= s.w.inodes[n].blocks
    requires off + |out| + |piece| <= |Flat(s'.w, n)| && piece == Flat(s'.w, n)[off + |out|..off + |out| + |piece|]
    ensures Reading(s0, s', n, off, out + piece)
  {
    assert ReadingLaw(ReadFiles, s0, s, n, off, out) && ReadingLaw(ReadBlocks, s0, s, n, off, out);
    assert ReadingLaw(ReadBytes, s0, s, n, off, out);
    if index == s.w.inodes[n].blocks {
      SizedLoad(s0, s, s', n, 0, b);
      BalancedLoad(s, s', n);
      BalancedTrans(s0, s, s', n);
    }
    assert SizedHolds(SizedBytes, s0, s', n);
    FittedPiece(Flat(s0.w, n), Flat(s'.w, n), off, out, piece);
    PieceBlocks(s0.w.inodes[n].blocks, s.w.inodes[n].blocks, off, |out|, |piece|, index, o);
    forall law ensures ReadingLaw(law, s0, s', n, off, out + piece) {
      match law
      case ReadFiles =>
      case ReadBlocks =>
      case ReadBytes =>
    }
  }

  lemma PieceBlocks(b0: nat, blocks: nat, off: nat, len: nat, more: nat, index: nat, o: nat)
    requires blocks == ReadBlocksFor(b0, off, len) && index * BLK_SIZE + o == off + len && 0 < more <= BLK_SIZE - o && index <= blocks
    ensures ReadBlocksFor(b0, off, len + more) == if index == blocks then blocks + 1 else blocks
    ensures (off + len + more) / BLK_SIZE <= index + 1
  {
    assert BlocksFor(off + len + more) == index + 1;
  }

  lemma FittedPiece(flat: seq<Byte>, now: seq<Byte>, off: nat, out: seq<Byte>, piece: seq<Byte>)
    requires |flat| <= |now| && now == Fitted(flat, |now|) && off + |out| + |piece| <= |now|
    requires out == Padded(flat, off, |out|) && piece == now[off + |out|..off + |out| + |piece|]
    ensures out + piece == Padded(flat, off, |out + piece|)
  {
    var all := out + piece;
    assert |Padded(flat, off, |all|)| == |all|;
    forall i | 0 <= i < |all| ensures all[i] == Padded(flat, off, |all|)[i] {
      PaddedAt(flat, off, |all|, i);
      if i < |out| {
        PaddedAt(flat, off, |out|, i);
      } else {
        FittedAt(flat, |now|, off + i);
      }
    }
  }

  lemma ReadingStops(s0: Fs, s: Fs, s': Fs, n: nat, off: nat, out: seq<Byte>, index: nat, ret: int, b: nat)
    requires Reading(s0, s, n, off, out) && Loaded(s, s', n, index, ret, b) && ret != 0 && AllFilled(s'.w)
    requires index == (off + |out|) / BLK_SIZE
    ensures ReadStuck(s0, s', n, off, out)
  {
    assert ReadingLaw(ReadFiles, s0, s, n, off, out) && ReadingLaw(ReadBlocks, s0, s, n, off, out);
    assert ReadingLaw(ReadBytes, s0, s, n, off, out);
    SizedFilled(s0, s, n);
    SizedLoad(s0, s, s', n, ret, b);
    assert Filled(s.w, n);
    Stuck(s0, s, n);
  }

  /** Where a read ends. */
  function ReadEnd(offset: int, len: nat, size: nat): int {
    Clip(offset, len, if size < MAX_FILE_SIZE then size else MAX_FILE_SIZE)
  }

  /** What a read of file n from `off` to `end` comes to: the bytes, zeros where the file has no block, with a block added for
      each of those. It fails exactly when the blocks it lacks are more than the free ones, at the first that does not fit. */
  ghost predicate ReadTo(s0: Fs, s: Fs, n: nat, off: nat, end: nat, ret: int, out: seq<Byte>) {
    forall law :: ReadToLaw(law, s0, s, n, off, end, ret, out)
  }

  datatype ReadToPart = Gotten | Added | Sufficed | Unmoved

  ghost predicate ReadToLaw(law: ReadToPart, s0: Fs, s: Fs, n: nat, off: nat, end: nat, ret: int, out: seq<Byte>) {
    && n in s0.w.inodes && n in s.w.inodes
    && match law
       case Gotten => off + |out| <= end && (ret == 0 <==> off + |out| == end) && out == Padded(Flat(s0.w, n), off, |out|)
       case Added => s.w.inodes[n].blocks == ReadBlocksFor(s0.w.inodes[n].blocks, off, |out|)
       case Sufficed =>
         && (ret == 0 <==> |s0.free| >= Short(s0.w, n, BlocksFor(end)))
         && (ret != 0 ==> StuckAt(s0, n, (off + |out|) / BLK_SIZE))
       case Unmoved => end <= s0.w.inodes[n].blocks * BLK_SIZE ==> ret == 0 && s == s0
  }

  /** A read of bytes that all lie in blocks of the file gets them all and changes nothing. */
  lemma ReadMeans(s0: Fs, s: Fs, n: nat, off: nat, end: nat, ret: int, out: seq<Byte>)
    requires ReadTo(s0, s, n, off, end, ret, out) && Roomy(s0.w, n) && off <= end <= s0.w.inodes[n].size
    ensures ret == 0 && s == s0 && out == Contents(s0.w, n)[off..end]
  {
    assert ReadToLaw(Gotten, s0, s, n, off, end, ret, out) && ReadToLaw(Unmoved, s0, s, n, off, end, ret, out);
  }

  lemma ReadEnds(s0: Fs, s: Fs, n: nat, off: nat, end: nat, ret: int, out: seq<Byte>)
    requires AllFilled(s0.w) && off < end && off + |out| <= end && (ret == 0 <==> off + |out| == end)
    requires if ret == 0 then Reading(s0, s, n, off, out) else ReadStuck(s0, s, n, off, out)
    ensures Sized(s0, s, n) && AllFilled(s.w) && ReadTo(s0, s, n, off, end, ret, out)
  {
    RoundedUp(end);
    if ret == 0 {
      assert ReadingLaw(ReadFiles, s0, s, n, off, out) && ReadingLaw(ReadBlocks, s0, s, n, off, out);
      assert ReadingLaw(ReadBytes, s0, s, n, off, out);
      SizedFilled(s0, s, n);
      assert Filled(s.w, n);
      Enough(s0, s, n, BlocksFor(end));
    } else {
      SizedFilled(s0, s, n);
      StopsBefore(off, |out|, end);
      NotEnough(s0, n, (off + |out|) / BLK_SIZE, BlocksFor(end));
    }
    forall law
      ensures ReadToLaw(law, s0, s, n, off, end, ret, out)
    {
      match law
      case Gotten =>
      case Added =>
      case Sufficed =>
      case Unmoved =>
    }
  }

  lemma SizedLost(s0: Fs, s: Fs, s': Fs, n: nat)
    requires Sized(s0, s, n) && n in s.w.inodes && n in s0.w.inodes && s.w.inodes[n].blocks <= s0.w.inodes[n].blocks && Lost(s, s', n)
    ensures Sized(s0, s', n) && n in s'.w.inodes && s'.w.inodes[n].blocks == s.w.inodes[n].blocks - 1
  {
    assert SizedHolds(SizedFiles, s0, s, n) && SizedHolds(SizedOthers, s0, s, n) && SizedHolds(SizedBytes, s0, s, n);
    assert LostHolds(LostFiles, s, s', n) && LostHolds(LostOthers, s, s', n) && LostHolds(LostBlock, s, s', n);
    CatPrefix(Blocks(s.w, n), s'.w.inodes[n].blocks);
    forall law ensures SizedHolds(law, s0, s', n) {
      match law
      case SizedFiles =>
      case SizedOthers =>
      case SizedBytes => FittedShorter(Flat(s0.w, n), Flat(s.w, n), Flat(s'.w, n));
    }
  }

  lemma FittedShorter(flat: seq<Byte>, a: seq<Byte>, b: seq<Byte>)
    requires |b| <= |a| <= |flat| && a == Fitted(flat, |a|) && b == a[..|b|]
    ensures b == Fitted(flat, |b|)
  {}

  lemma {:induction false} CatPrefix(bs: seq<Block>, k: nat)
    requires k <= |bs|
    ensures Cat(bs[..k]) == Cat(bs)[..k * BLK_SIZE]
    decreases |bs|
  {
    if k < |bs| {
      CatPrefix(bs[..|bs| - 1], k);
      assert bs[..|bs| - 1][..k] == bs[..k];
    } else {
      assert bs[..k] == bs;
    }
  }

  ghost predicate TruncatedLaw(law: FileLaw, s: Fs, s': Fs, n: nat, len: nat) {
    && n in s.w.inodes && n in s'.w.inodes
    && match law
       case Sound => AllFilled(s'.w) && s'.w.inodes[n].size == len && s'.w.inodes[n].blocks == BlocksFor(len)
       case Rest => OthersKept(s, s', n)
       case Bytes => Flat(s'.w, n) == Fitted(Flat(s.w, n), BlocksFor(len) * BLK_SIZE)
  }

  /** File n has `len` bytes in exactly as many blocks as that takes: blocks are cut off its end, or zero blocks added. */
  ghost predicate TruncatedTo(s: Fs, s': Fs, n: nat, len: nat) {
    forall law :: TruncatedLaw(law, s, s', n, len)
  }

  /** The file has as many blocks as its size takes. */
  ghost predicate Settled(w: World, n: nat) {
    n in w.inodes && w.inodes[n].blocks == BlocksFor(w.inodes[n].size)
  }

  lemma AlreadyThere(s: Fs, n: nat)
    requires AllFilled(s.w) && Settled(s.w, n)
    ensures TruncatedTo(s, s, n, s.w.inodes[n].size)
  {
    var len, flat := s.w.inodes[n].size, Flat(s.w, n);
    assert flat[..|flat|] == flat;
    forall law ensures TruncatedLaw(law, s, s, n, len) {
      match law
      case Sound =>
      case Rest =>
      case Bytes =>
    }
  }

  lemma ResizedTo(s0: Fs, s: Fs, n: nat, len: nat)
    requires Inv(s) && Sized(s0, s, n) && n in s0.w.inodes && n in s.w.inodes && s.w.inodes[n].blocks == BlocksFor(len)
    ensures Inv(Resized(s, n, len)) && TruncatedTo(s0, Resized(s, n, len), n, len)
  {
    assert SizedHolds(SizedFiles, s0, s, n) && SizedHolds(SizedOthers, s0, s, n) && SizedHolds(SizedBytes, s0, s, n);
    ResizeKeeps(s, n, len);
    var s' := Resized(s, n, len);
    forall law ensures TruncatedLaw(law, s0, s', n, len) {
      match law
      case Sound =>
      case Rest =>
      case Bytes =>
    }
  }

  lemma RoundedUp(len: nat)
    ensures len <= BlocksFor(len) * BLK_SIZE < len + BLK_SIZE
  {}

  /** The bytes past `len` in the last block it takes are zero. */
  ghost predicate ZeroTail(flat: seq<Byte>, len: nat) {
    forall i :: len <= i < |flat| && i < BlocksFor(len) * BLK_SIZE ==> flat[i] == 0
  }

  /** What truncation does to the bytes of any file. The last block ends in zeros afterwards exactly if it did so before,
      counted from the new end: a shrink inside a block leaves what lay behind the new end. */
  lemma TruncatedMeans(s: Fs, s': Fs, n: nat, len: nat)
    requires TruncatedTo(s, s', n, len) && Roomy(s.w, n)
    ensures AllFilled(s'.w) && OthersKept(s, s', n) && Settled(s'.w, n) && s'.w.inodes[n].size == len && Roomy(s'.w, n)
    ensures len <= s.w.inodes[n].size ==> Contents(s'.w, n) == Contents(s.w, n)[..len]
    ensures len > s.w.inodes[n].size ==> Contents(s'.w, n) == Fitted(Flat(s.w, n), len)
    ensures FileOk(s'.w, n) <==> ZeroTail(Flat(s.w, n), len)
  {
    assert TruncatedLaw(Sound, s, s', n, len) && TruncatedLaw(Rest, s, s', n, len) && TruncatedLaw(Bytes, s, s', n, len);
    RoundedUp(len);
    FittedZero(Flat(s.w, n), Flat(s'.w, n), len);
  }

  lemma FittedZero(flat: seq<Byte>, now: seq<Byte>, len: nat)
    requires now == Fitted(flat, BlocksFor(len) * BLK_SIZE) && len <= |now|
    ensures now == Grow(now[..len], |now|) <==> ZeroTail(flat, len)
    ensures now[..len] == Fitted(flat, len)
  {
    forall i | len <= i < |now| ensures now[i] == if i < |flat| then flat[i] else 0 {}
    if now == Grow(now[..len], |now|) {
      assert forall i :: len <= i < |now| ==> now[i] == Grow(now[..len], |now|)[i] == 0;
    }
  }

  /** A file whose last block ends in zeros is filled up with zeros, and stays such a file when it grows or is emptied. */
  lemma TruncatedSound(s: Fs, s': Fs, n: nat, len: nat)
    requires TruncatedTo(s, s', n, len) && n in s.w.inodes && FileOk(s.w, n)
    ensures n in s'.w.inodes && Roomy(s'.w, n) && Contents(s'.w, n) == Fitted(Contents(s.w, n), len)
    ensures len == 0 || len >= s.w.inodes[n].size ==> FileOk(s'.w, n)
  {
    TruncatedMeans(s, s', n, len);
    var c, flat := Contents(s.w, n), Flat(s.w, n);
    assert flat == Grow(c, |flat|);
    if len >= |c| {
      assert ZeroTail(flat, len);
      assert Fitted(flat, len) == Fitted(c, len);
    }
  }

  /** An extension that runs out of space leaves the blocks it got. The block count is then still the size in blocks,
      and the assertion on it in sfs_truncate_file holds, exactly if not even the next block had room. */
  lemma FailedExtension(s0: Fs, s: Fs, n: nat)
    requires Sized(s0, s, n) && Settled(s0.w, n) && n in s.w.inodes && s0.w.inodes[n].blocks <= s.w.inodes[n].blocks
    requires StuckAt(s0, n, s.w.inodes[n].blocks)
    ensures Settled(s.w, n) <==> |s0.free| < Short(s0.w, n, s0.w.inodes[n].blocks + 1)
  {
    assert SizedHolds(SizedOthers, s0, s, n);
    if s.w.inodes[n].blocks > s0.w.inodes[n].blocks {
      ShortGrows(s0.w, n, s0.w.inodes[n].blocks + 1, s.w.inodes[n].blocks);
    }
  }

  // ---- reclaiming

  ghost function NamedUpTo(disk: seq<Block>, db: nat, k: nat): set<nat> {
    set j: nat | j < k && Read(disk, db, j) != 0 :: Read(disk, db, j)
  }

  /** The blocks named in an index block. */
  ghost function Named1(disk: seq<Block>, db: nat): set<nat> {
    NamedUpTo(disk, db, N_ENTRY)
  }

  /** An index block names no block twice. */
  ghost predicate Once(disk: seq<Block>, db: nat) {
    forall i, j :: 0 <= i < j < N_ENTRY && Read(disk, db, i) != 0 ==> Read(disk, db, i) != Read(disk, db, j)
  }

  lemma NextNamed(disk: seq<Block>, db: nat, i: nat)
    requires i < N_ENTRY && Once(disk, db)
    ensures NamedUpTo(disk, db, i + 1) == NamedUpTo(disk, db, i) + if Read(disk, db, i) == 0 then {} else {Read(disk, db, i)}
    ensures Read(disk, db, i) !in NamedUpTo(disk, db, i)
    ensures Read(disk, db, i) != 0 ==> Read(disk, db, i) in Named1(disk, db)
  {}

  /** One entry of the loose index block cleared, and the block it named free. */
  ghost function Emptying(s: Fs, db: nat, i: nat): Fs
    requires db < |s.w.disk| && i < N_ENTRY
  {
    var v := Read(s.w.disk, db, i);
    if v == 0 then s.(loose := s.loose - {v}) else Released(s.(w := WithWord(s.w, db, i, 0)), v)
  }

  lemma EmptyingKeeps(s: Fs, db: nat, i: nat)
    requires Inv(s) && db in s.loose && i < N_ENTRY && db < |s.w.disk|
    requires Read(s.w.disk, db, i) != 0 ==> Read(s.w.disk, db, i) in s.loose
    ensures Inv(Emptying(s, db, i)) && db != 0 && 0 !in s.loose
    ensures Read(s.w.disk, db, i) == Word(s.w.disk[db], i)
    ensures var v := Read(s.w.disk, db, i); v != 0 ==> v < |s.w.disk| && v !in s.free
  {
    LooseRange(s, db);
    assert Holds(Parts, s);
    var v := Read(s.w.disk, db, i);
    if v != 0 {
      LooseRange(s, v);
      ClearLoose(s, db, i);
      ReleaseKeeps(s.(w := WithWord(s.w, db, i, 0)), v);
    } else {
      assert s.loose - {v} == s.loose;
    }
  }

  /** The first i entries of the loose index block db have been cleared and their blocks freed. */
  ghost predicate Emptied(s0: Fs, s: Fs, db: nat, i: nat) {
    && OnlyAt(s0, s, db) && s.reserved == s0.reserved
    && s.loose == s0.loose - NamedUpTo(s0.w.disk, db, i) && s.free == s0.free + NamedUpTo(s0.w.disk, db, i)
    && (forall j: nat :: i <= j < N_ENTRY ==> Read(s.w.disk, db, j) == Read(s0.w.disk, db, j))
    && db in s0.loose && 0 < db < |s0.w.disk| && Once(s0.w.disk, db) && Named1(s0.w.disk, db) <= s0.loose - {db} && 0 !in s0.loose
  }

  lemma EmptiedStart(s: Fs, db: nat)
    requires Inv(s) && db in s.loose && Named1(s.w.disk, db) <= s.loose - {db} && Once(s.w.disk, db)
    ensures Emptied(s, s, db, 0)
  {
    LooseRange(s, db);
    assert Holds(Parts, s);
    assert NamedUpTo(s.w.disk, db, 0) == {};
  }

  lemma EmptiedNext(s0: Fs, s: Fs, db: nat, i: nat)
    requires Emptied(s0, s, db, i) && i < N_ENTRY
    ensures db in s.loose && db < |s.w.disk|
    ensures Read(s.w.disk, db, i) != 0 ==> Read(s.w.disk, db, i) in s.loose - {db}
  {
    NextNamed(s0.w.disk, db, i);
    NamedWithin(s0.w.disk, db, i);
  }

  lemma NamedWithin(disk: seq<Block>, db: nat, i: nat)
    requires i <= N_ENTRY
    ensures NamedUpTo(disk, db, i) <= Named1(disk, db)
  {}

  lemma EmptiedStep(s0: Fs, s: Fs, db: nat, i: nat)
    requires Emptied(s0, s, db, i) && i < N_ENTRY
    ensures db < |s.w.disk| && Emptied(s0, Emptying(s, db, i), db, i + 1)
  {
    NextNamed(s0.w.disk, db, i);
    forall j: nat | i + 1 <= j < N_ENTRY ensures Read(Emptying(s, db, i).w.disk, db, j) == Read(s0.w.disk, db, j) {
      ReadWrite(s.w, db, i, 0, db, j);
    }
  }

  /** Only block b of the disk differs. */
  ghost predicate OnlyAt(s: Fs, s': Fs, b: nat) {
    && s'.w.inodes == s.w.inodes && |s'.w.disk| == |s.w.disk| && s'.owner == s.owner
    && forall c :: 0 <= c < |s.w.disk| && c != b ==> s'.w.disk[c] == s.w.disk[c]
  }

  lemma ClearLoose(s: Fs, db: nat, i: nat)
    requires Inv(s) && db in s.loose && i < N_ENTRY && db < |s.w.disk|
    ensures Inv(s.(w := WithWord(s.w, db, i, 0)))
  {
    LooseRange(s, db);
    LooseIsNotIndex(s, db);
    var w' := WithWord(s.w, db, i, 0);
    forall p ensures At(w', p) == At(s.w, p) {
      WriteFrame(s.w, db, SetWord(s.w.disk[db], i, 0), p);
    }
    assert Holds(Fields, s);
    SameKeeps(s, w');
  }

  lemma OwnedNotFree(s: Fs, n: nat)
    requires Inv(s)
    ensures OwnedBy(s, n) !! s.free
  {
    assert Holds(Parts, s);
  }

  /** What an inode without data blocks owns. */
  lemma EmptyOwns(s0: Fs, s: Fs, n: nat)
    requires Inv(s) && s.loose == {} && Sized(s0, s, n) && n in s.w.inodes && s.w.inodes[n].blocks == 0 && n != 0
    ensures var d := s.w.inodes[n];
      && OwnedBy(s, n) == {n} + (if d.indirect != 0 then {d.indirect} else {}) + (if d.db != 0 then {d.db} + Named1(s.w.disk, d.db) else {})
      && n != d.indirect && n != d.db && (d.indirect != 0 ==> d.indirect != d.db)
      && (d.db != 0 ==> Once(s.w.disk, d.db) && n !in Named1(s.w.disk, d.db) && d.indirect !in Named1(s.w.disk, d.db) && d.db !in Named1(s.w.disk, d.db))
  {
    assert SizedHolds(SizedFiles, s0, s, n);
    var d := s.w.inodes[n];
    NotAnIndex(s, n);
    forall b | b in OwnedBy(s, n)
      ensures b == n || (d.indirect != 0 && b == d.indirect) || (d.db != 0 && (b == d.db || b in Named1(s.w.disk, d.db)))
    {
      OwnedIs(s, n, b);
    }
    forall b | b == n || (d.indirect != 0 && b == d.indirect) || (d.db != 0 && (b == d.db || b in Named1(s.w.disk, d.db)))
      ensures b in OwnedBy(s, n)
    {
      IsOwned(s, n, b);
    }
  }

  lemma OwnedIs(s: Fs, n: nat, b: nat)
    requires Inv(s) && AllFilled(s.w) && n in s.w.inodes && s.w.inodes[n].blocks == 0 && b in OwnedBy(s, n)
    ensures var d := s.w.inodes[n];
      b == n || (d.indirect != 0 && b == d.indirect) || (d.db != 0 && (b == d.db || b in Named1(s.w.disk, d.db)))
  {
    assert Holds(Kept, s) && Holds(Fields, s);
    assert Filled(s.w, n);
    var p := s.owner[b];
    assert At(s.w, p) == b != 0;
    if IsData(p) {
      NoData(s, n, p);
    }
  }

  lemma NoData(s: Fs, n: nat, p: Place)
    requires Inv(s) && Filled(s.w, n) && n in s.w.inodes && s.w.inodes[n].blocks == 0 && IsData(p) && p.ino == n
    ensures At(s.w, p) == 0
  {
    assert Holds(Fields, s);
    match p
    case Direct(_, i) => if i < N_DIRECT { assert Data(n, i) == p; }
    case IndData(_, i) => if i < N_ENTRY { assert Data(n, N_DIRECT + i) == p; }
    case SecData(_, j, k) =>
      if k < N_ENTRY {
        DivMod(j, k);
        assert Data(n, N_DIRECT + N_ENTRY + N_ENTRY * j + k) == p;
      }
  }

  lemma DivMod(j: nat, k: nat)
    requires k < N_ENTRY
    ensures (N_ENTRY * j + k) / N_ENTRY == j && (N_ENTRY * j + k) % N_ENTRY == k
  {}

  lemma IsOwned(s: Fs, n: nat, b: nat)
    requires Inv(s) && n in s.w.inodes
    requires var d := s.w.inodes[n];
      b == n || (d.indirect != 0 && b == d.indirect) || (d.db != 0 && (b == d.db || b in Named1(s.w.disk, d.db)))
    ensures n != 0 ==> b in OwnedBy(s, n)
  {
    assert Holds(Named, s);
    var d := s.w.inodes[n];
    if b == n {
      assert At(s.w, Self(n)) == n;
    } else if b == d.indirect && b != 0 {
      assert At(s.w, Ind(n)) == b;
    } else if b == d.db && b != 0 {
      assert At(s.w, Db(n)) == b;
    } else {
      var j: nat :| j < N_ENTRY && Read(s.w.disk, d.db, j) != 0 && Read(s.w.disk, d.db, j) == b;
      assert At(s.w, Sec(n, j)) == b;
    }
  }

  lemma NotAnIndex(s: Fs, n: nat)
    requires Inv(s) && n in s.w.inodes
    ensures var d := s.w.inodes[n];
      && (n != 0 ==> n != d.indirect && n != d.db && (d.db != 0 ==> n !in Named1(s.w.disk, d.db)))
      && (d.indirect != 0 ==> d.indirect != d.db && (d.db != 0 ==> d.indirect !in Named1(s.w.disk, d.db)))
      && (d.db != 0 ==> Once(s.w.disk, d.db) && d.db !in Named1(s.w.disk, d.db))
  {
    assert Holds(Named, s);
    var d := s.w.inodes[n];
    assert At(s.w, Self(n)) == n && At(s.w, Ind(n)) == d.indirect && At(s.w, Db(n)) == d.db;
    assert forall j :: 0 <= j < N_ENTRY ==> At(s.w, Sec(n, j)) == Read(s.w.disk, d.db, j);
  }

  /** Files other than the reclaimed one are as they were. */
  lemma RestKept(s0: Fs, s1: Fs, s2: Fs, s3: Fs, n: nat, db: nat)
    requires Sized(s0, s1, n) && Inv(s1) && s1.loose == {} && s2 == Detached(s1, n) && Inv(s2)
    requires if db in s2.loose then OnlyAt(s2, s3, db) else s3.w == s2.w
    ensures s3.w.inodes.Keys == s0.w.inodes.Keys - {n}
    ensures forall m :: m in s3.w.inodes ==> s3.w.inodes[m].size == s0.w.inodes[m].size && Blocks(s3.w, m) == Blocks(s0.w, m)
  {
    assert SizedHolds(SizedFiles, s0, s1, n) && SizedHolds(SizedOthers, s0, s1, n);
    forall m | m in s3.w.inodes ensures Blocks(s3.w, m) == Blocks(s1.w, m) {
      KeptBlocks(s1, s2, s3, n, m, db);
    }
  }

  lemma KeptBlocks(s1: Fs, s2: Fs, s3: Fs, n: nat, m: nat, db: nat)
    requires Inv(s1) && AllFilled(s1.w) && s2 == Detached(s1, n) && Inv(s2) && m in s1.w.inodes && m != n
    requires if db in s2.loose then OnlyAt(s2, s3, db) else s3.w == s2.w
    ensures m in s3.w.inodes && Blocks(s3.w, m) == Blocks(s1.w, m)
  {
    assert Filled(s1.w, m);
    forall i: nat | i < s1.w.inodes[m].blocks ensures Content(s3.w, At(s3.w, Data(m, i))) == Content(s1.w, At(s1.w, Data(m, i))) {
      var p := Data(m, i);
      DetachPlaces(s1.w, n, p);
      if db in s2.loose {
        LooseRange(s2, db);
        LooseIsNotIndex(s2, db);
        assert s3.w.disk == s2.w.disk[db := s3.w.disk[db]];
        WriteFrame(s2.w, db, s3.w.disk[db], p);
        Range(s2, p);
      }
    }
  }

  /** Reclaiming moves no block of another file. */
  lemma RestFilled(s0: Fs, s1: Fs, s2: Fs, s3: Fs, n: nat, db: nat)
    requires Sized(s0, s1, n) && Inv(s1) && s2 == Detached(s1, n) && Inv(s2)
    requires if db in s2.loose then OnlyAt(s2, s3, db) else s3.w == s2.w
    ensures AllFilled(s3.w)
  {
    assert SizedHolds(SizedFiles, s0, s1, n);
    forall m ensures Filled(s3.w, m) {
      if m in s3.w.inodes {
        assert Filled(s1.w, m);
        forall i: nat ensures At(s3.w, Data(m, i)) == At(s1.w, Data(m, i)) {
          KeptPlace(s1, s2, s3, n, db, Data(m, i));
        }
      }
    }
  }

  lemma KeptPlace(s1: Fs, s2: Fs, s3: Fs, n: nat, db: nat, p: Place)
    requires Inv(s1) && s2 == Detached(s1, n) && Inv(s2) && p.ino != n
    requires if db in s2.loose then OnlyAt(s2, s3, db) else s3.w == s2.w
    ensures At(s3.w, p) == At(s1.w, p)
  {
    DetachPlaces(s1.w, n, p);
    if db in s2.loose {
      LooseRange(s2, db);
      LooseIsNotIndex(s2, db);
      assert s3.w.disk == s2.w.disk[db := s3.w.disk[db]];
      WriteFrame(s2.w, db, s3.w.disk[db], p);
    }
  }
}

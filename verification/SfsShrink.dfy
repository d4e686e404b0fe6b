/** Taking blocks from a file again: clearing a place and freeing the block it kept. */
module SfsShrink {
  import opened SfsDisk
  import opened SfsOwn
  import opened SfsPlaces
  import opened SfsGrow
  import opened SfsFlat

  /** Place p no longer keeps v, which is free. */
  ghost function Cut(s: Fs, w': World, v: nat): Fs {
    s.(w := w', owner := s.owner - {v}, free := s.free + {v}, unused := s.unused + 1)
  }

  lemma CutKeeps(s: Fs, w': World, p: Place, v: nat)
    requires Inv(s) && v != 0 && At(s.w, p) == v && Stores(s.w, w', p, 0)
    ensures v !in s.free && v !in s.loose && v < |s.w.disk| && Inv(Cut(s, w', v))
  {
    Range(s, p);
    UnhangKeeps(s, w', p, v);
    var s1 := s.(w := w', owner := s.owner - {v}, loose := s.loose + {v});
    ReleaseKeeps(s1, v);
    assert Released(s1, v) == Cut(s, w', v);
  }

  datatype CutLaw = CutOwns | CutCalm | CutFreed

  ghost predicate CutHolds(law: CutLaw, s: Fs, s': Fs, p: Place) {
    match law
    case CutOwns => Inv(s') && s'.loose == s.loose && s'.reserved == s.reserved
    case CutCalm => Quiet(s', s, p) && At(s'.w, p) == 0
    case CutFreed =>
      && At(s.w, p) !in s.free && s'.free == s.free + {At(s.w, p)}
      && At(s.w, p) in s.owner && s.owner[At(s.w, p)] == p && s'.owner == s.owner - {At(s.w, p)}
  }

  /** Place p has lost its block, which is free now; all other data are as they were. */
  ghost predicate WasCut(s: Fs, s': Fs, p: Place) {
    forall law :: CutHolds(law, s, s', p)
  }

  lemma CutMeans(s: Fs, s': Fs, p: Place)
    requires WasCut(s, s', p)
    ensures Inv(s') && s'.loose == s.loose && s'.reserved == s.reserved && Quiet(s', s, p) && At(s'.w, p) == 0
    ensures At(s.w, p) !in s.free && s'.free == s.free + {At(s.w, p)}
    ensures s'.free + OwnedBy(s', p.ino) == s.free + OwnedBy(s, p.ino)
  {
    assert CutHolds(CutOwns, s, s', p) && CutHolds(CutCalm, s, s', p) && CutHolds(CutFreed, s, s', p);
  }

  lemma CutQuiet(s: Fs, w': World, p: Place, v: nat)
    requires Inv(s) && v != 0 && At(s.w, p) == v && Stores(s.w, w', p, 0) && w'.inodes.Keys == s.w.inodes.Keys
    requires forall n :: n in s.w.inodes ==> w'.inodes[n].size == s.w.inodes[n].size && w'.inodes[n].blocks == s.w.inodes[n].blocks
    requires forall q :: IsData(q) && At(s.w, q) != 0 ==> Content(w', At(s.w, q)) == Content(s.w, At(s.w, q))
    ensures WasCut(s, Cut(s, w', v), p) && 0 < v < |s.w.disk| && v !in s.free
  {
    CutKeeps(s, w', p, v);
    Range(s, p);
    forall law ensures CutHolds(law, s, Cut(s, w', v), p) {
      match law
      case CutOwns =>
      case CutCalm =>
      case CutFreed =>
    }
  }

  lemma CutDirect(s: Fs, n: nat, i: nat)
    requires Inv(s) && n in s.w.inodes && i < N_DIRECT && At(s.w, Direct(n, i)) != 0
    ensures i < |s.w.inodes[n].direct|
    ensures 0 < At(s.w, Direct(n, i)) < |s.w.disk| && At(s.w, Direct(n, i)) !in s.free
    ensures WasCut(s, Cut(s, WithDirect(s.w, n, i, 0), At(s.w, Direct(n, i))), Direct(n, i))
  {
    assert Holds(Fields, s);
    DirectStores(s.w, n, i, 0);
    CutQuiet(s, WithDirect(s.w, n, i, 0), Direct(n, i), At(s.w, Direct(n, i)));
  }

  lemma CutInd(s: Fs, n: nat, i: nat)
    requires Inv(s) && At(s.w, IndData(n, i)) != 0
    ensures i < N_ENTRY && IndOf(s.w, n) < |s.w.disk|
    ensures 0 < At(s.w, IndData(n, i)) < |s.w.disk| && At(s.w, IndData(n, i)) !in s.free
    ensures WasCut(s, Cut(s, WithWord(s.w, IndOf(s.w, n), i, 0), At(s.w, IndData(n, i))), IndData(n, i))
  {
    var p := IndData(n, i);
    assert At(s.w, Ind(n)) != 0 && i < N_ENTRY;
    OwnedThrough(s, Ind(n));
    IndexWrite(s, Ind(n), i, 0);
    var w' := WithWord(s.w, IndOf(s.w, n), i, 0);
    IndWordStores(s.w, n, i, 0);
    CutQuiet(s, w', p, At(s.w, p));
  }

  lemma CutSec(s: Fs, n: nat, j: nat, i: nat)
    requires Inv(s) && At(s.w, SecData(n, j, i)) != 0
    ensures i < N_ENTRY && SecOf(s.w, n, j) < |s.w.disk|
    ensures 0 < At(s.w, SecData(n, j, i)) < |s.w.disk| && At(s.w, SecData(n, j, i)) !in s.free
    ensures WasCut(s, Cut(s, WithWord(s.w, SecOf(s.w, n, j), i, 0), At(s.w, SecData(n, j, i))), SecData(n, j, i))
  {
    var p := SecData(n, j, i);
    OwnedThrough(s, Sec(n, j));
    SecWordStores(s.w, n, j, i, 0);
    IndexWrite(s, Sec(n, j), i, 0);
    CutQuiet(s, WithWord(s.w, SecOf(s.w, n, j), i, 0), p, At(s.w, p));
  }

  /** The file without its last block. */
  ghost function Shortened(s: Fs, n: nat): Fs
    requires n in s.w.inodes && s.w.inodes[n].blocks > 0
  {
    s.(w := s.w.(inodes := s.w.inodes[n := s.w.inodes[n].(blocks := s.w.inodes[n].blocks - 1)]))
  }

  /** Places do not depend on sizes and block counts. */
  lemma PlacesByFields(w: World, w': World)
    requires w'.disk == w.disk && w'.inodes.Keys == w.inodes.Keys
    requires forall n :: n in w.inodes ==>
      w'.inodes[n].direct == w.inodes[n].direct && w'.inodes[n].indirect == w.inodes[n].indirect && w'.inodes[n].db == w.inodes[n].db
    ensures forall p :: At(w', p) == At(w, p)
  {
    forall p ensures At(w', p) == At(w, p) {
      assert forall n :: IndOf(w', n) == IndOf(w, n) && DbOf(w', n) == DbOf(w, n);
    }
  }

  lemma ShortenKeeps(s: Fs, s1: Fs, n: nat)
    requires AllFilled(s.w) && n in s.w.inodes && s.w.inodes[n].blocks > 0
    requires Inv(s1) && Quiet(s1, s, Data(n, s.w.inodes[n].blocks - 1)) && At(s1.w, Data(n, s.w.inodes[n].blocks - 1)) == 0
    ensures n in s1.w.inodes && s1.w.inodes[n].blocks == s.w.inodes[n].blocks
    ensures var s' := Shortened(s1, n);
      && Inv(s') && AllFilled(s'.w) && s'.w.inodes.Keys == s.w.inodes.Keys
      && Blocks(s'.w, n) == Blocks(s.w, n)[..s.w.inodes[n].blocks - 1]
      && (forall m :: m in s.w.inodes ==> s'.w.inodes[m].size == s.w.inodes[m].size)
      && (forall m :: m in s.w.inodes && m != n ==> Blocks(s'.w, m) == Blocks(s.w, m))
  {
    var k: nat := s.w.inodes[n].blocks - 1;
    var s' := Shortened(s1, n);
    PlacesByFields(s1.w, s'.w);
    assert Holds(Fields, s1);
    SameKeeps(s1, s'.w);
    ShortenedFiles(s, s1, n, k);
  }

  lemma ShortenedFiles(s: Fs, s1: Fs, n: nat, k: nat)
    requires AllFilled(s.w) && n in s.w.inodes && s.w.inodes[n].blocks == k + 1
    requires Quiet(s1, s, Data(n, k)) && At(s1.w, Data(n, k)) == 0
    ensures n in s1.w.inodes && s1.w.inodes[n].blocks == k + 1
    ensures var s' := Shortened(s1, n);
      && AllFilled(s'.w) && s'.w.inodes.Keys == s.w.inodes.Keys && Blocks(s'.w, n) == Blocks(s.w, n)[..k]
      && (forall m :: m in s.w.inodes && m != n ==> Blocks(s'.w, m) == Blocks(s.w, m))
  {
    var s' := Shortened(s1, n);
    PlacesByFields(s1.w, s'.w);
    forall m, i: nat | m in s.w.inodes && (m != n || i != k)
      ensures At(s'.w, Data(m, i)) == At(s.w, Data(m, i))
      ensures At(s.w, Data(m, i)) != 0 ==> Content(s'.w, At(s.w, Data(m, i))) == Content(s.w, At(s.w, Data(m, i)))
    {
      OtherData(s1, s, n, k, m, i);
    }
    forall m ensures Filled(s'.w, m) {
      assert Filled(s.w, m);
    }
    ShorterBlocks(s, s', n, k);
  }

  lemma OtherData(s1: Fs, s: Fs, n: nat, k: nat, m: nat, i: nat)
    requires Quiet(s1, s, Data(n, k)) && (m != n || i != k)
    ensures At(s1.w, Data(m, i)) == At(s.w, Data(m, i))
    ensures At(s.w, Data(m, i)) != 0 ==> Content(s1.w, At(s.w, Data(m, i))) == Content(s.w, At(s.w, Data(m, i)))
  {
    assert IsData(Data(m, i));
    if Data(m, i) == Data(n, k) {
      DataInjective(m, i, n, k);
    }
  }

  lemma ShorterBlocks(s: Fs, s': Fs, n: nat, k: nat)
    requires AllFilled(s.w) && n in s.w.inodes && s.w.inodes[n].blocks == k + 1 && s'.w.inodes.Keys == s.w.inodes.Keys
    requires s'.w.inodes[n].blocks == k && forall m :: m in s.w.inodes && m != n ==> s'.w.inodes[m].blocks == s.w.inodes[m].blocks
    requires forall m, i: nat :: m in s.w.inodes && (m != n || i != k) ==>
      At(s'.w, Data(m, i)) == At(s.w, Data(m, i)) &&
      (At(s.w, Data(m, i)) != 0 ==> Content(s'.w, At(s.w, Data(m, i))) == Content(s.w, At(s.w, Data(m, i))))
    ensures Blocks(s'.w, n) == Blocks(s.w, n)[..k]
    ensures forall m :: m in s.w.inodes && m != n ==> Blocks(s'.w, m) == Blocks(s.w, m)
  {
    assert Filled(s.w, n);
    forall m | m in s.w.inodes && m != n ensures Blocks(s'.w, m) == Blocks(s.w, m) {
      assert Filled(s.w, m);
    }
  }
}

/** Giving a file one more block, directly or through index blocks: what the steps keep. */
module SfsGrow {
  import opened SfsDisk
  import opened SfsOwn
  import opened SfsPlaces

  function Content(w: World, b: nat): Block {
    if b < |w.disk| then w.disk[b] else Zeros()
  }

  /** No file's data change, and no data place other than `p`. */
  ghost predicate Quiet(s: Fs, s': Fs, p: Place) {
    && |s'.w.disk| == |s.w.disk| && s'.w.inodes.Keys == s.w.inodes.Keys
    && (forall n :: n in s.w.inodes ==> s'.w.inodes[n].size == s.w.inodes[n].size && s'.w.inodes[n].blocks == s.w.inodes[n].blocks)
    && (forall q :: IsData(q) && (q != p || At(s.w, q) != 0) ==>
          At(s'.w, q) == At(s.w, q) && (At(s.w, q) != 0 ==> Content(s'.w, At(s.w, q)) == Content(s.w, At(s.w, q))))
  }

  lemma QuietTrans(s: Fs, s1: Fs, s2: Fs, p: Place)
    requires Quiet(s, s1, p) && Quiet(s1, s2, p)
    ensures Quiet(s, s2, p)
  {
    forall q | IsData(q) && (q != p || At(s.w, q) != 0)
      ensures At(s2.w, q) == At(s.w, q) && (At(s.w, q) != 0 ==> Content(s2.w, At(s.w, q)) == Content(s.w, At(s.w, q)))
    {
      assert At(s1.w, q) == At(s.w, q);
    }
  }

  lemma AllocQuiet(s: Fs, b: nat, p: Place)
    requires Inv(s) && b in s.free
    ensures 0 < b < |s.w.disk| && s.unused > 0 && Inv(Allocated(s, b)) && Quiet(s, Allocated(s, b), p)
    ensures Blank(Allocated(s, b).w, b) && Content(Allocated(s, b).w, b) == Zeros()
    ensures forall q :: At(Allocated(s, b).w, q) == At(s.w, q)
  {
    AllocKeeps(s, b);
    var s' := Allocated(s, b);
    forall q | At(s.w, q) != 0 ensures At(s.w, q) != b {
      Range(s, q);
    }
    forall i | 0 <= i < N_ENTRY ensures Read(s'.w.disk, b, i) == 0 {
      WordZero(i);
    }
  }

  /** A block that was allocated and released again. */
  lemma GiveBack(s: Fs, b: nat, p: Place)
    requires Inv(s) && b in s.free
    ensures b < |s.w.disk| && s.unused > 0
    ensures Inv(Released(Allocated(s, b), b)) && Quiet(s, Released(Allocated(s, b), b), p)
  {
    AllocQuiet(s, b, p);
    ReleaseKeeps(Allocated(s, b), b);
  }

  ghost function Hung(s: Fs, w': World, p: Place, v: nat): Fs {
    s.(w := w', owner := s.owner[v := p], loose := s.loose - {v})
  }

  /** Storing a fresh block in a place, when only index blocks or inode fields are written. */
  lemma HangQuiet(s: Fs, w': World, p: Place, v: nat)
    requires Inv(s) && v in s.loose && At(s.w, p) == 0 && Stores(s.w, w', p, v)
    requires w'.inodes.Keys == s.w.inodes.Keys
    requires forall n :: n in s.w.inodes ==> w'.inodes[n].size == s.w.inodes[n].size && w'.inodes[n].blocks == s.w.inodes[n].blocks
    requires forall q :: IsData(q) && At(s.w, q) != 0 ==> Content(w', At(s.w, q)) == Content(s.w, At(s.w, q))
    ensures Inv(Hung(s, w', p, v)) && (IsData(p) ==> Quiet(s, Hung(s, w', p, v), p))
    ensures forall q: Place :: !IsData(p) ==> Quiet(s, Hung(s, w', p, v), q)
  {
    HangKeeps(s, w', p, v);
  }

  /** Writing a word into an index block leaves the data alone. */
  lemma IndexWrite(s: Fs, p: Place, i: nat, v: nat)
    requires Inv(s) && !IsData(p) && At(s.w, p) != 0 && i < N_ENTRY && v < WORD
    ensures At(s.w, p) < |s.w.disk|
    ensures forall q :: IsData(q) && At(s.w, q) != 0 ==>
              Content(WithWord(s.w, At(s.w, p), i, v), At(s.w, q)) == Content(s.w, At(s.w, q))
  {
    Range(s, p);
    forall q | IsData(q) && At(s.w, q) != 0 ensures At(s.w, q) != At(s.w, p) {
      if At(s.w, q) == At(s.w, p) {
        NoSharing(s, p, q);
      }
    }
  }

  // ---- one fresh block

  lemma GrowDirect(s: Fs, n: nat, i: nat, v: nat)
    requires Inv(s) && n in s.w.inodes && i < N_DIRECT && At(s.w, Direct(n, i)) == 0 && v in s.loose
    ensures i < |s.w.inodes[n].direct|
    ensures var s' := Hung(s, WithDirect(s.w, n, i, v), Direct(n, i), v); Inv(s') && Quiet(s, s', Direct(n, i)) && Stores(s.w, s'.w, Direct(n, i), v)
  {
    assert Holds(Fields, s);
    DirectStores(s.w, n, i, v);
    HangQuiet(s, WithDirect(s.w, n, i, v), Direct(n, i), v);
  }

  lemma GrowInd(s: Fs, n: nat, i: nat, v: nat)
    requires Inv(s) && IndOf(s.w, n) != 0 && i < N_ENTRY && At(s.w, IndData(n, i)) == 0 && v in s.loose
    ensures IndOf(s.w, n) < |s.w.disk| && v < WORD
    ensures var s' := Hung(s, WithWord(s.w, IndOf(s.w, n), i, v), IndData(n, i), v);
      Inv(s') && Quiet(s, s', IndData(n, i)) && Stores(s.w, s'.w, IndData(n, i), v)
  {
    LooseRange(s, v);
    Range(s, Ind(n));
    OwnedThrough(s, Ind(n));
    IndWordStores(s.w, n, i, v);
    IndexWrite(s, Ind(n), i, v);
    HangQuiet(s, WithWord(s.w, IndOf(s.w, n), i, v), IndData(n, i), v);
  }

  lemma GrowSec(s: Fs, n: nat, j: nat, i: nat, v: nat)
    requires Inv(s) && SecOf(s.w, n, j) != 0 && i < N_ENTRY && At(s.w, SecData(n, j, i)) == 0 && v in s.loose
    ensures SecOf(s.w, n, j) < |s.w.disk| && v < WORD
    ensures var s' := Hung(s, WithWord(s.w, SecOf(s.w, n, j), i, v), SecData(n, j, i), v);
      Inv(s') && Quiet(s, s', SecData(n, j, i)) && Stores(s.w, s'.w, SecData(n, j, i), v)
  {
    LooseRange(s, v);
    Range(s, Sec(n, j));
    OwnedThrough(s, Sec(n, j));
    SecWordStores(s.w, n, j, i, v);
    IndexWrite(s, Sec(n, j), i, v);
    HangQuiet(s, WithWord(s.w, SecOf(s.w, n, j), i, v), SecData(n, j, i), v);
  }

  lemma GrowDb(s: Fs, n: nat, j: nat, v: nat, p: Place)
    requires Inv(s) && DbOf(s.w, n) != 0 && j < N_ENTRY && SecOf(s.w, n, j) == 0 && v in s.loose && Blank(s.w, v)
    ensures DbOf(s.w, n) < |s.w.disk| && v < WORD
    ensures var s' := Hung(s, WithWord(s.w, DbOf(s.w, n), j, v), Sec(n, j), v);
      Inv(s') && Quiet(s, s', p) && Stores(s.w, s'.w, Sec(n, j), v) && SecOf(s'.w, n, j) == v && Content(s'.w, v) == Content(s.w, v)
  {
    LooseRange(s, v);
    Range(s, Db(n));
    OwnedThrough(s, Db(n));
    DbWordStores(s.w, n, j, v);
    IndexWrite(s, Db(n), j, v);
    HangQuiet(s, WithWord(s.w, DbOf(s.w, n), j, v), Sec(n, j), v);
    assert At(WithWord(s.w, DbOf(s.w, n), j, v), Sec(n, j)) == v;
  }

  // ---- a fresh index block together with its first entry

  lemma HangInd(s: Fs, n: nat, a: nat, p: Place)
    requires Inv(s) && n in s.w.inodes && IndOf(s.w, n) == 0 && a in s.loose && Blank(s.w, a)
    ensures var s' := Hung(s, WithInd(s.w, n, a), Ind(n), a); Inv(s') && Quiet(s, s', p) && forall q :: q != Ind(n) ==> At(s'.w, q) == At(s.w, q)
  {
    IndStores(s.w, n, a);
    HangQuiet(s, WithInd(s.w, n, a), Ind(n), a);
  }

  lemma HangDb(s: Fs, n: nat, a: nat, p: Place)
    requires Inv(s) && n in s.w.inodes && DbOf(s.w, n) == 0 && a in s.loose && Blank(s.w, a)
    ensures var s' := Hung(s, WithDb(s.w, n, a), Db(n), a); Inv(s') && Quiet(s, s', p) && forall q :: q != Db(n) ==> At(s'.w, q) == At(s.w, q)
  {
    DbStores(s.w, n, a);
    HangQuiet(s, WithDb(s.w, n, a), Db(n), a);
  }

  /** The state after writing entry `b` into the fresh index block `a` and hanging both in. */
  ghost function HungBoth(s: Fs, w': World, p: Place, a: nat, q: Place, b: nat): Fs {
    s.(w := w', owner := s.owner[a := p][b := q], loose := s.loose - {a} - {b})
  }

  lemma GrowIndNew(s: Fs, n: nat, i: nat, a: nat, b: nat)
    requires Inv(s) && n in s.w.inodes && IndOf(s.w, n) == 0 && a in s.loose && b in s.loose && a != b && Blank(s.w, a) && i < N_ENTRY
    ensures a < |s.w.disk| && b < WORD
    ensures var s' := HungBoth(s, WithInd(WithWord(s.w, a, i, b), n, a), Ind(n), a, IndData(n, i), b);
      && Inv(s') && Quiet(s, s', IndData(n, i)) && At(s'.w, IndData(n, i)) == b && Content(s'.w, b) == Content(s.w, b)
      && forall q :: q != Ind(n) && q != IndData(n, i) ==> At(s'.w, q) == At(s.w, q)
  {
    LooseRange(s, a);
    LooseRange(s, b);
    HangInd(s, n, a, IndData(n, i));
    var s1 := Hung(s, WithInd(s.w, n, a), Ind(n), a);
    assert At(s1.w, IndData(n, i)) == At(s.w, IndData(n, i)) == 0;
    GrowInd(s1, n, i, b);
    var s2 := Hung(s1, WithWord(s1.w, a, i, b), IndData(n, i), b);
    QuietTrans(s, s1, s2, IndData(n, i));
    assert s2.w == WithInd(WithWord(s.w, a, i, b), n, a);
  }

  lemma GrowDbNew(s: Fs, n: nat, j: nat, a: nat, b: nat, p: Place)
    requires Inv(s) && n in s.w.inodes && DbOf(s.w, n) == 0 && a in s.loose && b in s.loose && a != b
    requires Blank(s.w, a) && Blank(s.w, b) && j < N_ENTRY
    ensures a < |s.w.disk| && b < WORD
    ensures var s' := HungBoth(s, WithDb(WithWord(s.w, a, j, b), n, a), Db(n), a, Sec(n, j), b);
      && Inv(s') && Quiet(s, s', p) && SecOf(s'.w, n, j) == b && Content(s'.w, b) == Content(s.w, b)
      && forall q :: q != Db(n) && q != Sec(n, j) ==> At(s'.w, q) == At(s.w, q)
  {
    LooseRange(s, a);
    LooseRange(s, b);
    HangDb(s, n, a, p);
    var s1 := Hung(s, WithDb(s.w, n, a), Db(n), a);
    assert At(s1.w, Sec(n, j)) == At(s.w, Sec(n, j)) == 0;
    GrowDb(s1, n, j, b, p);
    var s2 := Hung(s1, WithWord(s1.w, a, j, b), Sec(n, j), b);
    QuietTrans(s, s1, s2, p);
    assert s2.w == WithDb(WithWord(s.w, a, j, b), n, a);
  }
}

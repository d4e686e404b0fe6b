/** Writing a block number into an inode field or an index block changes that one place. */
module SfsPlaces {
  import opened SfsDisk
  import opened SfsOwn

  function WithDirect(w: World, n: nat, i: nat, v: nat): World
    requires n in w.inodes && i < |w.inodes[n].direct|
  {
    w.(inodes := w.inodes[n := w.inodes[n].(direct := w.inodes[n].direct[i := v])])
  }

  function WithInd(w: World, n: nat, v: nat): World
    requires n in w.inodes
  {
    w.(inodes := w.inodes[n := w.inodes[n].(indirect := v)])
  }

  function WithDb(w: World, n: nat, v: nat): World
    requires n in w.inodes
  {
    w.(inodes := w.inodes[n := w.inodes[n].(db := v)])
  }

  /** sfs_wbuf of one word. */
  function WithWord(w: World, b: nat, i: nat, v: nat): World
    requires b < |w.disk| && i < N_ENTRY && v < WORD
  {
    w.(disk := w.disk[b := SetWord(w.disk[b], i, v)])
  }

  ghost predicate Blank(w: World, b: nat) {
    forall i :: 0 <= i < N_ENTRY ==> Read(w.disk, b, i) == 0
  }

  lemma DirectStores(w: World, n: nat, i: nat, v: nat)
    requires n in w.inodes && i < |w.inodes[n].direct|
    ensures Stores(w, WithDirect(w, n, i, v), Direct(n, i), v)
  {
    var w' := WithDirect(w, n, i, v);
    forall q | q != Direct(n, i) ensures At(w', q) == At(w, q) {
      match q
      case Self(m) =>
      case Direct(m, k) =>
      case Ind(m) =>
      case IndData(m, k) => assert IndOf(w', m) == IndOf(w, m);
      case Db(m) =>
      case Sec(m, j) => assert DbOf(w', m) == DbOf(w, m);
      case SecData(m, j, k) => assert DbOf(w', m) == DbOf(w, m);
    }
  }

  /** An indirect block without entries is hung in. */
  lemma IndStores(w: World, n: nat, v: nat)
    requires n in w.inodes && IndOf(w, n) == 0 && Blank(w, v)
    ensures Stores(w, WithInd(w, n, v), Ind(n), v)
  {
    var w' := WithInd(w, n, v);
    forall q | q != Ind(n) ensures At(w', q) == At(w, q) {
      match q
      case Self(m) =>
      case Direct(m, k) =>
      case Ind(m) =>
      case IndData(m, k) => if m != n { assert IndOf(w', m) == IndOf(w, m); }
      case Db(m) =>
      case Sec(m, j) => assert DbOf(w', m) == DbOf(w, m);
      case SecData(m, j, k) => assert DbOf(w', m) == DbOf(w, m);
    }
  }

  lemma DbStores(w: World, n: nat, v: nat)
    requires n in w.inodes && DbOf(w, n) == 0 && Blank(w, v)
    ensures Stores(w, WithDb(w, n, v), Db(n), v)
  {
    var w' := WithDb(w, n, v);
    forall q | q != Db(n) ensures At(w', q) == At(w, q) {
      match q
      case Self(m) =>
      case Direct(m, k) =>
      case Ind(m) =>
      case IndData(m, k) => assert IndOf(w', m) == IndOf(w, m);
      case Db(m) =>
      case Sec(m, j) => if m != n { assert DbOf(w', m) == DbOf(w, m); }
      case SecData(m, j, k) =>
        if m == n {
          assert SecOf(w, n, j) == 0 && SecOf(w', n, j) == 0;
        } else {
          assert DbOf(w', m) == DbOf(w, m);
        }
    }
  }

  /** Block `b` is read through by exactly one place. */
  ghost predicate OnlyThrough(w: World, b: nat, p: Place) {
    && b != 0 && b < |w.disk| && At(w, p) == b
    && (forall n :: (IndOf(w, n) == b ==> p == Ind(n)) && (DbOf(w, n) == b ==> p == Db(n)))
    && (forall n, j :: SecOf(w, n, j) == b ==> p == Sec(n, j))
  }

  lemma OwnedThrough(s: Fs, p: Place)
    requires Inv(s) && At(s.w, p) != 0
    ensures OnlyThrough(s.w, At(s.w, p), p)
  {
    Range(s, p);
    var b := At(s.w, p);
    forall n ensures (IndOf(s.w, n) == b ==> p == Ind(n)) && (DbOf(s.w, n) == b ==> p == Db(n)) {
      if At(s.w, Ind(n)) == b {
        NoSharing(s, Ind(n), p);
      }
      if At(s.w, Db(n)) == b {
        NoSharing(s, Db(n), p);
      }
    }
    forall n, j ensures SecOf(s.w, n, j) == b ==> p == Sec(n, j) {
      if At(s.w, Sec(n, j)) == b {
        NoSharing(s, Sec(n, j), p);
      }
    }
  }

  lemma ReadWrite(w: World, b: nat, i: nat, v: nat, c: nat, k: nat)
    requires b != 0 && b < |w.disk| && i < N_ENTRY && v < WORD
    ensures Read(WithWord(w, b, i, v).disk, c, k) == if c == b && k == i then v else Read(w.disk, c, k)
  {
    if c == b && k < N_ENTRY {
      WordSet(w.disk[b], i, v, k);
    }
  }

  lemma IndWordStores(w: World, n: nat, i: nat, v: nat)
    requires OnlyThrough(w, IndOf(w, n), Ind(n)) && i < N_ENTRY && v < WORD
    ensures Stores(w, WithWord(w, IndOf(w, n), i, v), IndData(n, i), v)
  {
    var b := IndOf(w, n);
    var w' := WithWord(w, b, i, v);
    forall q ensures At(w', q) == if q == IndData(n, i) then v else At(w, q) {
      match q
      case Self(m) =>
      case Direct(m, k) =>
      case Ind(m) =>
      case IndData(m, k) => ReadWrite(w, b, i, v, IndOf(w, m), k);
      case Db(m) =>
      case Sec(m, j) => ReadWrite(w, b, i, v, DbOf(w, m), j);
      case SecData(m, j, k) =>
        ReadWrite(w, b, i, v, DbOf(w, m), j);
        ReadWrite(w, b, i, v, SecOf(w, m, j), k);
    }
  }

  lemma SecWordStores(w: World, n: nat, j: nat, i: nat, v: nat)
    requires OnlyThrough(w, SecOf(w, n, j), Sec(n, j)) && i < N_ENTRY && v < WORD
    ensures Stores(w, WithWord(w, SecOf(w, n, j), i, v), SecData(n, j, i), v)
  {
    var b := SecOf(w, n, j);
    var w' := WithWord(w, b, i, v);
    forall q ensures At(w', q) == if q == SecData(n, j, i) then v else At(w, q) {
      match q
      case Self(m) =>
      case Direct(m, k) =>
      case Ind(m) =>
      case IndData(m, k) => ReadWrite(w, b, i, v, IndOf(w, m), k);
      case Db(m) =>
      case Sec(m, l) => ReadWrite(w, b, i, v, DbOf(w, m), l);
      case SecData(m, l, k) =>
        ReadWrite(w, b, i, v, DbOf(w, m), l);
        ReadWrite(w, b, i, v, SecOf(w, m, l), k);
    }
  }

  /** A second-level block without entries is entered in the double-indirect block. */
  lemma DbWordStores(w: World, n: nat, i: nat, v: nat)
    requires OnlyThrough(w, DbOf(w, n), Db(n)) && i < N_ENTRY && v < WORD && SecOf(w, n, i) == 0 && Blank(w, v) && v != DbOf(w, n)
    ensures Stores(w, WithWord(w, DbOf(w, n), i, v), Sec(n, i), v)
  {
    var b := DbOf(w, n);
    var w' := WithWord(w, b, i, v);
    forall q ensures At(w', q) == if q == Sec(n, i) then v else At(w, q) {
      match q
      case Self(m) =>
      case Direct(m, k) =>
      case Ind(m) =>
      case IndData(m, k) => ReadWrite(w, b, i, v, IndOf(w, m), k);
      case Db(m) =>
      case Sec(m, l) => ReadWrite(w, b, i, v, DbOf(w, m), l);
      case SecData(m, l, k) =>
        ReadWrite(w, b, i, v, DbOf(w, m), l);
        ReadWrite(w, b, i, v, SecOf(w, m, l), k);
        ReadWrite(w, b, i, v, v, k);
    }
  }
}

/** What a file takes from the disk: its data blocks and the index blocks they are reached through. */
module SfsCost {
  import opened SfsDisk
  import opened SfsOwn

  const L1_BLOCKS: nat := N_DIRECT + N_ENTRY

  /** The size in blocks, rounded up. */
  function BlocksFor(len: nat): nat {
    (len + BLK_SIZE - 1) / BLK_SIZE
  }

  function Bit(b: bool): nat {
    if b then 1 else 0
  }

  /** Index blocks on the way to a data place that are not there. */
  function MissingAt(w: World, p: Place): nat {
    match p
    case IndData(n, _) => Bit(IndOf(w, n) == 0)
    case SecData(n, j, _) => Bit(DbOf(w, n) == 0) + Bit(SecOf(w, n, j) == 0)
    case _ => 0
  }

  /** From w to w' the index blocks on the way to p have been made, and no other index block of the file. */
  ghost predicate ReachedAt(w: World, w': World, p: Place) {
    match p
    case IndData(n, _) => IndOf(w', n) != 0 && DbOf(w', n) == DbOf(w, n) && forall i: nat :: SecOf(w', n, i) == SecOf(w, n, i)
    case SecData(n, j, _) =>
      && IndOf(w', n) == IndOf(w, n) && DbOf(w', n) != 0 && SecOf(w', n, j) != 0
      && forall i: nat :: i != j ==> SecOf(w', n, i) == SecOf(w, n, i)
    case _ =>
      IndOf(w', p.ino) == IndOf(w, p.ino) && DbOf(w', p.ino) == DbOf(w, p.ino)
      && forall i: nat :: SecOf(w', p.ino, i) == SecOf(w, p.ino, i)
  }

  /** Second-level blocks of a file of t blocks. */
  function Seconds(t: nat): nat {
    if t <= L1_BLOCKS then 0 else (t - L1_BLOCKS + N_ENTRY - 1) / N_ENTRY
  }

  /** How many of the first c second-level blocks are not there. */
  function MissingSecs(w: World, n: nat, c: nat): nat {
    if c == 0 then 0 else MissingSecs(w, n, c - 1) + Bit(SecOf(w, n, c - 1) == 0)
  }

  function MissingUpTo(w: World, n: nat, t: nat): nat {
    Bit(t > N_DIRECT && IndOf(w, n) == 0) + Bit(t > L1_BLOCKS && DbOf(w, n) == 0) + MissingSecs(w, n, Seconds(t))
  }

  /** The blocks file n lacks to have t blocks. */
  function Short(w: World, n: nat, t: nat): nat
    requires n in w.inodes
  {
    (if t > w.inodes[n].blocks then t - w.inodes[n].blocks else 0) + MissingUpTo(w, n, t)
  }

  lemma {:induction false} SecsSame(w: World, w': World, n: nat, c: nat)
    requires forall i: nat :: SecOf(w', n, i) == SecOf(w, n, i)
    ensures MissingSecs(w', n, c) == MissingSecs(w, n, c)
  {
    if c > 0 {
      SecsSame(w, w', n, c - 1);
      assert SecOf(w', n, c - 1) == SecOf(w, n, c - 1);
    }
  }

  lemma {:induction false} SecsMade(w: World, w': World, n: nat, j: nat, c: nat)
    requires SecOf(w', n, j) != 0 && forall i: nat :: i != j ==> SecOf(w', n, i) == SecOf(w, n, i)
    ensures MissingSecs(w, n, c) == MissingSecs(w', n, c) + Bit(j < c && SecOf(w, n, j) == 0)
  {
    if c > 0 {
      SecsMade(w, w', n, j, c - 1);
      assert c - 1 != j ==> SecOf(w', n, c - 1) == SecOf(w, n, c - 1);
    }
  }

  /** Block k of a file of more than k blocks is under one of its second-level blocks. */
  lemma UnderSeconds(k: nat, t: nat)
    requires L1_BLOCKS <= k < t
    ensures (k - L1_BLOCKS) / N_ENTRY < Seconds(t)
  {
  }

  /** Adding the next block brings the file nearer to t blocks by what the block took. */
  lemma ShortStep(w: World, w': World, n: nat, t: nat)
    requires n in w.inodes && n in w'.inodes && w'.inodes[n].blocks == w.inodes[n].blocks + 1 <= t
    requires ReachedAt(w, w', Data(n, w.inodes[n].blocks))
    ensures Short(w, n, t) == Short(w', n, t) + 1 + MissingAt(w, Data(n, w.inodes[n].blocks))
  {
    var k := w.inodes[n].blocks;
    if k < L1_BLOCKS {
      SecsSame(w, w', n, Seconds(t));
    } else {
      var j: nat := (k - L1_BLOCKS) / N_ENTRY;
      UnderSeconds(k, t);
      SecsMade(w, w', n, j, Seconds(t));
    }
  }

  lemma {:induction false} SecsCount(w: World, n: nat, j: nat, c: nat)
    requires j < c
    ensures MissingSecs(w, n, c) >= Bit(SecOf(w, n, j) == 0)
  {
    if j < c - 1 {
      SecsCount(w, n, j, c - 1);
    }
  }

  /** A file lacks nothing of what it has. */
  lemma NothingShort(w: World, n: nat, t: nat)
    requires n in w.inodes && Filled(w, n) && t <= w.inodes[n].blocks
    ensures Short(w, n, t) == 0
  {
    if t > N_DIRECT {
      assert At(w, Data(n, N_DIRECT)) != 0;
    }
    if t > L1_BLOCKS {
      assert At(w, Data(n, L1_BLOCKS)) != 0;
      SecsThere(w, n, t, Seconds(t));
    }
  }

  lemma {:induction false} SecsThere(w: World, n: nat, t: nat, c: nat)
    requires n in w.inodes && Filled(w, n) && t <= w.inodes[n].blocks && c <= Seconds(t)
    ensures MissingSecs(w, n, c) == 0
  {
    if c > 0 {
      SecsThere(w, n, t, c - 1);
      SecondStart(t, c - 1);
      assert At(w, Data(n, L1_BLOCKS + N_ENTRY * (c - 1))) != 0;
    }
  }

  lemma SecondStart(t: nat, j: nat)
    requires j < Seconds(t)
    ensures L1_BLOCKS + N_ENTRY * j < t && (N_ENTRY * j) / N_ENTRY == j && (N_ENTRY * j) % N_ENTRY == 0
  {
  }

  lemma {:induction false} SecsGrow(w: World, n: nat, c: nat, d: nat)
    requires c <= d
    ensures MissingSecs(w, n, c) <= MissingSecs(w, n, d)
  {
    if c < d {
      SecsGrow(w, n, c, d - 1);
    }
  }

  lemma ShortGrows(w: World, n: nat, t: nat, u: nat)
    requires n in w.inodes && t <= u
    ensures Short(w, n, t) <= Short(w, n, u)
  {
    SecsGrow(w, n, Seconds(t), Seconds(u));
  }

  /** Worlds with the same index places and the same count lack the same. */
  lemma ShortSame(w: World, w': World, n: nat, t: nat)
    requires n in w.inodes && n in w'.inodes && w'.inodes[n].blocks == w.inodes[n].blocks
    requires forall p :: At(w', p) == At(w, p)
    ensures Short(w', n, t) == Short(w, n, t)
  {
    assert At(w', Ind(n)) == At(w, Ind(n)) && At(w', Db(n)) == At(w, Db(n));
    forall i: nat
      ensures SecOf(w', n, i) == SecOf(w, n, i)
    {
      assert At(w', Sec(n, i)) == At(w, Sec(n, i));
    }
    SecsSame(w, w', n, Seconds(t));
  }

  /** A file of k blocks is one block short of k + 1, and the index blocks that one needs. */
  lemma ShortOne(w: World, n: nat)
    requires n in w.inodes && Filled(w, n)
    ensures Short(w, n, w.inodes[n].blocks + 1) == 1 + MissingAt(w, Data(n, w.inodes[n].blocks))
  {
    var k := w.inodes[n].blocks;
    NothingShort(w, n, k);
    if k >= L1_BLOCKS {
      OneSecond(k);
    }
  }

  lemma OneSecond(k: nat)
    requires k >= L1_BLOCKS
    ensures var j := (k - L1_BLOCKS) / N_ENTRY;
      Seconds(k + 1) == j + 1 && (Seconds(k) == j || (Seconds(k) == j + 1 && k > L1_BLOCKS + N_ENTRY * j))
  {
  }

  /** Index places other than the two given ones are unchanged. */
  lemma IndexPlaces(w: World, w': World, n: nat, p: Place, d: Place)
    requires IsData(d) && forall q :: q != p && q != d ==> At(w', q) == At(w, q)
    ensures p != Ind(n) ==> IndOf(w', n) == IndOf(w, n)
    ensures p != Db(n) ==> DbOf(w', n) == DbOf(w, n)
    ensures forall i: nat :: p != Sec(n, i) ==> SecOf(w', n, i) == SecOf(w, n, i)
  {
    assert p != Ind(n) ==> At(w', Ind(n)) == At(w, Ind(n));
    assert p != Db(n) ==> At(w', Db(n)) == At(w, Db(n));
    forall i: nat | p != Sec(n, i)
      ensures SecOf(w', n, i) == SecOf(w, n, i)
    {
      assert At(w', Sec(n, i)) == At(w, Sec(n, i));
    }
  }
}

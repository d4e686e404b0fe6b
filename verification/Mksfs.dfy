/** tools/mksfs.c: the image writer. A cached block stands at the block number it will be written to. */
module Mksfs {
  import opened Lists
  import opened SfsDisk
  import opened SfsBitmap
  import opened SfsOwn
  import opened SfsPlaces
  import opened SfsGrow
  import opened SfsFlat
  import opened SfsLaws
  import opened SfsCost
  import opened MksfsLaws
  import SfsFs

  const MAX_NBLKS: nat := 1024 * 512
  const BLK_BITS: nat := 32768
  const BLKN_ROOT: nat := 1
  const BLKN_FREEMAP: nat := 2

  class Image {
    const ninos: nat
    var nextIno: nat
    var unused: nat
    var blocks: seq<Block>
    var inodes: map<nat, Inode>
    var ptrs: map<nat, Pointers>
    ghost const reserved: set<nat>
    ghost var owner: map<nat, Place>
    ghost var loose: set<nat>

    ghost function St(): Fs
      reads this
    {
      Fs(World(blocks, inodes), Left(nextIno, ninos), unused, owner, loose, reserved)
    }

    ghost predicate Base()
      reads this
    {
      ptrs.Keys == inodes.Keys && BaseOk(St(), nextIno, ninos)
    }

    ghost predicate Valid()
      reads this
    {
      ImageOk(St(), ptrs, nextIno, ninos)
    }

    /** sfs_alloc_ino; false is its out of disk space. */
    method AllocIno() returns (ok: bool, b: nat)
      requires Base()
      modifies this`nextIno, this`unused, this`loose
      ensures Base() && (ok <==> old(nextIno) < ninos)
      ensures ok ==> b == old(nextIno) && nextIno == b + 1 && b in old(St()).free
      ensures ok ==> old(unused) > 0 && St() == TakenBy(old(St()), b)
      ensures !ok ==> St() == old(St()) && nextIno == old(nextIno)
    {
      BaseIs(St(), nextIno, ninos);
      if nextIno >= ninos {
        return false, 0;
      }
      TakeKeeps(St(), nextIno);
      assert Left(nextIno, ninos) - {nextIno} == Left(nextIno + 1, ninos);
      unused := unused - 1;
      b := nextIno;
      nextIno := nextIno + 1;
      loose := loose + {b};
      ok := true;
      BaseIs(St(), nextIno, ninos);
    }

    /** alloc_cache_block: a fresh index block. */
    method AllocCacheBlock() returns (ok: bool, a: nat)
      requires Base()
      modifies this`nextIno, this`unused, this`loose, this`blocks
      ensures Base() && (ok <==> old(nextIno) < ninos)
      ensures ok ==> a in old(St()).free && a < |old(blocks)| && old(unused) > 0 && St() == Allocated(old(St()), a)
      ensures ok ==> nextIno == old(nextIno) + 1
      ensures !ok ==> St() == old(St())
    {
      ghost var s := St();
      BaseIs(St(), nextIno, ninos);
      ok, a := AllocIno();
      if ok {
        TakeKeeps(s, a);
        AllocKeeps(s, a);
        blocks := blocks[a := Zeros()];
        assert St() == Allocated(s, a);
        BaseIs(St(), nextIno, ninos);
      }
    }

    /** update_cache on the indirect block. An existing block is the one l1 points to, so there is none to search for. */
    method UpdateInd(n: nat, ghost d: Place) returns (ok: bool)
      requires Base() && n in inodes && (inodes[n].indirect != 0 ==> ptrs[n].l1 == inodes[n].indirect)
      modifies this
      ensures Base() && (ok <==> old(inodes)[n].indirect != 0 || old(nextIno) < ninos)
      ensures ok ==> Indexed(old(St()), St(), Ind(n), d) && inodes == old(inodes)[n := old(inodes)[n].(indirect := ptrs[n].l1)]
      ensures ok ==> ptrs[n].l1 != 0 && ptrs == old(ptrs)[n := old(ptrs)[n].(l1 := ptrs[n].l1)]
      ensures ok ==> nextIno == old(nextIno) + if old(inodes)[n].indirect == 0 then 1 else 0
    {
      ghost var s := St();
      BaseIs(St(), nextIno, ninos);
      if inodes[n].indirect == 0 {
        var a;
        ok, a := AllocCacheBlock();
        if ok {
          NewInd(s, n, a, d);
          inodes := inodes[n := inodes[n].(indirect := a)];
          ptrs := ptrs[n := ptrs[n].(l1 := a)];
          owner, loose := owner[a := Ind(n)], loose - {a};
          BaseIs(St(), nextIno, ninos);
        }
      } else {
        ok := true;
        assert inodes == inodes[n := inodes[n].(indirect := ptrs[n].l1)];
        assert ptrs == ptrs[n := ptrs[n].(l1 := ptrs[n].l1)];
      }
    }

    /** update_cache on the double-indirect block. */
    method UpdateDb(n: nat, ghost d: Place) returns (ok: bool)
      requires Base() && n in inodes && (inodes[n].db != 0 ==> ptrs[n].l2 == inodes[n].db)
      modifies this
      ensures Base() && (ok <==> old(inodes)[n].db != 0 || old(nextIno) < ninos)
      ensures ok ==> Indexed(old(St()), St(), Db(n), d) && inodes == old(inodes)[n := old(inodes)[n].(db := ptrs[n].l2)]
      ensures ok ==> ptrs[n].l2 != 0 && ptrs == old(ptrs)[n := old(ptrs)[n].(l2 := ptrs[n].l2)]
      ensures ok ==> nextIno == old(nextIno) + if old(inodes)[n].db == 0 then 1 else 0
    {
      ghost var s := St();
      BaseIs(St(), nextIno, ninos);
      if inodes[n].db == 0 {
        var a;
        ok, a := AllocCacheBlock();
        if ok {
          NewDb(s, n, a, d);
          inodes := inodes[n := inodes[n].(db := a)];
          ptrs := ptrs[n := ptrs[n].(l2 := a)];
          owner, loose := owner[a := Db(n)], loose - {a};
          BaseIs(St(), nextIno, ninos);
        }
      } else {
        ok := true;
        assert inodes == inodes[n := inodes[n].(db := ptrs[n].l2)];
        assert ptrs == ptrs[n := ptrs[n].(l2 := ptrs[n].l2)];
      }
    }

    /** update_cache on entry j of the double-indirect block, which l2 points to. */
    method UpdateSec(n: nat, j: nat, ghost d: Place) returns (ok: bool)
      requires Base() && n in inodes && j < N_ENTRY && inodes[n].db != 0 && ptrs[n].l2 == inodes[n].db
      requires SecOf(St().w, n, j) != 0 ==> ptrs[n].l1 == SecOf(St().w, n, j)
      modifies this
      ensures Base() && (ok <==> SecOf(old(St()).w, n, j) != 0 || old(nextIno) < ninos)
      ensures ok ==> Indexed(old(St()), St(), Sec(n, j), d) && inodes == old(inodes)
      ensures ok ==> ptrs[n].l1 == SecOf(St().w, n, j) != 0 && ptrs == old(ptrs)[n := old(ptrs)[n].(l1 := ptrs[n].l1)]
      ensures ok ==> nextIno == old(nextIno) + if SecOf(old(St()).w, n, j) == 0 then 1 else 0
    {
      ghost var s := St();
      BaseIs(St(), nextIno, ninos);
      Range(s, Db(n));
      var l2 := ptrs[n].l2;
      if Word(blocks[l2], j) == 0 {
        var a;
        ok, a := AllocCacheBlock();
        if ok {
          NewSec(s, n, j, a, d);
          blocks := blocks[l2 := SetWord(blocks[l2], j, a)];
          ptrs := ptrs[n := ptrs[n].(l1 := a)];
          owner, loose := owner[a := Sec(n, j)], loose - {a};
          SecIs(s, n, j, a);
          BaseIs(St(), nextIno, ninos);
        }
      } else {
        ok := true;
        assert ptrs == ptrs[n := ptrs[n].(l1 := ptrs[n].l1)];
      }
    }

    // ---- __append_block, by the kind of index

    method AppendDirect(n: nat, b: nat)
      requires Base() && n in inodes && inodes[n].blocks < N_DIRECT && b in loose && At(St().w, Direct(n, inodes[n].blocks)) == 0
      modifies this
      ensures Base() && Ended(old(St()), St(), n, b)
      ensures inodes.Keys == old(inodes.Keys) && ptrs == old(ptrs) && nextIno == old(nextIno)
    {
      ghost var s := St();
      BaseIs(St(), nextIno, ninos);
      var k := inodes[n].blocks;
      EnterDirect(s, n, k, b);
      inodes := inodes[n := inodes[n].(direct := inodes[n].direct[k := b])];
      owner, loose := owner[b := Direct(n, k)], loose - {b};
      EndDirect(s, St(), n, b);
      BaseIs(St(), nextIno, ninos);
    }

    method AppendSingle(n: nat, b: nat) returns (ok: bool)
      requires Base() && n in inodes && N_DIRECT <= inodes[n].blocks < L1_BLOCKS && b in loose
      requires At(St().w, Data(n, inodes[n].blocks)) == 0 && Held(St().w, n, ptrs[n].l1, ptrs[n].l2)
      modifies this
      ensures Base() && (ok <==> MissingAt(old(St()).w, Data(n, old(inodes)[n].blocks)) <= ninos - old(nextIno))
      ensures ok ==> Ended(old(St()), St(), n, b) && inodes.Keys == old(inodes.Keys)
      ensures ok ==> Aimed(St().w, n, old(inodes)[n].blocks, ptrs[n]) && ptrs == old(ptrs)[n := ptrs[n]]
      ensures ok ==> nextIno == old(nextIno) + MissingAt(old(St()).w, Data(n, old(inodes)[n].blocks))
    {
      ok := AppendInd(n, inodes[n].blocks - N_DIRECT, b);
    }

    method AppendInd(n: nat, i: nat, b: nat) returns (ok: bool)
      requires Base() && n in inodes && b in loose && i < N_ENTRY
      requires Data(n, inodes[n].blocks) == IndData(n, i) && At(St().w, IndData(n, i)) == 0
      requires inodes[n].indirect != 0 ==> ptrs[n].l1 == inodes[n].indirect
      modifies this
      ensures Base()
      ensures var need := Bit(old(inodes)[n].indirect == 0); (ok <==> need <= ninos - old(nextIno)) && (ok ==> nextIno == old(nextIno) + need)
      ensures ok ==> Ended(old(St()), St(), n, b) && inodes.Keys == old(inodes.Keys) && ptrs == old(ptrs)[n := ptrs[n]]
      ensures ok ==> ptrs[n].l1 == IndOf(St().w, n) != 0
    {
      ghost var s := St();
      assert nextIno <= ninos by {
        BaseIs(s, nextIno, ninos);
      }
      ok := UpdateInd(n, IndData(n, i));
      if ok {
        ghost var s1 := St();
        DataKept(s, s1, Ind(n), IndData(n, i));
        StoreInd(n, i, b);
        EndInd(s, s1, St(), n, IndData(n, i), b);
      }
    }

    method StoreInd(n: nat, i: nat, b: nat)
      requires Base() && n in inodes && i < N_ENTRY && b in loose && At(St().w, IndData(n, i)) == 0
      requires ptrs[n].l1 == IndOf(St().w, n) != 0
      modifies this`blocks, this`owner, this`loose
      ensures Base() && Stored(old(St()), St(), IndData(n, i), b)
    {
      BaseIs(St(), nextIno, ninos);
      EnterInd(St(), n, i, b);
      var l1 := ptrs[n].l1;
      blocks := blocks[l1 := SetWord(blocks[l1], i, b)];
      owner, loose := owner[b := IndData(n, i)], loose - {b};
      BaseIs(St(), nextIno, ninos);
    }

    method AppendSec(n: nat, j: nat, i: nat, b: nat) returns (ok: bool)
      requires Base() && n in inodes && b in loose && j < N_ENTRY && i < N_ENTRY
      requires Data(n, inodes[n].blocks) == SecData(n, j, i) && At(St().w, SecData(n, j, i)) == 0
      requires inodes[n].db != 0 ==> ptrs[n].l2 == inodes[n].db
      requires SecOf(St().w, n, j) != 0 ==> ptrs[n].l1 == SecOf(St().w, n, j)
      modifies this
      ensures Base()
      ensures var need := Bit(old(inodes)[n].db == 0) + Bit(SecOf(old(St()).w, n, j) == 0);
        (ok <==> need <= ninos - old(nextIno)) && (ok ==> nextIno == old(nextIno) + need)
      ensures ok ==> Ended(old(St()), St(), n, b) && inodes.Keys == old(inodes.Keys) && ptrs == old(ptrs)[n := ptrs[n]]
      ensures ok ==> ptrs[n].l2 == DbOf(St().w, n) && ptrs[n].l1 == SecOf(St().w, n, j) != 0
    {
      ghost var mid;
      ok, mid := StoreUnder(n, j, i, b);
      if ok {
        EndSec(old(St()), mid, St(), n, j, SecData(n, j, i), b);
      }
    }

    method AppendDouble(n: nat, b: nat) returns (ok: bool)
      requires Base() && n in inodes && L1_BLOCKS <= inodes[n].blocks < MAX_BLOCKS && b in loose
      requires At(St().w, Data(n, inodes[n].blocks)) == 0 && Held(St().w, n, ptrs[n].l1, ptrs[n].l2)
      modifies this
      ensures Base() && (ok <==> MissingAt(old(St()).w, Data(n, old(inodes)[n].blocks)) <= ninos - old(nextIno))
      ensures ok ==> Ended(old(St()), St(), n, b) && inodes.Keys == old(inodes.Keys)
      ensures ok ==> Aimed(St().w, n, old(inodes)[n].blocks, ptrs[n]) && ptrs == old(ptrs)[n := ptrs[n]]
      ensures ok ==> nextIno == old(nextIno) + MissingAt(old(St()).w, Data(n, old(inodes)[n].blocks))
    {
      var k := inodes[n].blocks;
      var j, i := (k - L1_BLOCKS) / N_ENTRY, (k - L1_BLOCKS) % N_ENTRY;
      SecondPlace(St().w, n, k, j, i);
      ok := AppendSec(n, j, i, b);
      if ok {
        AimedSec(St().w, n, k, j, ptrs[n]);
      }
    }

    method StoreUnder(n: nat, j: nat, i: nat, b: nat) returns (ok: bool, ghost mid: Fs)
      requires Base() && n in inodes && j < N_ENTRY && i < N_ENTRY && b in loose && At(St().w, SecData(n, j, i)) == 0
      requires inodes[n].db != 0 ==> ptrs[n].l2 == inodes[n].db
      requires SecOf(St().w, n, j) != 0 ==> ptrs[n].l1 == SecOf(St().w, n, j)
      modifies this
      ensures Base()
      ensures var need := Bit(old(inodes)[n].db == 0) + Bit(SecOf(old(St()).w, n, j) == 0);
        (ok <==> need <= ninos - old(nextIno)) && (ok ==> nextIno == old(nextIno) + need)
      ensures ok ==> Prepared(old(St()), mid, n, j, SecData(n, j, i)) && Stored(mid, St(), SecData(n, j, i), b)
      ensures ok ==> inodes == old(inodes)[n := old(inodes)[n].(db := inodes[n].db)] && ptrs == old(ptrs)[n := ptrs[n]]
      ensures ok ==> ptrs[n].l2 == DbOf(mid.w, n) && ptrs[n].l1 == SecOf(mid.w, n, j) != 0
    {
      ok := UpdateBoth(n, j, SecData(n, j, i));
      mid := St();
      if ok {
        PreparedData(old(St()), mid, n, j, SecData(n, j, i));
        StoreSec(n, j, i, b);
      }
    }

    /** The two calls of update_cache for a second-level block. */
    method UpdateBoth(n: nat, j: nat, ghost d: Place) returns (ok: bool)
      requires Base() && n in inodes && j < N_ENTRY && (inodes[n].db != 0 ==> ptrs[n].l2 == inodes[n].db)
      requires SecOf(St().w, n, j) != 0 ==> ptrs[n].l1 == SecOf(St().w, n, j)
      modifies this
      ensures Base()
      ensures var need := Bit(old(inodes)[n].db == 0) + Bit(SecOf(old(St()).w, n, j) == 0);
        (ok <==> need <= ninos - old(nextIno)) && (ok ==> nextIno == old(nextIno) + need)
      ensures ok ==> Prepared(old(St()), St(), n, j, d)
      ensures ok ==> inodes == old(inodes)[n := old(inodes)[n].(db := inodes[n].db)] && ptrs == old(ptrs)[n := ptrs[n]]
      ensures ok ==> ptrs[n].l2 == DbOf(St().w, n) && ptrs[n].l1 == SecOf(St().w, n, j) != 0
    {
      ghost var s, was := St(), ptrs;
      assert nextIno <= ninos by {
        BaseIs(s, nextIno, ninos);
      }
      ok := UpdateDb(n, d);
      ghost var mid := St();
      if ok {
        SecsKept(s, mid, n, j, d);
        ok := UpdateSec(n, j, d);
        assert ok ==> ptrs == was[n := ptrs[n]];
      }
    }

    method StoreSec(n: nat, j: nat, i: nat, b: nat)
      requires Base() && n in inodes && i < N_ENTRY && b in loose && At(St().w, SecData(n, j, i)) == 0
      requires ptrs[n].l1 == SecOf(St().w, n, j) != 0
      modifies this`blocks, this`owner, this`loose
      ensures Base() && Stored(old(St()), St(), SecData(n, j, i), b)
    {
      BaseIs(St(), nextIno, ninos);
      EnterSec(St(), n, j, i, b);
      var l1 := ptrs[n].l1;
      blocks := blocks[l1 := SetWord(blocks[l1], i, b)];
      owner, loose := owner[b := SecData(n, j, i)], loose - {b};
      BaseIs(St(), nextIno, ninos);
    }

    /** __append_block with the size its callers set; false is one of the two fatal errors, and when they strike is exact. */
    method AppendBlock(n: nat, b: nat, size: nat) returns (ok: bool)
      requires Valid() && n in inodes && b in loose
      modifies this
      ensures ok <==> old(inodes)[n].blocks < MAX_BLOCKS && MissingAt(old(St()).w, Data(n, old(inodes)[n].blocks)) <= ninos - old(nextIno)
      ensures ok ==> Valid() && loose == old(loose) - {b} && Appended(old(St()), St(), n, b, size)
      ensures ok ==> nextIno == old(nextIno) + MissingAt(old(St()).w, Data(n, old(inodes)[n].blocks))
    {
      ghost var s := St();
      ghost var was := ptrs;
      ImageIs(s, was, nextIno, ninos);
      BaseIs(St(), nextIno, ninos);
      if inodes[n].blocks >= MAX_BLOCKS {
        return false;
      }
      ok := StoreNext(n, b);
      if ok {
        BaseIs(St(), nextIno, ninos);
        FinishAppend(s, St(), n, b, size, was, ptrs[n]);
        CountBlock(n, size);
        ImageIs(St(), ptrs, nextIno, ninos);
      }
    }

    method CountBlock(n: nat, size: nat)
      requires n in inodes
      modifies this`inodes
      ensures St() == Longer(old(St()), n, size) && inodes.Keys == old(inodes.Keys)
    {
      inodes := inodes[n := inodes[n].(blocks := inodes[n].blocks + 1, size := size)];
    }

    method StoreNext(n: nat, b: nat) returns (ok: bool)
      requires Base() && AllFilled(St().w) && Pointed(St().w, ptrs) && n in inodes && b in loose && inodes[n].blocks < MAX_BLOCKS
      modifies this
      ensures Base() && (ok <==> MissingAt(old(St()).w, Data(n, old(inodes)[n].blocks)) <= ninos - old(nextIno))
      ensures ok ==> Ended(old(St()), St(), n, b) && inodes.Keys == old(inodes.Keys) && ptrs == old(ptrs)[n := ptrs[n]]
      ensures ok ==> nextIno == old(nextIno) + MissingAt(old(St()).w, Data(n, old(inodes)[n].blocks))
      ensures ok ==> Aimed(St().w, n, old(inodes)[n].blocks, ptrs[n])
    {
      BaseIs(St(), nextIno, ninos);
      PointersHold(St().w, n, ptrs[n].l1, ptrs[n].l2);
      assert Filled(St().w, n);
      assert At(St().w, Data(n, inodes[n].blocks)) == 0;
      if inodes[n].blocks < N_DIRECT {
        AppendDirect(n, b);
        ok := true;
      } else if inodes[n].blocks < L1_BLOCKS {
        ok := AppendSingle(n, b);
      } else {
        ok := AppendDouble(n, b);
      }
    }

    /** Appending b0, b1, ...: the kernel's block map finds b_i at index i. It fails exactly when the file is too big or the
        blocks that index it do not fit. */
    method AppendAll(n: nat, bs: seq<nat>) returns (ok: bool)
      requires Valid() && n in inodes && inodes[n].blocks == 0 && Distinct(bs) && forall b :: b in bs ==> b in loose
      modifies this
      ensures ok <==> |bs| <= MAX_BLOCKS && old(nextIno) + IndexBlocks(|bs|) <= ninos
      ensures ok ==> Valid() && n in inodes && inodes[n].blocks == |bs|
      ensures ok ==> forall i: nat :: i < |bs| ==> At(St().w, Data(n, i)) == bs[i]
    {
      var k := 0;
      assert ImageIn(ImageSize, St(), ptrs, nextIno, ninos);
      while k < |bs|
        invariant 0 <= k <= |bs| && Valid() && n in inodes && Numbers(St().w, n) == bs[..k]
        invariant forall i :: k <= i < |bs| ==> bs[i] in loose
        invariant k <= MAX_BLOCKS && nextIno == old(nextIno) + IndexBlocks(k) <= ninos
      {
        IndexGrows(k + 1, |bs|);
        ok := AppendNext(n, bs[k]);
        if !ok {
          return;
        }
        k := k + 1;
      }
      ok := true;
    }

    method AppendNext(n: nat, b: nat) returns (ok: bool)
      requires Valid() && n in inodes && b in loose
      modifies this
      ensures var k := old(inodes)[n].blocks; ok <==> k < MAX_BLOCKS && IndexBlocks(k + 1) - IndexBlocks(k) <= ninos - old(nextIno)
      ensures ok ==> Valid() && n in inodes && loose == old(loose) - {b} && Numbers(St().w, n) == Numbers(old(St()).w, n) + [b]
      ensures ok ==> var k := old(inodes)[n].blocks; nextIno == old(nextIno) + IndexBlocks(k + 1) - IndexBlocks(k)
    {
      ghost var s := St();
      NeedIs(s, n, ptrs, nextIno, ninos);
      ok := AppendBlock(n, b, inodes[n].size);
      if ok {
        AppendedNumbers(s, St(), n, b, s.w.inodes[n].size);
      }
    }

    // ---- files

    /** alloc_cache_inode with a new number. */
    method NewFile() returns (ok: bool, n: nat)
      requires Valid() && loose == {}
      modifies this
      ensures Valid() && (ok <==> old(nextIno) < ninos) && loose == {}
      ensures ok ==> n !in old(inodes) && inodes == old(inodes)[n := EmptyInode()] && nextIno == old(nextIno) + 1
      ensures !ok ==> St() == old(St())
    {
      ghost var s := St();
      ImageIs(s, ptrs, nextIno, ninos);
      BaseIs(St(), nextIno, ninos);
      ok, n := AllocIno();
      if ok {
        BaseIs(St(), nextIno, ninos);
        SamePlaces(s, St(), ptrs);
        NewInodeKeeps(St(), n, ptrs);
        inodes := inodes[n := EmptyInode()];
        ptrs := ptrs[n := Pointers(0, 0)];
        owner, loose := owner[n := Self(n)], loose - {n};
        ImageIs(St(), ptrs, nextIno, ninos);
      }
    }

    /** sfs_alloc_ino and write_block: the block is filled before it is appended. */
    method NewBlock(x: Block) returns (ok: bool, b: nat)
      requires Valid() && loose == {}
      modifies this
      ensures Valid() && (ok <==> old(nextIno) < ninos) && inodes == old(inodes)
      ensures ok ==> b in loose && loose == {b} && Content(St().w, b) == x && nextIno == old(nextIno) + 1
      ensures !ok ==> St() == old(St())
      ensures forall m :: m in inodes ==> Blocks(St().w, m) == Blocks(old(St()).w, m) && Numbers(St().w, m) == Numbers(old(St()).w, m)
    {
      ghost var s := St();
      ImageIs(s, ptrs, nextIno, ninos);
      BaseIs(St(), nextIno, ninos);
      ok, b := AllocIno();
      if ok {
        NewBlockKeeps(s, b, x, ptrs);
        blocks := blocks[b := x];
        ImageIs(St(), ptrs, nextIno, ninos);
      }
    }

    /** One round of open_file: a block of the source file, padded with zeros, becomes the next block of the file. */
    method AppendChunk(n: nat, whole: seq<Byte>, off: nat, end: nat, ghost s0: Fs) returns (ok: bool)
      requires Valid() && loose == {} && n in inodes && off == inodes[n].blocks * BLK_SIZE && Copied(s0, St(), n, whole, off)
      requires off < end <= |whole| && end <= off + BLK_SIZE
      modifies this
      ensures ok <==> old(inodes)[n].blocks < MAX_BLOCKS && Needs(old(inodes)[n].blocks) <= ninos - old(nextIno)
      ensures ok ==> Valid() && loose == {} && Copied(s0, St(), n, whole, end)
      ensures ok ==> n in inodes && inodes[n].blocks == old(inodes)[n].blocks + 1
      ensures ok ==> nextIno == old(nextIno) + Needs(old(inodes)[n].blocks)
    {
      ghost var s := St();
      var c := whole[off..end];
      NeedIs(s, n, ptrs, nextIno, ninos);
      var b;
      ok, b := NewBlock(c + Pad(BLK_SIZE - |c|));
      if ok {
        ghost var s1 := St();
        NeedIs(s1, n, ptrs, nextIno, ninos);
        ok := AppendBlock(n, b, end);
        if ok {
          CopyMore(s0, s, s1, St(), n, whole, off, end, c, b);
        }
      }
    }

    /** open_file: a file's bytes, as the kernel will read them, are the bytes of the source file. It fails exactly when
        the file is too big or its blocks and the blocks that index them do not fit. */
    method OpenFile(n: nat, whole: seq<Byte>) returns (ok: bool)
      requires Valid() && loose == {} && n in inodes && inodes[n] == EmptyInode()
      modifies this
      ensures var k := BlocksFor(|whole|);
        ok <==> k <= MAX_BLOCKS && old(nextIno) + k + IndexBlocks(k) <= ninos
      ensures ok ==> Valid() && loose == {} && inodes.Keys == old(inodes.Keys)
      ensures ok ==> FileOk(St().w, n) && Contents(St().w, n) == whole
      ensures ok ==> forall m :: m in inodes && m != n ==> inodes[m] == old(inodes)[m] && Blocks(St().w, m) == Blocks(old(St()).w, m)
    {
      ghost var s0 := St();
      var off: nat := 0;
      CopyStart(s0, n, whole);
      assert ImageIn(ImageSize, s0, ptrs, nextIno, ninos);
      while off < |whole|
        invariant off <= |whole| && Valid() && loose == {} && n in inodes && Copied(s0, St(), n, whole, off)
        invariant inodes[n].blocks == BlocksFor(off) <= MAX_BLOCKS && (off < |whole| ==> off == inodes[n].blocks * BLK_SIZE)
        invariant nextIno == old(nextIno) + inodes[n].blocks + IndexBlocks(inodes[n].blocks) <= ninos
      {
        var end := if off + BLK_SIZE < |whole| then off + BLK_SIZE else |whole|;
        MoreBlocks(off, end, |whole|);
        IndexGrows(inodes[n].blocks + 1, BlocksFor(|whole|));
        ok := AppendChunk(n, whole, off, end, s0);
        if !ok {
          return;
        }
        off := end;
      }
      ok := true;
      CopyEnds(s0, St(), n, whole);
    }

    /** create_sfs on an image with room for more than its freemap. */
    constructor (image: seq<Block>)
      requires |image| <= MAX_NBLKS && FirstIno(|image|) < |image|
      ensures Valid() && loose == {} && ninos == |image| && nextIno == FirstIno(ninos) && blocks == image
      ensures inodes == map[BLKN_ROOT := EmptyInode()]
    {
      ninos, blocks, nextIno := |image|, image, FirstIno(|image|);
      unused := |image| - FirstIno(|image|);
      inodes, ptrs := map[BLKN_ROOT := EmptyInode()], map[BLKN_ROOT := Pointers(0, 0)];
      owner, loose, reserved := map[BLKN_ROOT := Self(BLKN_ROOT)], {}, {0} + Left(BLKN_FREEMAP, FirstIno(|image|));
      new;
      CreatedInv(blocks, nextIno, reserved);
      ImageIs(St(), ptrs, nextIno, ninos);
    }

    /** close_sfs: the freemap it writes has a bit set for exactly the blocks not handed out. */
    method CloseSfs() returns (freemap: seq<BitWord>)
      requires Valid()
      ensures |freemap| * WORD_BITS == FreemapBlocks(ninos) * BLK_BITS && Bits(freemap) == St().free
    {
      freemap := [];
      var i := 0;
      while i < ninos
        invariant |freemap| * WORD_BITS == i && i % BLK_BITS == 0 && i < ninos + BLK_BITS
        invariant forall x: nat :: x < i ==> (InMap(freemap, x) <==> nextIno <= x < ninos)
      {
        var start, end := 0, 0;
        if i + BLK_BITS > nextIno {
          start := if i < nextIno then nextIno - i else 0;
          end := if i + BLK_BITS > ninos then ninos - i else BLK_BITS;
        }
        var buffer := FreemapBlock(start, end);
        JoinMaps(freemap, buffer);
        freemap := freemap + buffer;
        i := i + BLK_BITS;
      }
    }
  }

  /** Two maps of whole words, one after the other. */
  lemma JoinMaps(a: seq<BitWord>, b: seq<BitWord>)
    ensures forall x: nat :: x < (|a| + |b|) * WORD_BITS ==>
      (InMap(a + b, x) <==> if x < |a| * WORD_BITS then InMap(a, x) else InMap(b, x - |a| * WORD_BITS))
  {
    forall x: nat | x < (|a| + |b|) * WORD_BITS
      ensures InMap(a + b, x) <==> if x < |a| * WORD_BITS then InMap(a, x) else InMap(b, x - |a| * WORD_BITS)
    {
      Compose(x);
    }
  }

  /** The inner loops of close_sfs: one block of the freemap. */
  method FreemapBlock(start: nat, end: nat) returns (b: seq<BitWord>)
    requires end <= BLK_BITS
    ensures |b| * WORD_BITS == BLK_BITS && forall x: nat :: x < BLK_BITS ==> (InMap(b, x) <==> start <= x < end)
  {
    b := seq(BLK_BITS / WORD_BITS, i => seq(WORD_BITS, j => false));
    var j := start;
    while j < end
      invariant |b| * WORD_BITS == BLK_BITS && (start <= end ==> start <= j <= end) && (start > end ==> j == start)
      invariant forall x: nat :: x < BLK_BITS ==> (InMap(b, x) <==> start <= x < j && x < end)
    {
      ghost var was := b;
      b := b[j / WORD_BITS := b[j / WORD_BITS][j % WORD_BITS := true]];
      forall x: nat | x < BLK_BITS
        ensures InMap(b, x) <==> x == j || InMap(was, x)
      {
        SetBit(was, j, x);
      }
      j := j + 1;
    }
  }

  lemma SetBit(b: seq<BitWord>, j: nat, x: nat)
    requires j < |b| * WORD_BITS && x < |b| * WORD_BITS
    ensures InMap(b[j / WORD_BITS := b[j / WORD_BITS][j % WORD_BITS := true]], x) <==> x == j || InMap(b, x)
  {
    Compose(j);
    Compose(x);
  }

  function FreemapBlocks(ninos: nat): (n: nat)
    ensures (n - 1) * BLK_BITS < ninos <= n * BLK_BITS
  {
    (ninos + BLK_BITS - 1) / BLK_BITS
  }

  function FirstIno(ninos: nat): nat {
    BLKN_FREEMAP + FreemapBlocks(ninos)
  }

  /** create_sfs: a large image is used in part, and one with no room beside its freemap is refused. */
  method CreateSfs(image: seq<Block>) returns (img: Image?)
    ensures var n := if |image| > MAX_NBLKS then MAX_NBLKS else |image|;
      && (img == null <==> FirstIno(n) >= n)
      && (img != null ==> img.Valid() && img.loose == {} && img.ninos == n && img.blocks == image[..n] && img.inodes.Keys == {BLKN_ROOT})
  {
    var ninos := |image|;
    if ninos > MAX_NBLKS {
      ninos := MAX_NBLKS;
    }
    if FirstIno(ninos) >= ninos {
      return null;
    }
    img := new Image(image[..ninos]);
  }

  /** The mount of a closed image: the count of free blocks agrees with the superblock, and the kernel takes over an image
      in which every block is accounted for and every file is what the writer put there. */
  method Mount(img: Image) returns (sfs: SfsFs.Sfs)
    requires img.Valid() && img.loose == {}
    ensures fresh(sfs) && fresh(sfs.freemap.words) && sfs.Valid() && sfs.St() == img.St() && AllFilled(sfs.St().w)
  {
    ImageIs(img.St(), img.ptrs, img.nextIno, img.ninos);
    assert Holds(Parts, img.St()) && Holds(Counted, img.St());
    var words := img.CloseSfs();
    var bitmap := new Bitmap(FreemapBlocks(img.ninos) * BLK_BITS);
    bitmap.Load(words);
    var free := bitmap.Count();
    assert free == img.unused;
    sfs := new SfsFs.Sfs(bitmap, img.blocks, img.inodes, img.unused, img.owner, img.reserved);
  }

  /** An image with one file, mounted: the kernel reads the bytes of the source file. */
  method BuildAndRead(image: seq<Block>, whole: seq<Byte>) returns (ok: bool, out: seq<Byte>)
    requires |image| <= MAX_NBLKS && FirstIno(|image|) < |image| && 0 < |whole| < 0x8000_0000
    ensures var k := BlocksFor(|whole|);
      ok <==> k <= MAX_BLOCKS && FirstIno(|image|) + 1 + k + IndexBlocks(k) <= |image|
    ensures ok ==> out == whole
  {
    out := [];
    var img := new Image(image);
    var n;
    ok, n := img.NewFile();
    if ok {
      ok := img.OpenFile(n, whole);
      if ok {
        var sfs := Mount(img);
        out := sfs.ReadInside(n, 0, |whole|);
        assert whole[0..|whole|] == whole;
      }
    }
  }

  // ---- what can go wrong on small disks

  /** A mounted image of `size` blocks with one empty file: the superblock, the freemap, the root and the file take four. */
  method SmallDisk(size: nat) returns (sfs: SfsFs.Sfs, n: nat)
    requires 4 <= size <= BLK_BITS
    ensures fresh(sfs) && fresh(sfs.freemap.words) && sfs.Valid() && AllFilled(sfs.St().w) && |sfs.St().free| == size - 4
    ensures n in sfs.inodes && n != BLKN_ROOT && sfs.inodes[n] == EmptyInode()
  {
    var img := new Image(seq(size, i => Zeros()));
    var ok;
    ok, n := img.NewFile();
    LeftSize(4, size);
    sfs := Mount(img);
  }

  /** A seek past the end on a disk with one free block: the extension to two blocks fails and leaves an empty file
      with one block, on which the assertion of a truncation to 0 does not hold. */
  method FailedSeek() returns (sfs: SfsFs.Sfs, n: nat, ret: int)
    ensures sfs.Valid() && AllFilled(sfs.St().w) && ret == -E_NO_MEM && n != BLKN_ROOT
    ensures n in sfs.inodes && sfs.inodes[n].size == 0 && sfs.inodes[n].blocks == 1 && !Settled(sfs.St().w, n)
  {
    sfs, n := SmallDisk(5);
    ghost var s := sfs.St();
    DirectCost(s.w, n, 2);
    ret := sfs.TruncateFile(n, 2 * BLK_SIZE);
    OneBlockMore(s, sfs.St(), n);
  }

  /** A write past the end on a full disk: nothing is written, and the size has grown over a block that is not there. */
  method FailedWrite() returns (sfs: SfsFs.Sfs, n: nat, ret: int)
    ensures sfs.Valid() && AllFilled(sfs.St().w) && ret == -E_NO_MEM && n != BLKN_ROOT
    ensures n in sfs.inodes && sfs.inodes[n].size == 100 && sfs.inodes[n].blocks == 0 && !Roomy(sfs.St().w, n)
  {
    sfs, n := SmallDisk(4);
    ghost var s := sfs.St();
    DirectCost(s.w, n, 1);
    var alen;
    ret, alen := sfs.IoWrite(n, 100, 1, [0]);
    NothingWritten(s, sfs.St(), n, 100, [0][..alen]);
  }

  lemma NothingWritten(s: Fs, s': Fs, n: nat, off: nat, d: seq<Byte>)
    requires WroteFile(s, s', n, off, d) && Roomy(s.w, n) && s.w.inodes[n].blocks == 0 && s.w.inodes[n].size <= off
    requires StuckAt(s, n, (off + |d|) / BLK_SIZE) && |s.free| == 0 && |d| <= 1 && Short(s.w, n, 1) == 1 && off < BLK_SIZE - 1
    requires !Roomy(s'.w, n)
    ensures n in s'.w.inodes && s'.w.inodes[n].size == off && s'.w.inodes[n].blocks == 0
  {
    WroteMeans(s, s', n, off, d);
    assert WroteLaw(Bytes, s, s', n, off, d);
  }

  /** A file of two bytes. */
  method TwoBytes() returns (sfs: SfsFs.Sfs, n: nat)
    ensures fresh(sfs) && fresh(sfs.freemap.words) && sfs.Valid() && AllFilled(sfs.St().w) && n != BLKN_ROOT
    ensures Roomy(sfs.St().w, n) && sfs.inodes[n].size == 2 && Contents(sfs.St().w, n) == [1, 7]
  {
    sfs, n := SmallDisk(5);
    ghost var s := sfs.St();
    DirectCost(s.w, n, 1);
    var ret, alen := sfs.IoWrite(n, 0, 2, [1, 7]);
    WroteMeans(s, sfs.St(), n, 0, [1, 7][..alen]);
  }

  /** A file of two bytes, cut to one and extended to two again: the second byte is the old one, not zero. */
  method StaleByte() returns (sfs: SfsFs.Sfs, n: nat)
    ensures sfs.Valid() && AllFilled(sfs.St().w) && n != BLKN_ROOT && Roomy(sfs.St().w, n)
    ensures Contents(sfs.St().w, n) == [1, 7]
  {
    sfs, n := TwoBytes();
    ghost var s1 := sfs.St();
    OneBlock(s1, n, 1);
    var ret := sfs.TruncateFile(n, 1);
    ghost var s2 := sfs.St();
    TruncatedMeans(s1, s2, n, 1);
    OneBlock(s2, n, 2);
    ret := sfs.TruncateFile(n, 2);
    TruncatedMeans(s2, sfs.St(), n, 2);
    CutAndGrown(s1, s2, sfs.St(), n);
  }

  /** A file with a byte in it lacks nothing to have one block. */
  lemma OneBlock(s: Fs, n: nat, len: nat)
    requires AllFilled(s.w) && Roomy(s.w, n) && s.w.inodes[n].size > 0 && 0 < len <= BLK_SIZE
    ensures Short(s.w, n, BlocksFor(len)) == 0
  {
    assert Filled(s.w, n);
    NothingShort(s.w, n, 1);
  }

  lemma CutAndGrown(s1: Fs, s2: Fs, s3: Fs, n: nat)
    requires Roomy(s1.w, n) && Roomy(s2.w, n) && Roomy(s3.w, n) && TruncatedTo(s1, s2, n, 1) && s1.w.inodes[n].size == 2
    requires Contents(s3.w, n) == Fitted(Flat(s2.w, n), 2)
    ensures Contents(s3.w, n) == Contents(s1.w, n)
  {
    assert TruncatedLaw(Bytes, s1, s2, n, 1);
  }

  /** What an empty file lacks while it needs no index block. */
  lemma DirectCost(w: World, n: nat, t: nat)
    requires n in w.inodes && w.inodes[n].blocks == 0 && t <= N_DIRECT
    ensures Short(w, n, t) == t && Short(w, n, 0) == 0
  {
  }

  lemma OneBlockMore(s: Fs, s': Fs, n: nat)
    requires n in s.w.inodes && s.w.inodes[n].blocks == 0 && |s.free| == 1 && Sized(s, s', n) && n in s'.w.inodes
    requires StuckAt(s, n, s'.w.inodes[n].blocks)
    ensures s'.w.inodes[n].blocks == 1 && s'.w.inodes[n].size == s.w.inodes[n].size
  {
    assert SizedHolds(SizedOthers, s, s', n);
    assert Short(s.w, n, 1) == 1;
  }

  lemma MoreBlocks(off: nat, end: nat, len: nat)
    requires off % BLK_SIZE == 0 && off < len && end == if off + BLK_SIZE < len then off + BLK_SIZE else len
    ensures BlocksFor(end) == BlocksFor(off) + 1 <= BlocksFor(len) && off == BlocksFor(off) * BLK_SIZE
    ensures end < len ==> end == BlocksFor(end) * BLK_SIZE
  {
  }

  /** What block k of a file takes from the disk: itself and the index blocks the file did not have. */
  function Needs(k: nat): int {
    1 + IndexBlocks(k + 1) - IndexBlocks(k)
  }

  lemma NeedIs(s: Fs, n: nat, ptrs: map<nat, Pointers>, next: nat, ninos: nat)
    requires ImageOk(s, ptrs, next, ninos) && n in s.w.inodes
    ensures s.w.inodes[n].blocks < MAX_BLOCKS ==>
      Needs(s.w.inodes[n].blocks) == 1 + MissingAt(s.w, Data(n, s.w.inodes[n].blocks))
  {
    assert ImageIn(ImagePointed, s, ptrs, next, ninos);
    if s.w.inodes[n].blocks < MAX_BLOCKS {
      MissingIs(s.w, n, ptrs[n].l1, ptrs[n].l2);
    }
  }

  lemma SecondPlace(w: World, n: nat, k: nat, j: nat, i: nat)
    requires k >= L1_BLOCKS && j == (k - L1_BLOCKS) / N_ENTRY && i == (k - L1_BLOCKS) % N_ENTRY
    ensures Data(n, k) == SecData(n, j, i)
    ensures MissingAt(w, Data(n, k)) == Bit(DbOf(w, n) == 0) + Bit(SecOf(w, n, j) == 0)
  {
  }

  lemma AimedSec(w: World, n: nat, k: nat, j: nat, p: Pointers)
    requires k >= L1_BLOCKS && j == (k - L1_BLOCKS) / N_ENTRY && p.l2 == DbOf(w, n) && p.l1 == SecOf(w, n, j)
    ensures Aimed(w, n, k, p)
  {
  }

  lemma SecIs(s: Fs, n: nat, j: nat, a: nat)
    requires Inv(s) && DbOf(s.w, n) != 0 && j < N_ENTRY && SecOf(s.w, n, j) == 0 && a in s.free
    ensures 0 < a < |s.w.disk| && s.unused > 0 && DbOf(s.w, n) < |s.w.disk| && a < WORD
    ensures SecOf(WithWord(Allocated(s, a).w, DbOf(s.w, n), j, a), n, j) == a
  {
    AllocQuiet(s, a, Sec(n, j));
    FreeNotLoose(s, a);
    var s1 := Allocated(s, a);
    assert At(s1.w, Sec(n, j)) == At(s.w, Sec(n, j));
    SecPlaces(s1, n, j, a);
    assert At(WithWord(s1.w, DbOf(s.w, n), j, a), Sec(n, j)) == a;
  }
}

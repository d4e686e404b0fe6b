/** sfs_inode.c and sfs_io.c: the block operations of the file system. */
module SfsFs {
  import opened SfsDisk
  import opened SfsBitmap
  import opened SfsOwn
  import opened SfsPlaces
  import opened SfsFlat
  import opened SfsShrink
  import opened SfsCost
  import opened SfsLaws

  class Sfs {
    const freemap: Bitmap
    var disk: seq<Block>
    var inodes: map<nat, Inode>
    var unused: nat
    ghost const reserved: set<nat>
    ghost var owner: map<nat, Place>
    ghost var loose: set<nat>

    ghost function St(): Fs
      reads this, freemap.words
    {
      Fs(World(disk, inodes), freemap.Free(), unused, owner, loose, reserved)
    }

    ghost predicate Mapped()
      reads this, freemap.words
    {
      freemap.Valid() && |disk| <= freemap.nbits
    }

    /** Every block accounted for, nothing in the making. */
    ghost predicate Valid()
      reads this, freemap.words
    {
      Mapped() && Inv(St()) && loose == {}
    }

    /** Mounting an image in which every block is accounted for. */
    constructor (fm: Bitmap, d: seq<Block>, table: map<nat, Inode>, count: nat, ghost own: map<nat, Place>, ghost res: set<nat>)
      requires fm.Valid() && |d| <= fm.nbits && Inv(Fs(World(d, table), fm.Free(), count, own, {}, res))
      ensures Valid() && freemap == fm && St() == Fs(World(d, table), fm.Free(), count, own, {}, res)
    {
      freemap, disk, inodes, unused := fm, d, table, count;
      owner, loose, reserved := own, {}, res;
    }

    method BlockAlloc() returns (ret: int, b: nat)
      requires Mapped() && Inv(St())
      modifies this`disk, this`unused, this`loose, freemap.words
      ensures Mapped() && ret == if old(St()).free == {} then -E_NO_MEM else 0
      ensures ret == 0 ==> b in old(St()).free && b < |old(St()).w.disk| && old(St()).unused > 0 && St() == Allocated(old(St()), b)
      ensures ret != 0 ==> St() == old(St())
    {
      ghost var s := St();
      ret, b := freemap.Alloc();
      if ret != 0 {
        return;
      }
      AllocKeeps(s, b);
      unused := unused - 1;
      disk := disk[b := Zeros()];
      loose := loose + {b};
    }

    /** sfs_block_free on the freemap alone. */
    method BlockFree(b: nat)
      requires Mapped() && b != 0 && b < |disk| && b !in freemap.Free()
      modifies this`unused, freemap.words
      ensures Mapped() && freemap.Free() == old(freemap.Free()) + {b} && unused == old(unused) + 1
    {
      freemap.Release(b);
      unused := unused + 1;
    }

    /** sfs_block_get_indirect_nolock: read entry `index` of an index block, creating the entry and the block if asked to. */
    method GetIndirect(indirect: nat, index: nat, create: bool) returns (ret: int, indirect': nat, blkno: nat, ghost how: How)
      requires Mapped() && Inv(St()) && index < N_ENTRY && indirect < |disk| && (indirect != 0 ==> indirect !in freemap.Free())
      modifies this`disk, this`unused, this`loose, freemap.words
      ensures Mapped() && ret == if how.Full? then -E_NO_MEM else 0
      ensures how.Same? <==> !create || Read(old(disk), indirect, index) != 0
      ensures how.Same? ==> St() == old(St()) && indirect' == indirect && blkno == Read(disk, indirect, index)
      ensures how.One? ==> indirect != 0 && indirect' == indirect && Entered(old(St()), St(), indirect, index, blkno)
      ensures how.Two? ==> indirect == 0 && EnteredNew(old(St()), St(), indirect', index, blkno)
      ensures how.Full? ==> |old(St()).free| < (if indirect != 0 then 1 else 2) && (St() == old(St()) || GivenBack(old(St()), St()))
    {
      indirect', blkno := indirect, 0;
      ret, how := 0, Same;
      if indirect != 0 {
        blkno := Word(disk[indirect], index);
        if blkno == 0 && create {
          ret, blkno := Enter(indirect, index);
          how := if ret == 0 then One else Full;
        }
      } else if create {
        ret, indirect', blkno := EnterNew(index);
        how := if ret == 0 then Two else Full;
      }
    }

    /** Allocate a block and enter it in an index block. */
    method Enter(indirect: nat, index: nat) returns (ret: int, blkno: nat)
      requires Mapped() && Inv(St()) && index < N_ENTRY && 0 < indirect < |disk| && indirect !in freemap.Free()
      modifies this`disk, this`unused, this`loose, freemap.words
      ensures Mapped() && ret == if old(St()).free == {} then -E_NO_MEM else 0
      ensures ret == 0 ==> Entered(old(St()), St(), indirect, index, blkno)
      ensures ret != 0 ==> St() == old(St())
    {
      ret, blkno := BlockAlloc();
      if ret == 0 {
        AllocKeeps(old(St()), blkno);
        LooseRange(St(), blkno);
        disk := disk[indirect := SetWord(disk[indirect], index, blkno)];
      }
    }

    /** The same with a new index block, which is freed again if there is no second block. */
    method EnterNew(index: nat) returns (ret: int, indirect: nat, blkno: nat)
      requires Mapped() && Inv(St()) && index < N_ENTRY
      modifies this`disk, this`unused, this`loose, freemap.words
      ensures Mapped() && ret == if |old(St()).free| < 2 then -E_NO_MEM else 0
      ensures ret == 0 ==> EnteredNew(old(St()), St(), indirect, index, blkno)
      ensures ret != 0 ==> St() == old(St()) || GivenBack(old(St()), St())
    {
      blkno := 0;
      ret, indirect := BlockAlloc();
      if ret != 0 {
        return;
      }
      AllocKeeps(old(St()), indirect);
      assert |St().free| == |old(St()).free| - 1;
      ret, blkno := Enter(indirect, index);
      if ret != 0 {
        BlockFree(indirect);
        loose := loose - {indirect};
      }
    }

    // ---- sfs_block_get_nolock, by the kind of index

    method GetDirect(n: nat, i: nat, create: bool) returns (ret: int, blkno: nat)
      requires Valid() && n in inodes && i < N_DIRECT
      modifies this, freemap.words
      ensures Mapped() && Got(old(St()), St(), Direct(n, i), create, ret, blkno)
    {
      ghost var s := St();
      assert Holds(Fields, s);
      ret, blkno := 0, inodes[n].direct[i];
      if blkno == 0 && create {
        ret, blkno := BlockAlloc();
        if ret != 0 {
          Failed(s, St(), Direct(n, i), blkno);
          return;
        }
        GrewDirect(s, n, i, blkno);
        inodes := inodes[n := inodes[n].(direct := inodes[n].direct[i := blkno])];
        owner, loose := owner[blkno := Direct(n, i)], loose - {blkno};
      } else {
        Unchanged(s, Direct(n, i), create);
      }
    }

    method GetInd(n: nat, i: nat, create: bool) returns (ret: int, blkno: nat)
      requires Valid() && n in inodes && i < N_ENTRY
      modifies this, freemap.words
      ensures Mapped() && Got(old(St()), St(), IndData(n, i), create, ret, blkno)
    {
      ghost var s, p := St(), IndData(n, i);
      IndexInUse(s, Ind(n));
      var indirect: nat := inodes[n].indirect;
      ghost var how;
      ret, indirect, blkno, how := GetIndirect(inodes[n].indirect, i, create);
      if ret != 0 {
        Failed(s, St(), p, blkno);
        return;
      }
      if indirect != inodes[n].indirect {
        GrewIndNew(s, St(), n, i, indirect, blkno);
        inodes := inodes[n := inodes[n].(indirect := indirect)];
        owner, loose := owner[indirect := Ind(n)][blkno := p], loose - {indirect} - {blkno};
      } else if how.One? {
        GrewInd(s, St(), n, i, indirect, blkno);
        owner, loose := owner[blkno := p], loose - {blkno};
      } else {
        Unchanged(s, p, create);
      }
    }

    method GetSec(n: nat, i: nat, create: bool) returns (ret: int, blkno: nat)
      requires Valid() && n in inodes && i < N_ENTRY * N_ENTRY
      modifies this, freemap.words
      ensures Mapped() && Got(old(St()), St(), SecData(n, i / N_ENTRY, i % N_ENTRY), create, ret, blkno)
    {
      ghost var s, p := St(), SecData(n, i / N_ENTRY, i % N_ENTRY);
      var second;
      blkno := 0;
      ret, second := SecondLevel(n, i / N_ENTRY, create, p);
      ghost var s1 := St();
      if ret != 0 {
        NotAfter(s, s1, p, create, second, ret, blkno);
        return;
      }
      SecondedAll(s, s1, p, create, ret, second);
      ret, blkno := UnderSecond(n, i / N_ENTRY, i % N_ENTRY, second, create);
      GotAfter(s, s1, St(), p, create, second, ret, blkno);
    }

    method UnderSecond(n: nat, j: nat, i: nat, second: nat, create: bool) returns (ret: int, blkno: nat)
      requires Valid() && i < N_ENTRY && second == SecOf(St().w, n, j) && (create ==> second != 0)
      modifies this, freemap.words
      ensures Mapped() && Got(old(St()), St(), SecData(n, j, i), create, ret, blkno)
    {
      ghost var s, p := St(), SecData(n, j, i);
      ret, blkno := 0, second;
      if second != 0 {
        IndexInUse(s, Sec(n, j));
        var same; ghost var how;
        ret, same, blkno, how := GetIndirect(second, i, create);
        if ret != 0 {
          Failed(s, St(), p, blkno);
        } else if how.One? {
          GrewSec(s, St(), n, j, i, second, blkno);
          owner, loose := owner[blkno := p], loose - {blkno};
        } else {
          Unchanged(s, p, create);
        }
      } else {
        Unchanged(s, p, create);
      }
    }

    /** The second-level block for a file block, created if asked to. */
    method SecondLevel(n: nat, j: nat, create: bool, ghost p: Place) returns (ret: int, second: nat)
      requires Valid() && n in inodes && j < N_ENTRY && p.SecData? && p.ino == n && p.j == j
      modifies this, freemap.words
      ensures Mapped() && Seconded(old(St()), St(), p, create, ret, second)
    {
      ghost var s := St();
      IndexInUse(s, Db(n));
      var db: nat := inodes[n].db;
      ghost var how;
      ret, db, second, how := GetIndirect(inodes[n].db, j, create);
      if ret != 0 {
        SecondFailed(s, St(), p, second);
        return;
      }
      if db != inodes[n].db {
        GrewDbNew(s, St(), n, j, db, second, p);
        inodes := inodes[n := inodes[n].(db := db)];
        owner, loose := owner[db := Db(n)][second := Sec(n, j)], loose - {db} - {second};
      } else if how.One? {
        GrewDb(s, St(), n, j, db, second, p);
        owner, loose := owner[second := Sec(n, j)], loose - {second};
      } else {
        SecondSame(s, p, create);
      }
    }

    /** sfs_block_get_nolock: the number of file block `index`. */
    method BlockGet(n: nat, index: nat, create: bool) returns (ret: int, blkno: nat)
      requires Valid() && n in inodes && index < N_DIRECT + N_ENTRY + N_ENTRY * N_ENTRY
      modifies this, freemap.words
      ensures Mapped() && Got(old(St()), St(), Data(n, index), create, ret, blkno)
    {
      if index < N_DIRECT {
        ret, blkno := GetDirect(n, index, create);
      } else if index - N_DIRECT < N_ENTRY {
        ret, blkno := GetInd(n, index - N_DIRECT, create);
      } else {
        ret, blkno := GetSec(n, index - N_DIRECT - N_ENTRY, create);
      }
    }

    /** sfs_block_load_nolock: a block of the file, or the next one after its end. */
    method BlockLoad(n: nat, index: nat) returns (ret: int, blkno: nat)
      requires Valid() && AllFilled(St().w) && n in inodes && index <= inodes[n].blocks && index < MAX_BLOCKS
      modifies this, freemap.words
      ensures Valid() && AllFilled(St().w) && Loaded(old(St()), St(), n, index, ret, blkno)
    {
      ghost var s := St();
      var create := index == inodes[n].blocks;
      assert Filled(s.w, n);
      ret, blkno := BlockGet(n, index, create);
      ghost var s1 := St();
      GotAll(s, s1, Data(n, index), create, ret, blkno);
      if ret != 0 {
        NotLoaded(s, s1, n, index, blkno);
        return;
      }
      if create {
        CreatedOk(s, s1, n, index, blkno);
        inodes := inodes[n := inodes[n].(blocks := inodes[n].blocks + 1)];
      } else {
        IndexInUse(s, Data(n, index));
      }
    }

    // ---- sfs_io_nolock

    /** Write part of one block of the file, or of the block after its end. */
    method WriteChunk(n: nat, index: nat, off: nat, data: seq<Byte>) returns (ret: int)
      requires Valid() && AllFilled(St().w) && n in inodes && index <= inodes[n].blocks && index < MAX_BLOCKS
      requires off + |data| <= BLK_SIZE
      modifies this, freemap.words
      ensures Valid() && AllFilled(St().w) && Untouched(old(St()), St(), n)
      ensures ret == 0 ==> Flat(St().w, n) == Splice(Grow(Flat(old(St()).w, n), (index + 1) * BLK_SIZE), index * BLK_SIZE + off, data)
      ensures ret != 0 ==> Flat(St().w, n) == Flat(old(St()).w, n) && ret == -E_NO_MEM && index == old(inodes[n].blocks)
      ensures ret != 0 ==> |old(St()).free| < 1 + MissingAt(old(St()).w, Data(n, index))
      ensures ret == 0 ==> Balanced(old(St()), St(), n) && old(inodes[n].blocks) <= inodes[n].blocks
    {
      ghost var s := St();
      var ino;
      ret, ino := BlockLoad(n, index);
      if ret != 0 {
        return;
      }
      ghost var s1 := St();
      LoadedFlat(s, s1, n, index, ino);
      LoadedBalance(s, s1, n, index, ino);
      PatchBlock(n, index, off, data, ino);
      BalancedTrans(s, s1, St(), n);
    }

    /** sfs_wbuf on a block of the file. */
    method PatchBlock(n: nat, index: nat, off: nat, data: seq<Byte>, ino: nat)
      requires Valid() && AllFilled(St().w) && n in inodes && index < inodes[n].blocks && off + |data| <= BLK_SIZE
      requires ino == At(St().w, Data(n, index)) && 0 < ino < |disk|
      modifies this`disk
      ensures Valid() && AllFilled(St().w) && Untouched(old(St()), St(), n) && Balanced(old(St()), St(), n)
      ensures index * BLK_SIZE + off + |data| <= |Flat(old(St()).w, n)|
      ensures Flat(St().w, n) == Splice(Flat(old(St()).w, n), index * BLK_SIZE + off, data)
    {
      DataWrite(St(), n, index, off, data);
      disk := disk[ino := Patch(disk[ino], off, data)];
      BalancedSame(old(St()), St(), n);
    }

    /** Read part of one block of the file. A read in the block after its end loads that block as a write does. */
    method ReadChunk(n: nat, index: nat, off: nat, len: nat) returns (ret: int, piece: seq<Byte>, ghost b: nat)
      requires Valid() && AllFilled(St().w) && n in inodes && index <= inodes[n].blocks && index < MAX_BLOCKS
      requires off + len <= BLK_SIZE
      modifies this, freemap.words
      ensures Valid() && AllFilled(St().w) && Loaded(old(St()), St(), n, index, ret, b)
      ensures ret == 0 ==> n in inodes && index < inodes[n].blocks && index * BLK_SIZE + off + len <= |Flat(St().w, n)|
      ensures ret == 0 ==> piece == Flat(St().w, n)[index * BLK_SIZE + off..index * BLK_SIZE + off + len]
    {
      ghost var s := St();
      var ino;
      piece := [];
      ret, ino := BlockLoad(n, index);
      b := ino;
      if ret == 0 {
        LoadedFlat(s, St(), n, index, ino);
        CatPiece(Blocks(St().w, n), index, off, len);
        assert Holds(Fields, St());
        piece := disk[ino][off..off + len];
      }
    }

    /** The writing half of the three phases of sfs_io_nolock: a first partial block, whole blocks, a last partial block. */
    method WriteRange(n: nat, offset: nat, end: nat, buf: seq<Byte>) returns (ret: int, alen: nat)
      requires Valid() && AllFilled(St().w) && n in inodes && offset < end <= MAX_FILE_SIZE && |buf| >= end - offset
      requires offset / BLK_SIZE <= inodes[n].blocks
      modifies this, freemap.words
      ensures alen <= end - offset && Valid() && Writing(old(St()), St(), n, offset, buf[..alen])
      ensures ret == (if alen == end - offset then 0 else -E_NO_MEM)
      ensures ret == 0 ==> Balanced(old(St()), St(), n)
      ensures ret != 0 ==> StuckAt(old(St()), n, (offset + alen) / BLK_SIZE)
      ensures ret != 0 ==> alen == 0 || (offset + alen) % BLK_SIZE == 0
    {
      ghost var s0 := St();
      WritingStart(s0, n, offset);
      BalancedSame(s0, s0, n);
      assert buf[..0] == [];
      ret, alen := 0, 0;
      var index := offset / BLK_SIZE;
      var nblks := end / BLK_SIZE - index;
      var blkoff := offset % BLK_SIZE;
      if blkoff != 0 {
        var size := if nblks != 0 then BLK_SIZE - blkoff else end - offset;
        FirstPiece(offset, end);
        ret, alen := WriteNext(n, offset, 0, size, buf, s0);
        if ret != 0 || nblks == 0 {
          return;
        }
        index := index + 1;
        nblks := nblks - 1;
      }
      ret, alen := WriteRest(n, offset, end, alen, index, nblks, buf, s0);
    }

    method WriteRest(n: nat, offset: nat, end: nat, done: nat, index: nat, nblks: nat, buf: seq<Byte>, ghost s0: Fs)
      returns (ret: int, alen: nat)
      requires end <= MAX_FILE_SIZE && |buf| >= end - offset >= done
      requires offset + done == index * BLK_SIZE && index + nblks == end / BLK_SIZE
      requires Valid() && Writing(s0, St(), n, offset, buf[..done]) && Balanced(s0, St(), n)
      modifies this, freemap.words
      ensures alen <= end - offset && Valid() && Writing(s0, St(), n, offset, buf[..alen])
      ensures ret == (if alen == end - offset then 0 else -E_NO_MEM)
      ensures ret == 0 ==> Balanced(s0, St(), n)
      ensures ret != 0 ==> StuckAt(s0, n, (offset + alen) / BLK_SIZE)
      ensures ret != 0 ==> (offset + alen) % BLK_SIZE == 0
    {
      ret, alen := WriteWhole(n, offset, end, done, index, nblks, buf, s0);
      LastPiece(offset, end);
      if ret == 0 && end % BLK_SIZE != 0 {
        ret, alen := WriteNext(n, offset, alen, end % BLK_SIZE, buf, s0);
      }
    }

    method WriteWhole(n: nat, offset: nat, end: nat, done: nat, index0: nat, nblks0: nat, buf: seq<Byte>, ghost s0: Fs)
      returns (ret: int, alen: nat)
      requires end <= MAX_FILE_SIZE && |buf| >= end - offset >= done
      requires offset + done == index0 * BLK_SIZE && index0 + nblks0 == end / BLK_SIZE
      requires Valid() && Writing(s0, St(), n, offset, buf[..done]) && Balanced(s0, St(), n)
      modifies this, freemap.words
      ensures ret == 0 ==> Balanced(s0, St(), n)
      ensures alen <= |buf| && offset + alen <= end && Valid() && Writing(s0, St(), n, offset, buf[..alen])
      ensures ret == 0 ==> offset + alen == end / BLK_SIZE * BLK_SIZE
      ensures ret != 0 ==> ret == -E_NO_MEM && offset + alen < end
      ensures ret != 0 ==> StuckAt(s0, n, (offset + alen) / BLK_SIZE)
      ensures ret != 0 ==> (offset + alen) % BLK_SIZE == 0
    {
      ret, alen := 0, done;
      var index, nblks := index0, nblks0;
      while nblks != 0
        invariant offset + alen == index * BLK_SIZE && index + nblks == end / BLK_SIZE && alen <= |buf| && ret == 0
        invariant Valid() && Writing(s0, St(), n, offset, buf[..alen]) && Balanced(s0, St(), n)
        decreases nblks
      {
        MiddlePiece(index, end);
        ret, alen := WriteNext(n, offset, alen, BLK_SIZE, buf, s0);
        if ret != 0 {
          return;
        }
        index := index + 1;
        nblks := nblks - 1;
      }
    }

    /** One step of it: the next `size` bytes, which lie in one block. */
    method WriteNext(n: nat, offset: nat, done: nat, size: nat, buf: seq<Byte>, ghost s0: Fs) returns (ret: int, alen: nat)
      requires done + size <= |buf| && size > 0
      requires (offset + done) % BLK_SIZE + size <= BLK_SIZE && offset + done + size <= MAX_FILE_SIZE
      requires Valid() && Writing(s0, St(), n, offset, buf[..done]) && Balanced(s0, St(), n)
      modifies this, freemap.words
      ensures ret == 0 || ret == -E_NO_MEM
      ensures ret == 0 ==> Balanced(s0, St(), n)
      ensures alen == if ret == 0 then done + size else done
      ensures Valid() && Writing(s0, St(), n, offset, buf[..alen])
      ensures ret != 0 ==> StuckAt(s0, n, (offset + done) / BLK_SIZE)
    {
      var index, off := (offset + done) / BLK_SIZE, (offset + done) % BLK_SIZE;
      var data := buf[done..done + size];
      ghost var s, d := St(), buf[..done];
      PieceIndex(offset + done);
      WritingAt(s0, s, n, offset, d);
      ret := WriteChunk(n, index, off, data);
      alen := done;
      if ret == 0 {
        alen := done + size;
        WritingStep(s0, s, St(), n, offset, d, data, index, off);
        BalancedTrans(s0, s, St(), n);
        assert d + data == buf[..alen];
      } else {
        Stuck(s0, s, n);
        WritingStays(s0, s, St(), n, offset, buf[..done]);
      }
    }

    /** The reading half. */
    method ReadRange(n: nat, offset: nat, end: nat) returns (ret: int, alen: nat, out: seq<Byte>)
      requires Valid() && AllFilled(St().w) && n in inodes && offset < end <= MAX_FILE_SIZE
      requires offset / BLK_SIZE <= inodes[n].blocks
      modifies this, freemap.words
      ensures Valid() && alen == |out| <= end - offset
      ensures ret == (if alen == end - offset then 0 else -E_NO_MEM)
      ensures ret == 0 ==> Reading(old(St()), St(), n, offset, out)
      ensures ret != 0 ==> ReadStuck(old(St()), St(), n, offset, out)
    {
      ghost var s0 := St();
      ReadingStart(s0, n, offset);
      ret, alen, out := 0, 0, [];
      var index := offset / BLK_SIZE;
      var nblks := end / BLK_SIZE - index;
      var blkoff := offset % BLK_SIZE;
      if blkoff != 0 {
        var size := if nblks != 0 then BLK_SIZE - blkoff else end - offset;
        FirstPiece(offset, end);
        ret, alen, out := ReadNext(n, offset, out, size, s0);
        if ret != 0 || nblks == 0 {
          return;
        }
        index := index + 1;
        nblks := nblks - 1;
      }
      ret, alen, out := ReadRest(n, offset, end, index, nblks, out, s0);
    }

    method ReadRest(n: nat, offset: nat, end: nat, index: nat, nblks: nat, got: seq<Byte>, ghost s0: Fs)
      returns (ret: int, alen: nat, out: seq<Byte>)
      requires end <= MAX_FILE_SIZE && end - offset >= |got|
      requires offset + |got| == index * BLK_SIZE && index + nblks == end / BLK_SIZE
      requires Valid() && Reading(s0, St(), n, offset, got)
      modifies this, freemap.words
      ensures Valid() && alen == |out| <= end - offset
      ensures ret == (if alen == end - offset then 0 else -E_NO_MEM)
      ensures ret == 0 ==> Reading(s0, St(), n, offset, out)
      ensures ret != 0 ==> ReadStuck(s0, St(), n, offset, out)
    {
      ret, alen, out := ReadWhole(n, offset, end, index, nblks, got, s0);
      LastPiece(offset, end);
      if ret == 0 && end % BLK_SIZE != 0 {
        ret, alen, out := ReadNext(n, offset, out, end % BLK_SIZE, s0);
      }
    }

    method ReadWhole(n: nat, offset: nat, end: nat, index0: nat, nblks0: nat, got: seq<Byte>, ghost s0: Fs)
      returns (ret: int, alen: nat, out: seq<Byte>)
      requires end <= MAX_FILE_SIZE && end - offset >= |got|
      requires offset + |got| == index0 * BLK_SIZE && index0 + nblks0 == end / BLK_SIZE
      requires Valid() && Reading(s0, St(), n, offset, got)
      modifies this, freemap.words
      ensures Valid() && alen == |out| && offset + alen <= end
      ensures ret == 0 ==> offset + alen == end / BLK_SIZE * BLK_SIZE && Reading(s0, St(), n, offset, out)
      ensures ret != 0 ==> ret == -E_NO_MEM && offset + alen < end && ReadStuck(s0, St(), n, offset, out)
    {
      ret, alen, out := 0, |got|, got;
      var index, nblks := index0, nblks0;
      while nblks != 0
        invariant offset + alen == index * BLK_SIZE && index + nblks == end / BLK_SIZE && alen == |out| && ret == 0
        invariant Valid() && Reading(s0, St(), n, offset, out)
        decreases nblks
      {
        MiddlePiece(index, end);
        ret, alen, out := ReadNext(n, offset, out, BLK_SIZE, s0);
        if ret != 0 {
          return;
        }
        index := index + 1;
        nblks := nblks - 1;
      }
    }

    /** One step of it: the next `size` bytes, which lie in one block. */
    method ReadNext(n: nat, offset: nat, got: seq<Byte>, size: nat, ghost s0: Fs) returns (ret: int, alen: nat, out: seq<Byte>)
      requires size > 0 && (offset + |got|) % BLK_SIZE + size <= BLK_SIZE && offset + |got| + size <= MAX_FILE_SIZE
      requires Valid() && Reading(s0, St(), n, offset, got)
      modifies this, freemap.words
      ensures Valid() && (ret == 0 || ret == -E_NO_MEM) && alen == |out| == |got| + if ret == 0 then size else 0
      ensures ret == 0 ==> Reading(s0, St(), n, offset, out)
      ensures ret != 0 ==> ReadStuck(s0, St(), n, offset, out)
    {
      var index, off := (offset + |got|) / BLK_SIZE, (offset + |got|) % BLK_SIZE;
      ghost var s := St();
      PieceIndex(offset + |got|);
      ReadingAt(s0, s, n, offset, got);
      var piece;
      ghost var b;
      ret, piece, b := ReadChunk(n, index, off, size);
      out := got;
      if ret == 0 {
        ReadingStep(s0, s, St(), n, offset, got, piece, index, off, b);
        out := got + piece;
      } else {
        ReadingStops(s0, s, St(), n, offset, got, index, ret, b);
      }
      alen := |out|;
    }

    /** sfs_io_nolock for a write. The first block must be in the file or the one after its end: that is the assertion
        in sfs_block_load_nolock. Space runs out exactly when the blocks up to the end and their index blocks are more
        than there are free, and then the write stops at the first block that does not fit. */
    method IoWrite(n: nat, offset: int, len: nat, buf: seq<Byte>) returns (ret: int, alen: nat)
      requires Valid() && AllFilled(St().w) && n in inodes && |buf| == len
      requires -0x8000_0000 <= offset < 0x8000_0000 && len < 0x1_0000_0000
      requires Transfers(offset, len) ==> offset / BLK_SIZE <= inodes[n].blocks
      modifies this, freemap.words
      ensures Valid() && AllFilled(St().w)
      ensures ret == -E_INVAL <==> offset < 0 || offset >= MAX_FILE_SIZE || offset + len >= 0x8000_0000
      ensures !Transfers(offset, len) ==> St() == old(St()) && alen == 0
      ensures Transfers(offset, len) ==> alen <= len && WroteFile(old(St()), St(), n, offset, buf[..alen])
      ensures ret != -E_INVAL ==> ret == (if alen == Clip(offset, len, MAX_FILE_SIZE) - offset then 0 else -E_NO_MEM)
      ensures ret == -E_NO_MEM <==>
        Transfers(offset, len) && |old(St()).free| < Short(old(St()).w, n, BlocksFor(Clip(offset, len, MAX_FILE_SIZE)))
      ensures ret == -E_NO_MEM ==> StuckAt(old(St()), n, (offset + alen) / BLK_SIZE)
      ensures Transfers(offset, len) && Roomy(old(St()).w, n) ==>
        (Roomy(St().w, n) <==> FirstFits(old(St()), n, offset))
      ensures ret == 0 && Transfers(offset, len) ==> alen == len || (alen < len && offset + alen == MAX_FILE_SIZE)
    {
      EndPosition(offset, len);
      var end := Int32(offset + len);
      if offset < 0 || offset >= MAX_FILE_SIZE || offset > end {
        return -E_INVAL, 0;
      }
      if offset == end {
        return 0, 0;
      }
      if end > MAX_FILE_SIZE {
        end := MAX_FILE_SIZE;
      }
      ret, alen := WriteFile(n, offset, end, buf);
    }

    /** sfs_io_nolock for a read. The first block must be in the file or the one after its end, as for a write. A file whose
        size reaches past its blocks reads as zeros there, and the read adds the blocks that are missing. */
    method IoRead(n: nat, offset: int, len: nat) returns (ret: int, alen: nat, out: seq<Byte>)
      requires Valid() && AllFilled(St().w) && n in inodes
      requires -0x8000_0000 <= offset < 0x8000_0000 && len < 0x1_0000_0000
      requires Transfers(offset, len) && offset < inodes[n].size ==> offset / BLK_SIZE <= inodes[n].blocks
      modifies this, freemap.words
      ensures Valid() && AllFilled(St().w) && Sized(old(St()), St(), n) && alen == |out|
      ensures ret == -E_INVAL <==> offset < 0 || offset >= MAX_FILE_SIZE || offset + len >= 0x8000_0000
      ensures !(Transfers(offset, len) && offset < old(inodes[n].size)) ==> ret != -E_NO_MEM && alen == 0 && St() == old(St())
      ensures Transfers(offset, len) && offset < old(inodes[n].size) ==>
        && (ret == 0 || ret == -E_NO_MEM)
        && ReadTo(old(St()), St(), n, offset, ReadEnd(offset, len, old(inodes[n].size)), ret, out)
      ensures ret == 0 && Transfers(offset, len) && offset < old(inodes[n].size) ==>
        alen == len || (alen < len && offset + alen == if old(inodes[n].size) < MAX_FILE_SIZE then old(inodes[n].size) else MAX_FILE_SIZE)
    {
      EndPosition(offset, len);
      SizedStart(St(), n);
      var end := Int32(offset + len);
      if offset < 0 || offset >= MAX_FILE_SIZE || offset > end {
        return -E_INVAL, 0, [];
      }
      if offset == end {
        return 0, 0, [];
      }
      if end > MAX_FILE_SIZE {
        end := MAX_FILE_SIZE;
      }
      ghost var s0, size := St(), inodes[n].size;
      ret, alen, out := ReadFile(n, offset, end);
      if offset < size {
        assert ReadToLaw(Gotten, s0, St(), n, offset, if end < size then end else size, ret, out);
      }
    }

    /** A write at or before the end, read back: every byte that was written comes back, on a full disk as well,
        and every byte outside is as it was. */
    method WriteThenRead(n: nat, offset: nat, buf: seq<Byte>) returns (ret: int, alen: nat, out: seq<Byte>)
      requires Valid() && AllFilled(St().w) && Roomy(St().w, n)
      requires offset < MAX_FILE_SIZE && offset <= inodes[n].size && 0 < |buf| && offset + |buf| < 0x8000_0000
      modifies this, freemap.words
      ensures Valid() && AllFilled(St().w) && Roomy(St().w, n)
      ensures ret == 0 <==> |old(St()).free| >= Short(old(St()).w, n, BlocksFor(Clip(offset, |buf|, MAX_FILE_SIZE)))
      ensures ret == 0 ==> alen == Clip(offset, |buf|, MAX_FILE_SIZE) - offset
      ensures alen <= |buf| && (alen != 0 ==> out == buf[..alen])
      ensures var was, now := Contents(old(St()).w, n), Contents(St().w, n);
        |now| == Max(|was|, offset + alen) && forall i :: 0 <= i < |now| && !(offset <= i < offset + alen) ==> now[i] == was[i]
    {
      ghost var s := St();
      out := [];
      InsideFile(s, n, offset);
      ret, alen := IoWrite(n, offset, |buf|, buf);
      WroteMeans(s, St(), n, offset, buf[..alen]);
      ghost var c, now := Contents(s.w, n), Contents(St().w, n);
      forall i | 0 <= i < |now| ensures !(offset <= i < offset + alen) ==> now[i] == c[i] {
        ReadBack(c, offset, buf[..alen], i);
      }
      if alen != 0 {
        ReadBack(c, offset, buf[..alen], offset);
        out := ReadInside(n, offset, alen);
      }
    }

    /** A read inside the file. */
    method ReadInside(n: nat, offset: nat, len: nat) returns (out: seq<Byte>)
      requires Valid() && AllFilled(St().w) && Roomy(St().w, n) && Transfers(offset, len) && offset + len <= inodes[n].size
      modifies this, freemap.words
      ensures Valid() && St() == old(St()) && out == Contents(St().w, n)[offset..offset + len]
    {
      ghost var s := St();
      SizeBound(s, n);
      InsideFile(s, n, offset);
      var ret, alen;
      ret, alen, out := IoRead(n, offset, len);
      ReadMeans(s, St(), n, offset, offset + len, ret, out);
    }

    method ReadFile(n: nat, offset: nat, limit: nat) returns (ret: int, alen: nat, out: seq<Byte>)
      requires Valid() && AllFilled(St().w) && n in inodes && offset < limit <= MAX_FILE_SIZE
      requires offset < inodes[n].size ==> offset / BLK_SIZE <= inodes[n].blocks
      modifies this, freemap.words
      ensures Valid() && AllFilled(St().w) && Sized(old(St()), St(), n) && (ret == 0 || ret == -E_NO_MEM)
      ensures offset >= old(inodes[n].size) ==> ret == 0 && alen == 0 && out == [] && St() == old(St())
      ensures offset < old(inodes[n].size) ==>
        ReadTo(old(St()), St(), n, offset, if limit < old(inodes[n].size) then limit else old(inodes[n].size), ret, out)
      ensures alen == |out|
    {
      ghost var s0 := St();
      SizedStart(s0, n);
      if offset >= inodes[n].size {
        return 0, 0, [];
      }
      var end := limit;
      if end > inodes[n].size {
        end := inodes[n].size;
      }
      ret, alen, out := ReadRange(n, offset, end);
      ReadEnds(s0, St(), n, offset, end, ret, out);
    }

    method WriteFile(n: nat, offset: nat, end: nat, buf: seq<Byte>) returns (ret: int, alen: nat)
      requires Valid() && AllFilled(St().w) && n in inodes && offset / BLK_SIZE <= inodes[n].blocks
      requires offset < end <= MAX_FILE_SIZE && |buf| >= end - offset
      modifies this, freemap.words
      ensures Valid() && AllFilled(St().w) && alen <= end - offset && WroteFile(old(St()), St(), n, offset, buf[..alen])
      ensures ret == (if alen == end - offset then 0 else -E_NO_MEM)
      ensures ret == 0 <==> |old(St()).free| >= Short(old(St()).w, n, BlocksFor(end))
      ensures ret != 0 ==> StuckAt(old(St()), n, (offset + alen) / BLK_SIZE)
      ensures Roomy(old(St()).w, n) ==> (Roomy(St().w, n) <==> FirstFits(old(St()), n, offset))
    {
      ghost var s0 := St();
      ret, alen := WriteRange(n, offset, end, buf);
      WriteSpace(s0, St(), n, offset, end, alen, buf[..alen]);
      WritingDone(s0, St(), n, offset, buf[..alen]);
      if offset + alen > inodes[n].size {
        inodes := inodes[n := inodes[n].(size := offset + alen)];
      }
      assert WroteLaw(Sound, s0, St(), n, offset, buf[..alen]);
      if Roomy(s0.w, n) {
        RoomAfter(s0, St(), n, offset, end, buf[..alen]);
      }
    }

    // ---- taking blocks away

    /** sfs_block_free_indirect_nolock: clear an entry of an index block and free the block it named. */
    method FreeIndirect(indirect: nat, index: nat)
      requires Mapped() && 0 < indirect < |disk| && index < N_ENTRY
      requires Word(disk[indirect], index) != 0 ==> Word(disk[indirect], index) < |disk| && Word(disk[indirect], index) !in freemap.Free()
      modifies this`disk, this`unused, freemap.words
      ensures Mapped()
      ensures var v := old(Word(disk[indirect], index));
        if v == 0 then St() == old(St())
        else St() == old(St()).(w := WithWord(old(St()).w, indirect, index, 0), free := old(St()).free + {v}, unused := old(unused) + 1)
    {
      var blkno := Word(disk[indirect], index);
      if blkno != 0 {
        disk := disk[indirect := SetWord(disk[indirect], index, 0)];
        BlockFree(blkno);
      }
    }

    /** sfs_block_free_nolock on a block the file has. */
    method BlockFreeAt(n: nat, index: nat)
      requires Valid() && n in inodes && At(St().w, Data(n, index)) != 0
      modifies this, freemap.words
      ensures Mapped() && n in inodes && inodes[n].indirect == old(inodes[n].indirect) && inodes[n].db == old(inodes[n].db)
      ensures WasCut(old(St()), St(), Data(n, index))
    {
      if index < N_DIRECT {
        FreeDirect(n, index);
      } else if index - N_DIRECT < N_ENTRY {
        FreeInd(n, index - N_DIRECT);
      } else {
        var rest := index - N_DIRECT - N_ENTRY;
        SecondRange(St(), n, rest / N_ENTRY, rest % N_ENTRY);
        FreeSec(n, rest / N_ENTRY, rest % N_ENTRY);
      }
    }

    method FreeDirect(n: nat, i: nat)
      requires Valid() && n in inodes && i < N_DIRECT && At(St().w, Direct(n, i)) != 0
      modifies this, freemap.words
      ensures Mapped() && n in inodes && inodes[n].indirect == old(inodes[n].indirect) && inodes[n].db == old(inodes[n].db)
      ensures WasCut(old(St()), St(), Direct(n, i))
    {
      CutDirect(St(), n, i);
      var blkno := inodes[n].direct[i];
      BlockFree(blkno);
      inodes := inodes[n := inodes[n].(direct := inodes[n].direct[i := 0])];
      owner := owner - {blkno};
    }

    method FreeInd(n: nat, i: nat)
      requires Valid() && n in inodes && At(St().w, IndData(n, i)) != 0
      modifies this, freemap.words
      ensures Mapped() && n in inodes && inodes[n].indirect == old(inodes[n].indirect) && inodes[n].db == old(inodes[n].db)
      ensures WasCut(old(St()), St(), IndData(n, i))
    {
      ghost var s, p := St(), IndData(n, i);
      ghost var v := At(s.w, p);
      CutInd(s, n, i);
      var indirect := inodes[n].indirect;
      assert v == Read(disk, indirect, i) == Word(disk[indirect], i);
      FreeIndirect(indirect, i);
      owner := owner - {v};
      assert St() == Cut(s, WithWord(s.w, indirect, i, 0), v);
    }

    method FreeSec(n: nat, j: nat, i: nat)
      requires Valid() && n in inodes && j < N_ENTRY && At(St().w, SecData(n, j, i)) != 0
      modifies this, freemap.words
      ensures Mapped() && n in inodes && inodes[n].indirect == old(inodes[n].indirect) && inodes[n].db == old(inodes[n].db)
      ensures WasCut(old(St()), St(), SecData(n, j, i))
    {
      ghost var s, p := St(), SecData(n, j, i);
      ghost var v := At(s.w, p);
      CutSec(s, n, j, i);
      IndexInUse(s, Db(n));
      ghost var how;
      var ret, db, second;
      ret, db, second, how := GetIndirect(inodes[n].db, j, false);
      assert v == Read(disk, second, i) == Word(disk[second], i);
      FreeIndirect(second, i);
      owner := owner - {v};
      assert St() == Cut(s, WithWord(s.w, second, i, 0), v);
    }

    /** sfs_block_truncate_nolock: the file loses its last block. */
    method BlockTruncate(n: nat)
      requires Valid() && AllFilled(St().w) && n in inodes && inodes[n].blocks != 0
      modifies this, freemap.words
      ensures Valid() && Lost(old(St()), St(), n)
    {
      ghost var s := St();
      assert Filled(s.w, n);
      var last: nat := inodes[n].blocks - 1;
      assert At(s.w, Data(n, last)) != 0;
      BlockFreeAt(n, last);
      LastLost(s, St(), n);
      inodes := inodes[n := inodes[n].(blocks := inodes[n].blocks - 1)];
    }

    /** sfs_truncate_file: the file is cut off or extended with zeros. The second requirement is the assertion on a file
        that has the wanted size already. Space runs out exactly when the blocks the file lacks are more than the free
        ones; the blocks added until then stay. */
    method TruncateFile(n: nat, len: int) returns (ret: int)
      requires Valid() && AllFilled(St().w) && n in inodes
      requires len == inodes[n].size <= MAX_FILE_SIZE ==> Settled(St().w, n)
      modifies this, freemap.words
      ensures Valid() && AllFilled(St().w) && (ret == 0 || ret == -E_INVAL || ret == -E_NO_MEM)
      ensures ret == -E_INVAL <==> len < 0 || len > MAX_FILE_SIZE
      ensures ret == -E_INVAL ==> St() == old(St())
      ensures ret == -E_NO_MEM <==> 0 <= len <= MAX_FILE_SIZE && |old(St()).free| < Short(old(St()).w, n, BlocksFor(len))
      ensures ret == 0 ==> TruncatedTo(old(St()), St(), n, len)
      ensures ret == -E_NO_MEM ==> Sized(old(St()), St(), n) && n in inodes && StuckAt(old(St()), n, inodes[n].blocks)
      ensures ret == -E_NO_MEM ==> old(inodes[n].blocks) <= inodes[n].blocks
    {
      if len < 0 || len > MAX_FILE_SIZE {
        return -E_INVAL;
      }
      ghost var s0 := St();
      var tblks := (len + BLK_SIZE - 1) / BLK_SIZE;
      assert Filled(s0.w, n);
      if tblks <= inodes[n].blocks {
        NothingShort(s0.w, n, tblks);
      }
      if inodes[n].size == len {
        AlreadyThere(s0, n);
        return 0;
      }
      ret := FitBlocks(n, tblks);
      if ret == 0 {
        ResizedTo(s0, St(), n, len);
        inodes := inodes[n := inodes[n].(size := len)];
        assert TruncatedLaw(Sound, s0, St(), n, len);
      } else {
        SizedFilled(s0, St(), n);
      }
    }

    /** Its two loops. */
    method FitBlocks(n: nat, tblks: nat) returns (ret: int)
      requires Valid() && AllFilled(St().w) && n in inodes && tblks <= MAX_BLOCKS
      modifies this, freemap.words
      ensures Valid() && Sized(old(St()), St(), n) && n in inodes && (ret == 0 || ret == -E_NO_MEM)
      ensures ret == 0 ==> inodes[n].blocks == tblks
      ensures ret == 0 && tblks > old(inodes[n].blocks) ==> |old(St()).free| >= Short(old(St()).w, n, tblks)
      ensures ret != 0 ==> old(inodes[n].blocks) <= inodes[n].blocks < tblks && StuckAt(old(St()), n, inodes[n].blocks)
      ensures ret != 0 ==> |old(St()).free| < Short(old(St()).w, n, tblks)
    {
      ghost var s0 := St();
      SizedStart(s0, n);
      ret := 0;
      if inodes[n].blocks < tblks {
        BalancedSame(s0, s0, n);
        ret := Lengthen(n, tblks, s0);
        if ret != 0 {
          NotEnough(s0, n, inodes[n].blocks, tblks);
        }
      } else {
        Shorten(n, tblks, s0);
      }
    }

    method Lengthen(n: nat, tblks: nat, ghost s0: Fs) returns (ret: int)
      requires Valid() && Sized(s0, St(), n) && n in inodes && n in s0.w.inodes && s0.w.inodes[n].blocks <= inodes[n].blocks <= tblks <= MAX_BLOCKS
      requires Balanced(s0, St(), n)
      modifies this, freemap.words
      ensures Valid() && Sized(s0, St(), n) && n in inodes && (ret == 0 || ret == -E_NO_MEM)
      ensures s0.w.inodes[n].blocks <= inodes[n].blocks
      ensures ret == 0 ==> inodes[n].blocks == tblks && |s0.free| >= Short(s0.w, n, tblks)
      ensures ret != 0 ==> inodes[n].blocks < tblks && StuckAt(s0, n, inodes[n].blocks)
    {
      ret := 0;
      var nblks := inodes[n].blocks;
      while nblks != tblks
        invariant Valid() && Sized(s0, St(), n) && n in inodes && s0.w.inodes[n].blocks <= nblks == inodes[n].blocks <= tblks && ret == 0
        invariant Balanced(s0, St(), n)
        decreases tblks - nblks
      {
        ret := LoadOne(n, s0);
        if ret != 0 {
          return;
        }
        nblks := nblks + 1;
      }
      SizedFilled(s0, St(), n);
      assert Filled(St().w, n);
      Enough(s0, St(), n, tblks);
    }

    /** One round of the loop that adds blocks. */
    method LoadOne(n: nat, ghost s0: Fs) returns (ret: int)
      requires Valid() && Sized(s0, St(), n) && n in inodes && n in s0.w.inodes && s0.w.inodes[n].blocks <= inodes[n].blocks < MAX_BLOCKS
      requires Balanced(s0, St(), n)
      modifies this, freemap.words
      ensures Valid() && Sized(s0, St(), n) && n in inodes && (ret == 0 || ret == -E_NO_MEM)
      ensures ret == 0 ==> inodes[n].blocks == old(inodes[n].blocks) + 1 && Balanced(s0, St(), n)
      ensures ret != 0 ==> inodes[n].blocks == old(inodes[n].blocks) && StuckAt(s0, n, inodes[n].blocks)
    {
      ghost var s := St();
      SizedFilled(s0, s, n);
      var b;
      ret, b := BlockLoad(n, inodes[n].blocks);
      SizedLoad(s0, s, St(), n, ret, b);
      if ret == 0 {
        BalancedLoad(s, St(), n);
        BalancedTrans(s0, s, St(), n);
      } else {
        assert Filled(s.w, n);
        Stuck(s0, s, n);
      }
    }

    method Shorten(n: nat, tblks: nat, ghost s0: Fs)
      requires Valid() && Sized(s0, St(), n) && n in inodes && n in s0.w.inodes && tblks <= inodes[n].blocks <= s0.w.inodes[n].blocks
      modifies this, freemap.words
      ensures Valid() && Sized(s0, St(), n) && n in inodes && inodes[n].blocks == tblks
    {
      var nblks := inodes[n].blocks;
      while tblks != nblks
        invariant Valid() && Sized(s0, St(), n) && n in inodes && tblks <= nblks == inodes[n].blocks <= s0.w.inodes[n].blocks
        decreases nblks
      {
        ghost var s := St();
        SizedFilled(s0, s, n);
        BlockTruncate(n);
        SizedLost(s0, s, St(), n);
        nblks := nblks - 1;
      }
    }

    // ---- sfs_reclaim

    method TruncateAll(n: nat)
      requires Valid() && AllFilled(St().w) && n in inodes
      modifies this, freemap.words
      ensures Valid() && Sized(old(St()), St(), n) && n in inodes && inodes[n].blocks == 0
      ensures St().free + OwnedBy(St(), n) == old(St()).free + OwnedBy(old(St()), n)
    {
      ghost var s0 := St();
      SizedStart(s0, n);
      while inodes[n].blocks != 0
        invariant Valid() && Sized(s0, St(), n) && n in inodes && inodes[n].blocks <= s0.w.inodes[n].blocks
        invariant St().free + OwnedBy(St(), n) == s0.free + OwnedBy(s0, n)
        decreases inodes[n].blocks
      {
        ghost var s := St();
        SizedFilled(s0, s, n);
        BlockTruncate(n);
        SizedLost(s0, s, St(), n);
        assert LostHolds(LostOwned, s, St(), n);
      }
    }

    /** sfs_block_free of a block that no place keeps any more. */
    method FreeLoose(b: nat)
      requires Mapped() && Inv(St()) && b in loose
      modifies this`unused, this`loose, freemap.words
      ensures Mapped() && Inv(St()) && St() == Released(old(St()), b)
    {
      LooseRange(St(), b);
      ReleaseKeeps(St(), b);
      BlockFree(b);
      loose := loose - {b};
    }

    /** The loop over the entries of a double-indirect block. */
    method FreeSeconds(db: nat)
      requires Mapped() && Inv(St()) && db in loose && Named1(disk, db) <= loose - {db} && Once(disk, db)
      modifies this`disk, this`unused, this`loose, freemap.words
      ensures Mapped() && Inv(St()) && Emptied(old(St()), St(), db, N_ENTRY)
    {
      ghost var s0 := St();
      var i := 0;
      EmptiedStart(s0, db);
      while i < N_ENTRY
        invariant 0 <= i <= N_ENTRY && Mapped() && Inv(St()) && Emptied(s0, St(), db, i)
      {
        ghost var s := St();
        EmptiedNext(s0, s, db, i);
        FreeSecond(db, i);
        EmptiedStep(s0, s, db, i);
        i := i + 1;
      }
    }

    method FreeSecond(db: nat, i: nat)
      requires Mapped() && Inv(St()) && db in loose && i < N_ENTRY && db < |disk|
      requires Read(disk, db, i) != 0 ==> Read(disk, db, i) in loose - {db}
      modifies this`disk, this`unused, this`loose, freemap.words
      ensures Mapped() && Inv(St()) && St() == Emptying(old(St()), db, i)
    {
      ghost var s := St();
      LooseRange(s, db);
      EmptyingKeeps(s, db, i);
      FreeIndirect(db, i);
      loose := loose - {Read(s.w.disk, db, i)};
    }

    /** An inode without links: its data, index and own blocks are all freed, and nothing else. */
    method Reclaim(n: nat)
      requires Valid() && AllFilled(St().w) && n in inodes && n != 0
      modifies this, freemap.words
      ensures Valid() && inodes.Keys == old(inodes.Keys) - {n}
      ensures AllFilled(St().w)
      ensures St().free == old(St()).free + OwnedBy(old(St()), n) && OwnedBy(old(St()), n) !! old(St()).free
      ensures forall m :: m in inodes ==> inodes[m].size == old(inodes[m].size) && Blocks(St().w, m) == Blocks(old(St()).w, m)
    {
      ghost var s0 := St();
      OwnedNotFree(s0, n);
      TruncateAll(n);
      ghost var s1 := St();
      EmptyOwns(s0, s1, n);
      DetachKeeps(s1, n);
      var d := inodes[n];
      inodes := inodes - {n};
      loose, owner := loose + OwnedBy(s1, n), owner - OwnedBy(s1, n);
      ghost var s2 := St();
      FreeOwn(n, d.indirect, d.db);
      RestKept(s0, s1, s2, St(), n, d.db);
      RestFilled(s0, s1, s2, St(), n, d.db);
    }

    /** The inode's own block and its index blocks. */
    method FreeOwn(n: nat, indirect: nat, db: nat)
      requires Mapped() && Inv(St()) && n != 0
      requires loose == {n} + (if indirect != 0 then {indirect} else {}) + (if db != 0 then {db} + Named1(disk, db) else {})
      requires n != indirect && n != db && (indirect != 0 ==> indirect != db)
      requires db != 0 ==> Once(disk, db) && n !in Named1(disk, db) && indirect !in Named1(disk, db) && db !in Named1(disk, db)
      modifies this`disk, this`unused, this`loose, freemap.words
      ensures Valid() && freemap.Free() == old(freemap.Free()) + old(loose)
      ensures if db in old(loose) then OnlyAt(old(St()), St(), db) else St().w == old(St()).w
    {
      FreeLoose(n);
      if indirect != 0 {
        FreeLoose(indirect);
      }
      if db != 0 {
        FreeSeconds(db);
        FreeLoose(db);
      }
    }
  }
}

/** A file as one flat sequence of bytes. */
module SfsFlat {
  import opened SfsDisk
  import opened SfsGrow

  // ---- sequences

  function Pad(len: nat): seq<Byte> {
    seq(len, i => 0)
  }

  /** Extended with zeros to a length. */
  function Grow(s: seq<Byte>, len: nat): (r: seq<Byte>)
    ensures |r| == if |s| < len then len else |s|
  {
    if |s| < len then s + Pad(len - |s|) else s
  }

  function Splice(s: seq<Byte>, off: nat, d: seq<Byte>): (r: seq<Byte>)
    requires off + |d| <= |s|
    ensures |r| == |s|
  {
    s[..off] + d + s[off + |d|..]
  }

  function Max(a: nat, b: nat): nat {
    if a < b then b else a
  }

  /** Writing `d` at `off`: what lies between the end and `off` becomes zero. */
  function Overwrite(s: seq<Byte>, off: nat, d: seq<Byte>): seq<Byte> {
    Splice(Grow(s, Max(|s|, off + |d|)), off, d)
  }

  lemma GrowTwice(s: seq<Byte>, a: nat, b: nat)
    requires a <= b
    ensures Grow(Grow(s, a), b) == Grow(s, b)
  {}

  lemma SpliceOn(s: seq<Byte>, off: nat, d: seq<Byte>, e: seq<Byte>, len: nat)
    requires off + |d| <= |s| && off + |d| + |e| <= |Grow(s, len)|
    ensures Splice(Grow(Splice(s, off, d), len), off + |d|, e) == Splice(Grow(s, len), off, d + e)
  {}

  /** A write to the padded file is a write to the file. */
  lemma WriteMeans(c: seq<Byte>, off: nat, d: seq<Byte>, len: nat)
    requires off + |d| <= len && |c| <= len
    ensures Splice(Grow(c, len), off, d) == Grow(Overwrite(c, off, d), len)
    ensures |Overwrite(c, off, d)| == Max(|c|, off + |d|)
  {}

  lemma SpliceFront(a: seq<Byte>, b: seq<Byte>, off: nat, d: seq<Byte>)
    requires off + |d| <= |a|
    ensures Splice(a + b, off, d) == Splice(a, off, d) + b
  {}

  lemma SpliceBack(a: seq<Byte>, b: seq<Byte>, off: nat, d: seq<Byte>)
    requires off + |d| <= |b|
    ensures Splice(a + b, |a| + off, d) == a + Splice(b, off, d)
  {}

  /** Reading after writing: what was written is there, and every other byte is as before. */
  lemma ReadBack(c: seq<Byte>, off: nat, d: seq<Byte>, i: nat)
    requires off <= |c| && i < |Overwrite(c, off, d)|
    ensures Overwrite(c, off, d)[off..off + |d|] == d
    ensures i < off || off + |d| <= i ==> i < |c| && Overwrite(c, off, d)[i] == c[i]
  {}

  // ---- the blocks of a file

  ghost function Cat(bs: seq<Block>): (s: seq<Byte>)
    ensures |s| == |bs| * BLK_SIZE
  {
    if bs == [] then [] else Cat(bs[..|bs| - 1]) + bs[|bs| - 1]
  }

  lemma {:induction false} CatPatch(bs: seq<Block>, i: nat, off: nat, d: seq<Byte>)
    requires i < |bs| && off + |d| <= BLK_SIZE
    ensures i * BLK_SIZE + off + |d| <= |bs| * BLK_SIZE
    ensures Cat(bs[i := Patch(bs[i], off, d)]) == Splice(Cat(bs), i * BLK_SIZE + off, d)
    decreases |bs|
  {
    var k := |bs| - 1;
    var bs' := bs[i := Patch(bs[i], off, d)];
    if i < k {
      CatPatch(bs[..k], i, off, d);
      assert bs'[..k] == bs[..k][i := Patch(bs[..k][i], off, d)];
      SpliceFront(Cat(bs[..k]), bs[k], i * BLK_SIZE + off, d);
    } else {
      assert bs'[..k] == bs[..k];
      SpliceBack(Cat(bs[..k]), bs[k], off, d);
    }
  }

  lemma {:induction false} CatPiece(bs: seq<Block>, i: nat, off: nat, len: nat)
    requires i < |bs| && off + len <= BLK_SIZE
    ensures i * BLK_SIZE + off + len <= |bs| * BLK_SIZE
    ensures Cat(bs)[i * BLK_SIZE + off..i * BLK_SIZE + off + len] == bs[i][off..off + len]
    decreases |bs|
  {
    var k := |bs| - 1;
    if i < k {
      CatPiece(bs[..k], i, off, len);
      assert Cat(bs)[i * BLK_SIZE + off..i * BLK_SIZE + off + len] == Cat(bs[..k])[i * BLK_SIZE + off..i * BLK_SIZE + off + len];
    }
  }

  lemma CatMore(bs: seq<Block>, b: Block)
    ensures Cat(bs + [b]) == Cat(bs) + b
  {
    assert (bs + [b])[..|bs|] == bs;
  }

  ghost function Blocks(w: World, n: nat): (bs: seq<Block>)
    requires n in w.inodes
    ensures |bs| == w.inodes[n].blocks && forall i :: 0 <= i < |bs| ==> bs[i] == Content(w, At(w, Data(n, i)))
  {
    seq(w.inodes[n].blocks, i requires 0 <= i => Content(w, At(w, Data(n, i))))
  }

  ghost function Flat(w: World, n: nat): (s: seq<Byte>)
    requires n in w.inodes
    ensures |s| == w.inodes[n].blocks * BLK_SIZE
  {
    Cat(Blocks(w, n))
  }

  // ---- files

  /** The bytes of a file. */
  ghost function Contents(w: World, n: nat): seq<Byte>
    requires n in w.inodes && w.inodes[n].size <= w.inodes[n].blocks * BLK_SIZE
  {
    Flat(w, n)[..w.inodes[n].size]
  }

  /** `blocks` is the size in blocks, rounded up, and the rest of the last block is zero. */
  ghost predicate FileOk(w: World, n: nat)
    requires n in w.inodes
  {
    var d := w.inodes[n];
    && d.size <= d.blocks * BLK_SIZE < d.size + BLK_SIZE
    && Flat(w, n) == Grow(Contents(w, n), d.blocks * BLK_SIZE)
  }

  // ---- a write in progress

  /** The blocks of a file after writing `d` at `off`, with blocks of zeros added as needed. The write may start
      in the file or in the block after its end. */
  ghost predicate Written(was: seq<Byte>, now: seq<Byte>, off: nat, d: seq<Byte>) {
    if d == [] then now == was && off < |was| + BLK_SIZE
    else
      && |was| <= |now| && off + |d| <= |now| && now == Splice(Grow(was, |now|), off, d)
      && (|now| == |was| || |now| < off + |d| + BLK_SIZE)
  }

  lemma WrittenMore(was: seq<Byte>, mid: seq<Byte>, now: seq<Byte>, off: nat, d: seq<Byte>, e: seq<Byte>, len: nat)
    requires Written(was, mid, off, d) && |e| > 0 && off + |d| + |e| <= len < off + |d| + |e| + BLK_SIZE
    requires now == Splice(Grow(mid, len), off + |d|, e)
    ensures Written(was, now, off, d + e)
  {
    if d == [] {
      assert d + e == e;
    } else {
      SpliceOn(Grow(was, |mid|), off, d, e, len);
      if |mid| <= len {
        GrowTwice(was, |mid|, len);
      }
    }
  }

  /** In terms of the bytes of a file whose last block is filled up with zeros. */
  lemma WrittenFile(c: seq<Byte>, was: seq<Byte>, now: seq<Byte>, off: nat, d: seq<Byte>)
    requires Written(was, now, off, d) && |c| <= |was| && was == Grow(c, |was|) && (off <= |c| || d != [])
    ensures now == Grow(Overwrite(c, off, d), |now|) && |Overwrite(c, off, d)| == Max(|c|, off + |d|)
    ensures now[..Max(|c|, off + |d|)] == Overwrite(c, off, d)
  {
    if d == [] {
      assert Overwrite(c, off, d) == c;
    } else {
      GrowTwice(c, |was|, |now|);
      WriteMeans(c, off, d, |now|);
    }
  }

  /** In terms of the bytes of any file, for a write that leaves no gap. */
  lemma WrittenBytes(was: seq<Byte>, now: seq<Byte>, size: nat, off: nat, d: seq<Byte>)
    requires Written(was, now, off, d) && off <= size <= |was|
    ensures Max(size, off + |d|) <= |now| && now[..Max(size, off + |d|)] == Overwrite(was[..size], off, d)
  {
  }
}

/** bitmap.c: the freemap, one bit for each block, set while the block is free. */
module SfsBitmap {

  const WORD_BITS: nat := 32
  const E_NO_MEM: int := 4

  /** A 32-bit word by its bits, lowest first. */
  type BitWord = w: seq<bool> | |w| == WORD_BITS witness seq(WORD_BITS, i => false)

  predicate IsZero(w: BitWord) {
    forall k :: 0 <= k < WORD_BITS ==> !w[k]
  }

  /** w ^ (1 << k) */
  function Flip(w: BitWord, k: nat): BitWord
    requires k < WORD_BITS
  {
    w[k := !w[k]]
  }

  predicate InMap(s: seq<BitWord>, i: nat) {
    i / WORD_BITS < |s| && s[i / WORD_BITS][i % WORD_BITS]
  }

  ghost function Bits(s: seq<BitWord>): set<nat> {
    set i: nat | i < WORD_BITS * |s| && InMap(s, i)
  }

  lemma Split(ix: nat, off: nat)
    requires off < WORD_BITS
    ensures (ix * WORD_BITS + off) / WORD_BITS == ix && (ix * WORD_BITS + off) % WORD_BITS == off
  {}

  lemma Compose(i: nat)
    ensures i == i / WORD_BITS * WORD_BITS + i % WORD_BITS && i % WORD_BITS < WORD_BITS
  {}

  /** How one bit's change shows in the set. */
  lemma BitChange(s: seq<BitWord>, ix: nat, off: nat, bit: bool)
    requires ix < |s| && off < WORD_BITS
    ensures var i := ix * WORD_BITS + off;
      Bits(s[ix := s[ix][off := bit]]) == if bit then Bits(s) + {i} else Bits(s) - {i}
  {
    var i, s' := ix * WORD_BITS + off, s[ix := s[ix][off := bit]];
    Split(ix, off);
    forall x: nat ensures InMap(s', x) <==> if x == i then bit else InMap(s, x) {
      Compose(x);
    }
  }

  lemma WordEmpty(s: seq<BitWord>, ix: nat)
    requires ix < |s| && IsZero(s[ix]) && forall i :: i in Bits(s) ==> i >= ix * WORD_BITS
    ensures forall i :: i in Bits(s) ==> i >= (ix + 1) * WORD_BITS
  {
    forall i | i in Bits(s) ensures i >= (ix + 1) * WORD_BITS {
      Compose(i);
    }
  }

  lemma LowestIn(s: seq<BitWord>, ix: nat, off: nat)
    requires ix < |s| && off < WORD_BITS && s[ix][off] && (forall j :: 0 <= j < off ==> !s[ix][j])
    requires forall i :: i in Bits(s) ==> i >= ix * WORD_BITS
    ensures ix * WORD_BITS + off in Bits(s) && forall i :: i in Bits(s) ==> ix * WORD_BITS + off <= i
  {
    Split(ix, off);
    assert InMap(s, ix * WORD_BITS + off);
    forall i | i in Bits(s) ensures ix * WORD_BITS + off <= i {
      Compose(i);
    }
  }

  class Bitmap {
    const nbits: nat
    const words: array<BitWord>

    ghost function Free(): set<nat>
      reads words
    {
      Bits(words[..])
    }

    ghost predicate Valid()
      reads words
    {
      nbits <= words.Length * WORD_BITS && forall i :: i in Free() ==> i < nbits
    }

    /** bitmap_create: every bit of the map set, and none of the spare bits of the last word. */
    constructor (n: nat)
      requires n > 0
      ensures Valid() && nbits == n && fresh(words) && forall i: nat :: i in Free() <==> i < n
      ensures words.Length == (n + WORD_BITS - 1) / WORD_BITS
    {
      nbits := n;
      var nwords := (n + WORD_BITS - 1) / WORD_BITS;
      words := new BitWord[nwords](i => seq(WORD_BITS, j => true));
      new;
      AllOnes(words[..]);
      if n != nwords * WORD_BITS {
        ClearSpare(nwords - 1, n - (nwords - 1) * WORD_BITS);
      }
    }

    /** Clear the bits of word ix from `from` on, which are all set. */
    method ClearSpare(ix: nat, from: nat)
      requires ix < words.Length && from <= WORD_BITS && forall k :: from <= k < WORD_BITS ==> words[ix][k]
      modifies words
      ensures forall i: nat :: i in Free() <==> i in old(Free()) && !(ix * WORD_BITS + from <= i < (ix + 1) * WORD_BITS)
    {
      var over := from;
      while over < WORD_BITS
        invariant from <= over <= WORD_BITS && forall k :: over <= k < WORD_BITS ==> words[ix][k]
        invariant forall i: nat :: i in Free() <==> i in old(Free()) && !(ix * WORD_BITS + from <= i < ix * WORD_BITS + over)
      {
        FlipBit(ix, over);
        over := over + 1;
      }
    }

    /** map[ix] ^= 1 << off, for a bit that is set. */
    method FlipBit(ix: nat, off: nat)
      requires ix < words.Length && off < WORD_BITS && words[ix][off]
      modifies words
      ensures Free() == old(Free()) - {ix * WORD_BITS + off} && words[ix] == old(words[ix])[off := false]
    {
      BitChange(words[..], ix, off, false);
      words[ix] := Flip(words[ix], off);
      assert words[..] == old(words[..])[ix := old(words[ix])[off := false]];
    }

    /** Take the lowest set bit. */
    method Alloc() returns (ret: int, index: nat)
      requires Valid()
      modifies words
      ensures Valid() && ret == if old(Free()) == {} then -E_NO_MEM else 0
      ensures ret == 0 ==> index in old(Free()) && (forall i :: i in old(Free()) ==> index <= i) && Free() == old(Free()) - {index}
      ensures ret != 0 ==> Free() == old(Free())
    {
      index := 0;
      var ix := 0;
      while ix < words.Length
        invariant 0 <= ix <= words.Length && words[..] == old(words[..])
        invariant forall i :: i in Free() ==> i >= ix * WORD_BITS
      {
        if !IsZero(words[ix]) {
          index := TakeFrom(ix);
          return 0, index;
        }
        WordEmpty(words[..], ix);
        ix := ix + 1;
      }
      assert Free() == {};
      return -E_NO_MEM, 0;
    }

    /** The inner loop: the lowest bit of a word that is not zero. */
    method TakeFrom(ix: nat) returns (index: nat)
      requires ix < words.Length && !IsZero(words[ix]) && forall i :: i in Free() ==> i >= ix * WORD_BITS
      modifies words
      ensures index in old(Free()) && (forall i :: i in old(Free()) ==> index <= i) && Free() == old(Free()) - {index}
    {
      var off := 0;
      ghost var k :| 0 <= k < WORD_BITS && words[ix][k];
      while !words[ix][off]
        invariant 0 <= off <= k && words[..] == old(words[..])
        invariant forall j :: 0 <= j < off ==> !words[ix][j]
        decreases k - off
      {
        off := off + 1;
      }
      assert words[..][ix] == words[ix] && old(Free()) == Bits(words[..]);
      LowestIn(words[..], ix, off);
      FlipBit(ix, off);
      index := ix * WORD_BITS + off;
    }

    method Test(index: nat) returns (set_: bool)
      requires Valid() && index < nbits
      ensures set_ <==> index in Free()
    {
      Compose(index);
      set_ := words[index / WORD_BITS][index % WORD_BITS];
    }

    /** The words of a stored map replace the ones made at creation. */
    method Load(data: seq<BitWord>)
      requires |data| == words.Length && nbits <= words.Length * WORD_BITS && forall i :: i in Bits(data) ==> i < nbits
      modifies words
      ensures Valid() && Free() == Bits(data)
    {
      forall i | 0 <= i < words.Length {
        words[i] := data[i];
      }
      assert words[..] == data;
    }

    /** The mount-time count of free blocks. */
    method Count() returns (n: nat)
      requires Valid()
      ensures n == |Free()|
    {
      n := 0;
      ghost var seen: set<nat> := {};
      for i := 0 to nbits
        invariant n == |seen| && forall b: nat :: b in seen <==> b in Free() && b < i
      {
        var bit := Test(i);
        if bit {
          n := n + 1;
          seen := seen + {i};
        }
      }
      assert seen == Free();
    }

    method Release(index: nat)
      requires Valid() && index < nbits && index !in Free()
      modifies words
      ensures Valid() && Free() == old(Free()) + {index}
    {
      Compose(index);
      var ix, off := index / WORD_BITS, index % WORD_BITS;
      BitChange(words[..], ix, off, true);
      words[ix] := words[ix][off := true];
      assert words[..] == old(words[..])[ix := old(words[ix])[off := true]];
    }
  }

  lemma AllOnes(s: seq<BitWord>)
    requires forall i, j :: 0 <= i < |s| && 0 <= j < WORD_BITS ==> s[i][j]
    ensures forall i: nat :: i in Bits(s) <==> i < WORD_BITS * |s|
  {}
}

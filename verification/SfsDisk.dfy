/** The disk of a simple file system: blocks of bytes, index words in them, and where each block number is kept. */
module SfsDisk {

  const BLK_SIZE: nat := 4096
  const N_DIRECT: nat := 12
  const N_ENTRY: nat := 1024
  const MAX_FILE_SIZE: nat := 1024 * 1024 * 128
  const MAX_BLOCKS: nat := 32768
  const WORD: nat := 0x1_0000_0000

  type Byte = x: int | 0 <= x < 256
  type Block = s: seq<Byte> | |s| == BLK_SIZE witness seq(BLK_SIZE, i => 0)

  function Zeros(): Block {
    seq(BLK_SIZE, i => 0)
  }

  // ---- 32-bit words, little endian

  function Value(a: int, b: int, c: int, d: int): int {
    a + 0x100 * b + 0x1_0000 * c + 0x100_0000 * d
  }

  function Word(b: Block, i: nat): (w: nat)
    requires i < N_ENTRY
    ensures w < WORD
  {
    Value(b[4 * i], b[4 * i + 1], b[4 * i + 2], b[4 * i + 3])
  }

  function Bytes(w: nat): (s: seq<Byte>)
    requires w < WORD
    ensures |s| == 4
  {
    var a := w / 0x100;
    var b := a / 0x100;
    [w % 0x100, a % 0x100, b % 0x100, b / 0x100]
  }

  /** sfs_wbuf: read the block, overwrite part of it, write it back. */
  function Patch(b: Block, off: nat, data: seq<Byte>): Block
    requires off + |data| <= BLK_SIZE
  {
    b[..off] + data + b[off + |data|..]
  }

  function SetWord(b: Block, i: nat, w: nat): Block
    requires i < N_ENTRY && w < WORD
  {
    Patch(b, 4 * i, Bytes(w))
  }

  lemma BytesValue(w: nat)
    requires w < WORD
    ensures var s := Bytes(w); Value(s[0], s[1], s[2], s[3]) == w
  {}

  lemma WordSet(b: Block, i: nat, w: nat, j: nat)
    requires i < N_ENTRY && j < N_ENTRY && w < WORD
    ensures Word(SetWord(b, i, w), j) == if i == j then w else Word(b, j)
  {
    BytesValue(w);
    var b' := SetWord(b, i, w);
    if i == j {
      assert b'[4 * i] == Bytes(w)[0] && b'[4 * i + 1] == Bytes(w)[1] && b'[4 * i + 2] == Bytes(w)[2] && b'[4 * i + 3] == Bytes(w)[3];
    } else {
      assert b'[4 * j] == b[4 * j] && b'[4 * j + 1] == b[4 * j + 1] && b'[4 * j + 2] == b[4 * j + 2] && b'[4 * j + 3] == b[4 * j + 3];
    }
  }

  lemma WordZero(i: nat)
    requires i < N_ENTRY
    ensures Word(Zeros(), i) == 0
  {}

  // ---- inodes and the places a block number can be kept in

  /** SfsDiskInode, as held in memory. */
  datatype Inode = Inode(size: nat, blocks: nat, direct: seq<nat>, indirect: nat, db: nat)

  datatype World = World(disk: seq<Block>, inodes: map<nat, Inode>)

  datatype Place =
    | Self(ino: nat)                      // the inode's own block
    | Direct(ino: nat, i: nat)
    | Ind(ino: nat)                       // the indirect block
    | IndData(ino: nat, i: nat)           // a data block named in it
    | Db(ino: nat)                        // the double-indirect block
    | Sec(ino: nat, j: nat)               // a second-level block named in it
    | SecData(ino: nat, j: nat, k: nat)   // a data block named in a second-level block

  function Read(disk: seq<Block>, b: nat, i: nat): nat {
    if b != 0 && b < |disk| && i < N_ENTRY then Word(disk[b], i) else 0
  }

  function IndOf(w: World, n: nat): nat {
    if n in w.inodes then w.inodes[n].indirect else 0
  }

  function DbOf(w: World, n: nat): nat {
    if n in w.inodes then w.inodes[n].db else 0
  }

  function SecOf(w: World, n: nat, j: nat): nat {
    Read(w.disk, DbOf(w, n), j)
  }

  /** The block number kept in a place, 0 if none. */
  function At(w: World, p: Place): nat {
    match p
    case Self(n) => if n in w.inodes then n else 0
    case Direct(n, i) => if n in w.inodes && i < |w.inodes[n].direct| then w.inodes[n].direct[i] else 0
    case Ind(n) => IndOf(w, n)
    case IndData(n, i) => Read(w.disk, IndOf(w, n), i)
    case Db(n) => DbOf(w, n)
    case Sec(n, j) => SecOf(w, n, j)
    case SecData(n, j, k) => Read(w.disk, SecOf(w, n, j), k)
  }

  /** The place of the number of file block i. */
  function Data(n: nat, i: nat): Place {
    if i < N_DIRECT then Direct(n, i)
    else if i < N_DIRECT + N_ENTRY then IndData(n, i - N_DIRECT)
    else SecData(n, (i - N_DIRECT - N_ENTRY) / N_ENTRY, (i - N_DIRECT - N_ENTRY) % N_ENTRY)
  }

  predicate IsData(p: Place) {
    p.Direct? || p.IndData? || p.SecData?
  }

  lemma DataInjective(n: nat, i: nat, m: nat, j: nat)
    requires Data(n, i) == Data(m, j)
    ensures n == m && i == j
  {
    var a, b := i - N_DIRECT - N_ENTRY, j - N_DIRECT - N_ENTRY;
    if i >= N_DIRECT + N_ENTRY && j >= N_DIRECT + N_ENTRY {
      assert a == a / N_ENTRY * N_ENTRY + a % N_ENTRY;
      assert b == b / N_ENTRY * N_ENTRY + b % N_ENTRY;
    }
  }
}

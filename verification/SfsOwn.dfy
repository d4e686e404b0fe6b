/** Who owns which block: every block in use is kept in one place, and every place keeps a block in use. */
module SfsOwn {
  import opened SfsDisk

  /** The file system: disk and inodes, the freemap, and (for the proofs) the owner of each block in use. */
  datatype Fs = Fs(w: World, free: set<nat>, unused: nat, owner: map<nat, Place>, loose: set<nat>, reserved: set<nat>)

  datatype Law = Parts | Counted | Kept | Named | Fields

  ghost predicate Holds(law: Law, s: Fs) {
    match law
    // a block is free, reserved, owned, or allocated and about to be stored somewhere
    case Parts =>
      PartsOk(|s.w.disk|, s.free, s.reserved, s.loose, s.owner.Keys)
    case Counted => s.unused == |s.free|
    case Kept => forall b :: b in s.owner ==> b != 0 && At(s.w, s.owner[b]) == b
    case Named => forall p :: At(s.w, p) != 0 ==> At(s.w, p) in s.owner && s.owner[At(s.w, p)] == p
    case Fields => forall n :: n in s.w.inodes ==> |s.w.inodes[n].direct| == N_DIRECT && s.w.inodes[n].blocks <= MAX_BLOCKS
  }

  ghost predicate PartsOk(blocks: nat, free: set<nat>, reserved: set<nat>, loose: set<nat>, owned: set<nat>) {
    && 0 in reserved && blocks <= WORD
    && free !! reserved && free !! loose && free !! owned && reserved !! loose && reserved !! owned && loose !! owned
    && (forall b: nat :: b < blocks <==> b in free || b in reserved || b in loose || b in owned)
  }

  ghost predicate Inv(s: Fs) {
    forall law :: Holds(law, s)
  }

  /** A file has exactly its first `blocks` data blocks. */
  ghost predicate Filled(w: World, n: nat) {
    n in w.inodes ==> forall i: nat :: At(w, Data(n, i)) != 0 <==> i < w.inodes[n].blocks
  }

  ghost predicate AllFilled(w: World) {
    forall n :: Filled(w, n)
  }

  /** No two places keep the same block. */
  lemma NoSharing(s: Fs, p: Place, q: Place)
    requires Inv(s) && At(s.w, p) == At(s.w, q) != 0
    ensures p == q
  {
    assert Holds(Named, s);
  }

  /** Every block in use has exactly one owner, and only reserved blocks have none, once nothing is in the making. */
  lemma EveryBlockAccounted(s: Fs, b: nat)
    requires Inv(s) && s.loose == {} && b < |s.w.disk| && b !in s.free && b !in s.reserved
    ensures exists p :: At(s.w, p) == b && forall q :: At(s.w, q) == b ==> q == p
  {
    assert Holds(Parts, s) && Holds(Kept, s) && Holds(Named, s);
    var p := s.owner[b];
    assert At(s.w, p) == b;
  }

  lemma Range(s: Fs, p: Place)
    requires Inv(s) && At(s.w, p) != 0
    ensures At(s.w, p) in s.owner && s.owner[At(s.w, p)] == p && At(s.w, p) < |s.w.disk| <= WORD
    ensures At(s.w, p) !in s.free && At(s.w, p) !in s.loose
  {
    assert Holds(Named, s) && Holds(Parts, s);
  }

  lemma LooseRange(s: Fs, b: nat)
    requires Inv(s) && b in s.loose
    ensures 0 < b < |s.w.disk| <= WORD && b !in s.owner && b !in s.free && b !in s.reserved
  {
    assert Holds(Parts, s);
  }

  // ---- writing a block

  /** `b` does not hold block numbers that any place is read through. */
  ghost predicate NotIndex(w: World, b: nat) {
    && (forall n :: IndOf(w, n) != b && DbOf(w, n) != b)
    && (forall n, j :: SecOf(w, n, j) != b)
  }

  /** Then writing it changes no place. */
  lemma WriteFrame(w: World, b: nat, x: Block, p: Place)
    requires b != 0 && b < |w.disk| && NotIndex(w, b)
    ensures At(w.(disk := w.disk[b := x]), p) == At(w, p)
  {
    match p
    case Self(n) =>
    case Direct(n, i) =>
    case Ind(n) =>
    case IndData(n, i) => assert IndOf(w, n) != b;
    case Db(n) =>
    case Sec(n, j) => assert DbOf(w, n) != b;
    case SecData(n, j, k) => assert DbOf(w, n) != b && SecOf(w, n, j) != b;
  }

  lemma LooseIsNotIndex(s: Fs, b: nat)
    requires Inv(s) && b != 0 && (b in s.loose || b in s.free || (b in s.owner && IsData(s.owner[b])))
    ensures NotIndex(s.w, b)
  {
    assert Holds(Parts, s);
    forall n ensures IndOf(s.w, n) != b && DbOf(s.w, n) != b {
      PlaceIsNot(s, Ind(n), b);
      PlaceIsNot(s, Db(n), b);
    }
    forall n, j ensures SecOf(s.w, n, j) != b {
      PlaceIsNot(s, Sec(n, j), b);
    }
  }

  lemma PlaceIsNot(s: Fs, p: Place, b: nat)
    requires Inv(s) && b != 0 && !IsData(p) && (b in s.loose || b in s.free || (b in s.owner && IsData(s.owner[b])))
    ensures At(s.w, p) != b
  {
    if At(s.w, p) != 0 {
      Range(s, p);
    }
  }

  // ---- allocation and release

  ghost function Allocated(s: Fs, b: nat): Fs
    requires b < |s.w.disk| && s.unused > 0
  {
    s.(w := s.w.(disk := s.w.disk[b := Zeros()]), free := s.free - {b}, unused := s.unused - 1, loose := s.loose + {b})
  }

  lemma AllocKeeps(s: Fs, b: nat)
    requires Inv(s) && b in s.free
    ensures 0 < b < |s.w.disk| && s.unused > 0 && Inv(Allocated(s, b))
    ensures forall p :: At(Allocated(s, b).w, p) == At(s.w, p)
  {
    assert Holds(Parts, s) && Holds(Counted, s);
    AllocPlaces(s, b);
    var s' := Allocated(s, b);
    assert Holds(Fields, s) && Holds(Kept, s) && Holds(Named, s);
    forall law ensures Holds(law, s') {
      match law
      case Parts =>
      case Counted => assert |s.free - {b}| == |s.free| - 1;
      case Kept =>
      case Named =>
      case Fields =>
    }
  }

  lemma AllocPlaces(s: Fs, b: nat)
    requires Inv(s) && b in s.free
    ensures 0 < b < |s.w.disk| && s.unused > 0
    ensures forall p :: At(Allocated(s, b).w, p) == At(s.w, p)
  {
    assert Holds(Parts, s) && Holds(Counted, s);
    assert |s.free| > 0;
    LooseIsNotIndex(s, b);
    forall p ensures At(Allocated(s, b).w, p) == At(s.w, p) {
      WriteFrame(s.w, b, Zeros(), p);
    }
  }

  ghost function Released(s: Fs, b: nat): Fs {
    s.(free := s.free + {b}, unused := s.unused + 1, loose := s.loose - {b})
  }

  lemma ReleaseKeeps(s: Fs, b: nat)
    requires Inv(s) && b in s.loose
    ensures Inv(Released(s, b))
  {
    assert Holds(Parts, s) && Holds(Counted, s) && Holds(Fields, s) && Holds(Kept, s) && Holds(Named, s);
    var s' := Released(s, b);
    forall law ensures Holds(law, s') {
      match law
      case Parts =>
      case Counted =>
      case Kept =>
      case Named =>
      case Fields =>
    }
  }

  // ---- storing a block number in a place, and clearing it

  /** Only place `p` differs, and it now keeps `v`. */
  ghost predicate Stores(w: World, w': World, p: Place, v: nat) {
    && |w'.disk| == |w.disk| && At(w', p) == v
    && (forall q :: q != p ==> At(w', q) == At(w, q))
    && (forall n :: n in w'.inodes ==> n in w.inodes && |w'.inodes[n].direct| == |w.inodes[n].direct| && w'.inodes[n].blocks == w.inodes[n].blocks)
  }

  lemma HangKeeps(s: Fs, w': World, p: Place, v: nat)
    requires Inv(s) && v in s.loose && At(s.w, p) == 0 && Stores(s.w, w', p, v)
    ensures Inv(s.(w := w', owner := s.owner[v := p], loose := s.loose - {v}))
  {
    LooseRange(s, v);
    assert Holds(Parts, s) && Holds(Counted, s) && Holds(Fields, s) && Holds(Kept, s) && Holds(Named, s);
    var s' := s.(w := w', owner := s.owner[v := p], loose := s.loose - {v});
    forall law ensures Holds(law, s') {
      match law
      case Parts =>
      case Counted =>
      case Kept =>
        forall b | b in s'.owner ensures b != 0 && At(w', s'.owner[b]) == b {
          assert b != v ==> At(s.w, s.owner[b]) == b;
        }
      case Named =>
      case Fields =>
    }
  }

  lemma UnhangKeeps(s: Fs, w': World, p: Place, v: nat)
    requires Inv(s) && v != 0 && At(s.w, p) == v && Stores(s.w, w', p, 0)
    ensures v in s.owner && Inv(s.(w := w', owner := s.owner - {v}, loose := s.loose + {v}))
  {
    Range(s, p);
    assert Holds(Parts, s) && Holds(Counted, s) && Holds(Fields, s) && Holds(Kept, s) && Holds(Named, s);
    var s' := s.(w := w', owner := s.owner - {v}, loose := s.loose + {v});
    forall law ensures Holds(law, s') {
      match law
      case Parts =>
      case Counted =>
      case Kept =>
        forall b | b in s'.owner ensures b != 0 && At(w', s'.owner[b]) == b {
          assert At(s.w, s.owner[b]) == b;
        }
      case Named =>
      case Fields =>
    }
  }

  /** Changes that leave every place as it is. */
  lemma SameKeeps(s: Fs, w': World)
    requires Inv(s) && |w'.disk| == |s.w.disk| && (forall p :: At(w', p) == At(s.w, p))
    requires forall n :: n in w'.inodes ==> |w'.inodes[n].direct| == N_DIRECT && w'.inodes[n].blocks <= MAX_BLOCKS
    ensures Inv(s.(w := w'))
  {
    assert Holds(Parts, s) && Holds(Counted, s) && Holds(Fields, s) && Holds(Kept, s) && Holds(Named, s);
    var s' := s.(w := w');
    forall law ensures Holds(law, s') {
      match law
      case Parts =>
      case Counted =>
      case Kept =>
        forall b | b in s'.owner ensures b != 0 && At(w', s'.owner[b]) == b {
          assert At(s.w, s.owner[b]) == b;
        }
      case Named =>
      case Fields =>
    }
  }

  // ---- all blocks of one inode

  /** The blocks owned by an inode: its own, its index blocks and its data blocks. */
  ghost function OwnedBy(s: Fs, n: nat): set<nat> {
    set b | b in s.owner && s.owner[b].ino == n
  }

  /** The file system without the inode, whose blocks are left without an owner. */
  ghost function Detached(s: Fs, n: nat): Fs {
    s.(w := s.w.(inodes := s.w.inodes - {n}), owner := s.owner - OwnedBy(s, n), loose := s.loose + OwnedBy(s, n))
  }

  lemma DetachPlaces(w: World, n: nat, p: Place)
    ensures At(w.(inodes := w.inodes - {n}), p) == if p.ino == n then 0 else At(w, p)
  {
    var w' := w.(inodes := w.inodes - {n});
    assert IndOf(w', p.ino) == if p.ino == n then 0 else IndOf(w, p.ino);
    assert DbOf(w', p.ino) == if p.ino == n then 0 else DbOf(w, p.ino);
  }

  lemma DetachKeeps(s: Fs, n: nat)
    requires Inv(s)
    ensures Inv(Detached(s, n))
  {
    assert Holds(Parts, s) && Holds(Counted, s) && Holds(Fields, s) && Holds(Kept, s) && Holds(Named, s);
    var s' := Detached(s, n);
    forall p ensures At(s'.w, p) == if p.ino == n then 0 else At(s.w, p) {
      DetachPlaces(s.w, n, p);
    }
    forall law ensures Holds(law, s') {
      match law
      case Parts =>
      case Counted =>
      case Kept =>
      case Named =>
      case Fields =>
    }
  }
}

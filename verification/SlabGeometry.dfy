/** slab.c: how many objects of a size go into a slab, and where the control block lives. */
module SlabGeometry {
  import opened BuddyMath

  const PAGE_SIZE := 4096
  const HEADER_SIZE := 24
  const BUFCTL_SIZE := 4
  const SLAB_LIMIT := 0xFFFF_FFFE
  const KMALLOC_MAX_ORDER := 10
  const MIN_SIZE_ORDER := 5
  const MAX_SIZE_ORDER := 17
  const ALIGN := 16

  /** num objects from offset on; the control block is in front of them or in another cache. */
  datatype Geometry = Geometry(objsize: nat, num: nat, offset: nat, order: nat, offSlab: bool)

  function SlabSize(order: nat): (r: nat)
    ensures r >= PAGE_SIZE
  {
    PAGE_SIZE * Pow2(order)
  }

  function RoundUp(a: nat): (r: nat)
    ensures a <= r < a + ALIGN && r % ALIGN == 0
  {
    (a + ALIGN - 1) / ALIGN * ALIGN
  }

  function MgmtSize(num: nat): (r: nat)
    ensures HEADER_SIZE + BUFCTL_SIZE * num <= r < HEADER_SIZE + BUFCTL_SIZE * num + ALIGN
  {
    RoundUp(HEADER_SIZE + BUFCTL_SIZE * num)
  }

  function Need(n: nat, objsize: nat, offSlab: bool): nat {
    (if offSlab then 0 else MgmtSize(n)) + n * objsize
  }

  /** num is the greatest number of objects that fit. */
  ghost predicate Best(num: nat, order: nat, objsize: nat, offSlab: bool) {
    && Need(num, objsize, offSlab) <= SlabSize(order)
    && forall n: nat :: n > num ==> Need(n, objsize, offSlab) > SlabSize(order)
  }

  /** More than a / b units of b do not go into a. */
  lemma PastQuotient(a: nat, b: nat, n: nat)
    requires b > 0 && n > a / b
    ensures n * b > a
  {
    assert a == a / b * b + a % b;
    Product(a / b + 1, n, b);
  }

  lemma Product(x: nat, y: nat, b: nat)
    requires x <= y
    ensures x * b <= y * b
  {
  }

  /** cache_estimate: start from a bound and step down until the control block fits too. */
  method CacheEstimate(order: nat, objsize: nat, offSlab: bool) returns (remainder: nat, num: nat)
    requires objsize > 0 && order <= KMALLOC_MAX_ORDER
    ensures Best(num, order, objsize, offSlab) && Need(num, objsize, offSlab) + remainder == SlabSize(order)
    ensures num < SLAB_LIMIT
  {
    var size := SlabSize(order);
    if offSlab {
      num := size / objsize;
      forall n: nat | n > num
        ensures Need(n, objsize, true) > size
      {
        PastQuotient(size, objsize, n);
      }
      assert num * objsize <= size;
    } else {
      num := InSlabEstimate(size, objsize);
    }
    remainder := size - Need(num, objsize, offSlab);
    Product(1, objsize, num);
    PowMono(order, KMALLOC_MAX_ORDER);
  }

  method InSlabEstimate(size: nat, objsize: nat) returns (num: nat)
    requires objsize > 0 && size >= PAGE_SIZE
    ensures Need(num, objsize, false) <= size
    ensures forall n: nat :: n > num ==> Need(n, objsize, false) > size
  {
    num := (size - HEADER_SIZE) / (objsize + BUFCTL_SIZE);
    forall n: nat | n > num
      ensures Need(n, objsize, false) > size
    {
      PastQuotient(size - HEADER_SIZE, objsize + BUFCTL_SIZE, n);
    }
    while MgmtSize(num) + num * objsize > size
      invariant forall n: nat :: n > num ==> Need(n, objsize, false) > size
      decreases num
    {
      assert Need(0, objsize, false) <= size;
      num := num - 1;
    }
  }

  /** What calculate_slab_order settles on, or its panics. */
  datatype Choice = Chosen(order: nat, num: nat) | TooManyForOffSlab | NoOrder

  /** At most an eighth of the slab is left over. */
  ghost predicate Acceptable(order: nat, num: nat, objsize: nat, offSlab: bool) {
    && Best(num, order, objsize, offSlab) && num > 0
    && (SlabSize(order) - Need(num, objsize, offSlab)) * 8 <= SlabSize(order)
  }

  /** An order tried before any acceptable one has more objects than links fit into an object. */
  ghost predicate Crowded(order: nat, num: nat, objsize: nat, offSlab: bool) {
    && offSlab && objsize >= HEADER_SIZE && Best(num, order, objsize, offSlab)
    && num > (objsize - HEADER_SIZE) / BUFCTL_SIZE
    && forall o: nat, n: nat :: o < order ==> !Acceptable(o, n, objsize, offSlab)
  }

  method CalculateSlabOrder(objsize: nat, offSlab: bool) returns (c: Choice)
    requires objsize > 0 && (offSlab ==> objsize >= HEADER_SIZE)
    ensures c.Chosen? ==> c.order <= KMALLOC_MAX_ORDER && Acceptable(c.order, c.num, objsize, offSlab)
    ensures c.Chosen? ==> forall o: nat, n: nat :: o < c.order ==> !Acceptable(o, n, objsize, offSlab)
    ensures c.NoOrder? ==> forall o: nat, n: nat :: o <= KMALLOC_MAX_ORDER ==> !Acceptable(o, n, objsize, offSlab)
    ensures c.TooManyForOffSlab? ==> exists o: nat, n: nat :: Crowded(o, n, objsize, offSlab)
  {
    var order := 0;
    while order <= KMALLOC_MAX_ORDER
      invariant 0 <= order <= KMALLOC_MAX_ORDER + 1
      invariant forall o: nat, n: nat :: o < order ==> !Acceptable(o, n, objsize, offSlab)
    {
      var remainder, num := CacheEstimate(order, objsize, offSlab);
      forall n: nat
        ensures Acceptable(order, n, objsize, offSlab) ==> n == num
      {
        BestUnique(num, n, order, objsize, offSlab);
      }
      if num != 0 {
        if offSlab && num > (objsize - HEADER_SIZE) / BUFCTL_SIZE {
          assert Crowded(order, num, objsize, offSlab);
          return TooManyForOffSlab;
        }
        if remainder * 8 <= SlabSize(order) {
          return Chosen(order, num);
        }
      }
      order := order + 1;
    }
    c := NoOrder;
  }

  lemma BestUnique(m: nat, n: nat, order: nat, objsize: nat, offSlab: bool)
    requires Best(m, order, objsize, offSlab)
    ensures Best(n, order, objsize, offSlab) ==> m == n
  {
  }

  ghost predicate Sound(g: Geometry) {
    && g.objsize > 0 && 0 < g.num < SLAB_LIMIT && g.offset + g.num * g.objsize <= SlabSize(g.order)
    && (!g.offSlab ==> g.offset >= HEADER_SIZE + BUFCTL_SIZE * g.num)
  }

  // The thirteen caches of kmalloc.

  function ObjSize(i: nat): nat {
    Pow2(i + MIN_SIZE_ORDER)
  }

  predicate OffSlab(i: nat) {
    i >= 4
  }

  /** Pages and objects of each slab of the caches for 32 bytes, 64 bytes, ..., 128 KB. */
  function OrderOf(i: nat): nat {
    if i <= 7 then 0 else i - 7
  }

  function NumOf(i: nat): nat {
    if i < 7 then [113, 59, 30, 15, 8, 4, 2][i] else 1
  }

  lemma SmallFits(i: nat)
    requires i < 4
    ensures Acceptable(0, NumOf(i), ObjSize(i), false)
  {
    assert Pow2(5) == 32 && Pow2(6) == 64 && Pow2(7) == 128 && Pow2(8) == 256;
    assert i == 0 || i == 1 || i == 2 || i == 3;
  }

  lemma MiddleFits(i: nat)
    requires 4 <= i <= 7
    ensures Acceptable(0, NumOf(i), ObjSize(i), true)
  {
    assert Pow2(9) == 512 && Pow2(10) == 1024 && Pow2(11) == 2048 && Pow2(12) == 4096;
    assert i == 4 || i == 5 || i == 6 || i == 7;
  }

  lemma LargeFits(i: nat)
    requires 7 <= i <= 12
    ensures Acceptable(i - 7, 1, ObjSize(i), true)
    ensures forall o: nat :: o < i - 7 ==> Best(0, o, ObjSize(i), true)
  {
    var size := ObjSize(i);
    PageTimes(i - 7);
    forall n: nat | n > 1
      ensures Need(n, size, true) > size
    {
      Product(2, n, size);
    }
    forall o: nat | o < i - 7
      ensures Best(0, o, size, true)
    {
      PowMono(o + 1, i - 7);
      forall n: nat | n > 0
        ensures Need(n, size, true) > SlabSize(o)
      {
        Product(1, n, size);
      }
    }
  }

  lemma {:induction false} PageTimes(k: nat)
    ensures SlabSize(k) == Pow2(k + 12)
  {
    if k == 0 {
      assert Pow2(12) == 4096;
    } else {
      PageTimes(k - 1);
    }
  }

  lemma {:induction false} Fitting(i: nat)
    requires i <= 12
    ensures Acceptable(OrderOf(i), NumOf(i), ObjSize(i), OffSlab(i))
    ensures forall o: nat, n: nat :: o < OrderOf(i) && Best(n, o, ObjSize(i), OffSlab(i)) ==> n == 0
  {
    if i < 4 {
      SmallFits(i);
    } else if i <= 7 {
      MiddleFits(i);
    } else {
      LargeFits(i);
    }
  }

  /** Neither panic of calculate_slab_order can happen, and its choice is known. */
  lemma ChoiceIs(i: nat, c: Choice)
    requires i <= 12
    requires c.Chosen? ==> c.order <= KMALLOC_MAX_ORDER && Acceptable(c.order, c.num, ObjSize(i), OffSlab(i))
    requires c.Chosen? ==> forall o: nat, n: nat :: o < c.order ==> !Acceptable(o, n, ObjSize(i), OffSlab(i))
    requires c.NoOrder? ==>
      forall o: nat, n: nat :: o <= KMALLOC_MAX_ORDER ==> !Acceptable(o, n, ObjSize(i), OffSlab(i))
    requires c.TooManyForOffSlab? ==> exists o: nat, n: nat :: Crowded(o, n, ObjSize(i), OffSlab(i))
    ensures c == Chosen(OrderOf(i), NumOf(i))
  {
    var size, off := ObjSize(i), OffSlab(i);
    Fitting(i);
    match c
    case Chosen(order, num) =>
      assert order <= OrderOf(i);
      BestUnique(NumOf(i), num, OrderOf(i), size, off);
    case NoOrder =>
    case TooManyForOffSlab =>
      var o: nat, n: nat :| Crowded(o, n, size, off);
      NotCrowded(i, o, n);
  }

  lemma NotCrowded(i: nat, o: nat, n: nat)
    requires i <= 12
    ensures !Crowded(o, n, ObjSize(i), OffSlab(i))
  {
    var size, off := ObjSize(i), OffSlab(i);
    Fitting(i);
    SizeClass(i);
    if Crowded(o, n, size, off) {
      BestUnique(NumOf(i), n, OrderOf(i), size, off);
      assert false;
    }
  }

  /** get_order: the least size class that holds n bytes. */
  method GetOrder(n: nat) returns (order: nat)
    requires n <= Pow2(MAX_SIZE_ORDER)
    ensures MIN_SIZE_ORDER <= order <= MAX_SIZE_ORDER && n <= Pow2(order)
    ensures order > MIN_SIZE_ORDER ==> Pow2(order - 1) < n
  {
    order := MIN_SIZE_ORDER;
    while n > Pow2(order)
      invariant MIN_SIZE_ORDER <= order <= MAX_SIZE_ORDER
      invariant order > MIN_SIZE_ORDER ==> Pow2(order - 1) < n
      decreases MAX_SIZE_ORDER - order
    {
      order := order + 1;
    }
  }

  /** init_kmem_cache for the i-th cache: the objects and the control block fit the slab, and a control block
      outside goes into a cache that keeps its own inside, so allocating one does not recurse further. */
  method InitKmemCache(i: nat) returns (g: Geometry, control: nat)
    requires i <= MAX_SIZE_ORDER - MIN_SIZE_ORDER
    ensures g == Geometry(ObjSize(i), NumOf(i), g.offset, OrderOf(i), OffSlab(i)) && Sound(g)
    ensures control < 4 && (g.offSlab ==> g.offset == 0 && MgmtSize(g.num) <= Pow2(control + MIN_SIZE_ORDER))
    ensures !g.offSlab ==> g.offset == MgmtSize(g.num)
  {
    var objsize := ObjSize(i);
    SizeClass(i);
    var offSlab := objsize >= PAGE_SIZE / 8;
    assert offSlab == OffSlab(i);
    var c := CalculateSlabOrder(objsize, offSlab);
    ChoiceIs(i, c);
    Fitting(i);
    control := 0;
    if offSlab {
      control := ControlCache(c.num);
      g := Geometry(objsize, c.num, 0, c.order, true);
    } else {
      g := Geometry(objsize, c.num, MgmtSize(c.num), c.order, false);
    }
  }

  method ControlCache(num: nat) returns (control: nat)
    requires num <= 8
    ensures control < 4 && MgmtSize(num) <= ObjSize(control)
  {
    assert Pow2(6) == 64;
    PowMono(6, MAX_SIZE_ORDER);
    var order := GetOrder(MgmtSize(num));
    if order > 6 {
      PowMono(6, order - 1);
    }
    control := order - MIN_SIZE_ORDER;
  }

  /** The sizes are already multiples of the alignment, and 512 bytes is where control blocks move out. */
  lemma SizeClass(i: nat)
    requires i <= 12
    ensures ObjSize(i) >= 32 && (ObjSize(i) >= PAGE_SIZE / 8 <==> i >= 4)
  {
    assert Pow2(5) == 32 && Pow2(8) == 256 && Pow2(9) == 512;
    PowMono(5, i + 5);
    if i >= 4 {
      PowMono(9, i + 5);
    } else {
      PowMono(i + 5, 8);
    }
  }
}

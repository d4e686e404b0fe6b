/** Address ranges with flags: the page-to-flags map that a sorted list of areas stands for. */
module VmaAreas {
  import opened Lists
  import opened RbShape

  const PAGE_SIZE: nat := 4096
  const USER_BASE: nat := 0x00200000
  const USER_TOP: nat := 0xB0000000
  const WORD: nat := 0x1_0000_0000

  predicate UserAccess(start: nat, end: nat) {
    USER_BASE <= start < end <= USER_TOP
  }

  /** ROUNDDOWN and ROUNDUP on 32-bit words. */
  function RoundDown(a: nat): (r: nat)
    ensures r <= a < r + PAGE_SIZE && r % PAGE_SIZE == 0
  {
    a - a % PAGE_SIZE
  }

  function RoundUp(a: nat): nat {
    RoundDown((a + PAGE_SIZE - 1) % WORD)
  }

  predicate Good(v: Vma) {
    UserAccess(v.start, v.end) && v.start % PAGE_SIZE == 0 && v.end % PAGE_SIZE == 0
  }

  predicate Covers(v: Vma, x: nat) {
    v.start <= x < v.end
  }

  /** Non-empty aligned ranges in user space, in ascending order and disjoint. */
  ghost predicate Disjoint(a: seq<Vma>) {
    && (forall i :: 0 <= i < |a| ==> Good(a[i]))
    && (forall i, j :: 0 <= i < j < |a| ==> a[i].end <= a[j].start)
  }

  ghost predicate Misses(a: seq<Vma>, start: nat, end: nat) {
    forall i :: 0 <= i < |a| ==> a[i].end <= start || end <= a[i].start
  }

  /** The flags an address is mapped with. */
  ghost function Lookup(a: seq<Vma>, x: nat): Option<bv32> {
    if a == [] then None else if Covers(a[0], x) then Some(a[0].flags) else Lookup(a[1..], x)
  }

  lemma {:induction false} LookupAt(a: seq<Vma>, i: nat, x: nat)
    requires Disjoint(a) && i < |a| && Covers(a[i], x)
    ensures Lookup(a, x) == Some(a[i].flags)
  {
    if i > 0 {
      assert Disjoint(a[1..]);
      LookupAt(a[1..], i - 1, x);
    }
  }

  lemma {:induction false} LookupNone(a: seq<Vma>, x: nat)
    requires forall i :: 0 <= i < |a| ==> !Covers(a[i], x)
    ensures Lookup(a, x) == None
  {
    if a != [] {
      LookupNone(a[1..], x);
    }
  }

  lemma {:induction false} LookupSome(a: seq<Vma>, x: nat) returns (i: nat)
    requires Lookup(a, x) != None
    ensures i < |a| && Covers(a[i], x) && Lookup(a, x) == Some(a[i].flags)
  {
    if Covers(a[0], x) {
      i := 0;
    } else {
      i := LookupSome(a[1..], x);
      i := i + 1;
    }
  }

  lemma {:induction false} LookupConcat(a: seq<Vma>, b: seq<Vma>, x: nat)
    ensures Lookup(a + b, x) == if Lookup(a, x) != None then Lookup(a, x) else Lookup(b, x)
  {
    if a == [] {
      assert a + b == b;
    } else {
      assert (a + b)[1..] == a[1..] + b;
      LookupConcat(a[1..], b, x);
    }
  }

  // ---- adding, taking out and changing one area

  lemma LookupInsert(a: seq<Vma>, v: Vma, b: seq<Vma>, x: nat)
    requires Misses(a + b, v.start, v.end)
    ensures Lookup(a + [v] + b, x) == if Covers(v, x) then Some(v.flags) else Lookup(a + b, x)
  {
    LookupConcat(a + [v], b, x);
    LookupConcat(a, [v], x);
    LookupConcat(a, b, x);
    if Covers(v, x) {
      forall i | 0 <= i < |a| ensures !Covers(a[i], x) {
        assert (a + b)[i] == a[i];
      }
      LookupNone(a, x);
    }
  }

  lemma LookupRemove(a: seq<Vma>, v: Vma, b: seq<Vma>, x: nat)
    requires Disjoint(a + [v] + b)
    ensures Lookup(a + b, x) == if Covers(v, x) then None else Lookup(a + [v] + b, x)
    ensures Misses(a + b, v.start, v.end)
  {
    var s := a + [v] + b;
    assert s[|a|] == v;
    forall i | 0 <= i < |a + b| ensures (a + b)[i].end <= v.start || v.end <= (a + b)[i].start {
      assert (a + b)[i] == s[if i < |a| then i else i + 1];
    }
    LookupInsert(a, v, b, x);
    if Covers(v, x) {
      LookupNone(a + b, x);
    }
  }

  lemma DisjointParts(a: seq<Vma>, v: Vma, b: seq<Vma>)
    requires Disjoint(a + [v] + b)
    ensures Disjoint(a + b) && Good(v)
    ensures forall i :: 0 <= i < |a| ==> a[i].end <= v.start
    ensures forall i :: 0 <= i < |b| ==> v.end <= b[i].start
  {
    var s := a + [v] + b;
    assert s[|a|] == v;
    assert forall i :: 0 <= i < |a| ==> s[i] == a[i];
    assert forall i :: 0 <= i < |b| ==> s[|a| + 1 + i] == b[i];
    assert forall i :: 0 <= i < |a + b| ==> (a + b)[i] == s[if i < |a| then i else i + 1];
  }

  lemma DisjointJoin(a: seq<Vma>, v: Vma, b: seq<Vma>)
    requires Disjoint(a + b) && Good(v)
    requires forall i :: 0 <= i < |a| ==> a[i].end <= v.start
    requires forall i :: 0 <= i < |b| ==> v.end <= b[i].start
    ensures Disjoint(a + [v] + b)
  {
    var s, r := a + [v] + b, a + b;
    assert forall i :: 0 <= i < |s| && i != |a| ==> s[i] == r[if i < |a| then i else i - 1];
    assert forall i :: 0 <= i < |a| ==> s[i] == a[i];
    assert forall i :: |a| < i < |s| ==> s[i] == b[i - |a| - 1];
  }

  lemma LookupReplace(s: seq<Vma>, i: nat, v: Vma, x: nat)
    requires Disjoint(s) && i < |s| && Disjoint(s[i := v])
    ensures Lookup(s[i := v], x) == if Covers(v, x) then Some(v.flags) else if Covers(s[i], x) then None else Lookup(s, x)
  {
    var a, b := s[..i], s[i + 1..];
    assert s == a + [s[i]] + b;
    assert s[i := v] == a + [v] + b;
    LookupRemove(a, s[i], b, x);
    LookupRemove(a, v, b, x);
    LookupInsert(a, v, b, x);
  }

  /** Whether a range is free can be read off the addresses in it. */
  lemma FreeIsMisses(a: seq<Vma>, start: nat, end: nat)
    requires Disjoint(a) && start < end
    ensures Misses(a, start, end) <==> forall x :: start <= x < end ==> Lookup(a, x) == None
  {
    if Misses(a, start, end) {
      forall x | start <= x < end ensures Lookup(a, x) == None {
        LookupNone(a, x);
      }
    } else {
      var i :| 0 <= i < |a| && !(a[i].end <= start || end <= a[i].start);
      var x := if a[i].start < start then start else a[i].start;
      assert Good(a[i]);
      LookupAt(a, i, x);
    }
  }

  /** The first area to end above `start` tells whether the range up to `end` is free. */
  lemma AboveMeets(a: seq<Vma>, start: nat, end: nat)
    requires Disjoint(a) && start < end
    ensures Misses(a, start, end) <==> Above(a, start) == |a| || end <= a[Above(a, start)].start
  {
    var k := Above(a, start);
    if k < |a| && end <= a[k].start {
      forall i | 0 <= i < |a| ensures a[i].end <= start || end <= a[i].start {
        if i > k {
          assert a[k].end <= a[i].start && Good(a[k]);
        }
      }
    }
  }

  // ---- the lowest area that ends above an address

  ghost function Above(a: seq<Vma>, x: nat): (k: nat)
    ensures k <= |a|
    ensures forall i :: 0 <= i < k ==> a[i].end <= x
    ensures k < |a| ==> x < a[k].end
  {
    if a == [] || x < a[0].end then 0 else 1 + Above(a[1..], x)
  }

  lemma AboveIs(a: seq<Vma>, x: nat, k: nat)
    requires Disjoint(a) && k < |a| && x < a[k].end && (k > 0 ==> a[k - 1].end <= x)
    ensures Above(a, x) == k
  {}

  lemma AboveNone(a: seq<Vma>, x: nat)
    requires Disjoint(a) && (a == [] || a[|a| - 1].end <= x)
    ensures Above(a, x) == |a|
  {}

  // ---- rounding and free places

  /** What a call for the range [addr, addr + len) rounds it to, in 32-bit arithmetic. */
  function RangeEnd(addr: nat, len: nat): nat {
    RoundUp((addr + len) % WORD)
  }

  /** The page of x holds an address of [addr, addr + len). */
  ghost predicate Asked(addr: nat, len: nat, x: nat) {
    exists y: nat :: addr <= y < addr + len && RoundDown(y) == RoundDown(x)
  }

  lemma RoundUpIs(a: nat)
    requires a + PAGE_SIZE <= WORD
    ensures a <= RoundUp(a) < a + PAGE_SIZE && RoundUp(a) % PAGE_SIZE == 0
  {
  }

  /** The range is made of the pages that hold an address asked for. */
  lemma RangeIs(addr: nat, len: nat)
    requires len > 0 && addr + len <= USER_TOP
    ensures forall x: nat :: RoundDown(addr) <= x < RangeEnd(addr, len) <==> Asked(addr, len, x)
  {
    RoundUpIs(addr + len);
    forall x: nat
      ensures RoundDown(addr) <= x < RangeEnd(addr, len) <==> Asked(addr, len, x)
    {
      if RoundDown(addr) <= x < RangeEnd(addr, len) {
        var y := if x < addr then addr else if x < addr + len then x else addr + len - 1;
        SamePage(x, y, addr, addr + len);
        assert addr <= y < addr + len && RoundDown(y) == RoundDown(x);
      }
      if Asked(addr, len, x) {
        var y: nat :| addr <= y < addr + len && RoundDown(y) == RoundDown(x);
        PageInside(x, y, addr, addr + len);
      }
    }
  }

  lemma SamePage(x: nat, y: nat, addr: nat, end: nat)
    requires addr < end && end + PAGE_SIZE <= WORD && RoundDown(addr) <= x < RoundUp(end)
    requires y == if x < addr then addr else if x < end then x else end - 1
    ensures RoundDown(y) == RoundDown(x)
  {
    if x < addr {
      FirstPage(x, addr);
    } else if end <= x {
      LastPage(x, end);
    }
  }

  lemma FirstPage(x: nat, addr: nat)
    requires RoundDown(addr) <= x < addr
    ensures RoundDown(x) == RoundDown(addr)
  {
    OnePage(x, addr, RoundDown(addr));
  }

  lemma LastPage(x: nat, end: nat)
    requires 0 < end <= x < RoundUp(end) && end + PAGE_SIZE <= WORD
    ensures RoundDown(x) == RoundDown(end - 1)
  {
    RoundUpIs(end);
    Multiples(0, RoundUp(end));
    OnePage(x, end - 1, RoundUp(end) - PAGE_SIZE);
  }

  lemma OnePage(x: nat, y: nat, p: nat)
    requires p % PAGE_SIZE == 0 && p <= x < p + PAGE_SIZE && p <= y < p + PAGE_SIZE
    ensures RoundDown(x) == p == RoundDown(y)
  {
  }

  lemma PageInside(x: nat, y: nat, addr: nat, end: nat)
    requires addr <= y < end && end + PAGE_SIZE <= WORD && RoundDown(y) == RoundDown(x)
    ensures RoundDown(addr) <= x < RoundUp(end)
  {
    RoundUpIs(end);
    Multiples(RoundDown(addr), RoundDown(y));
    Multiples(RoundDown(y), RoundUp(end));
  }

  /** Multiples of the page size that differ are a page apart. */
  lemma Multiples(a: nat, b: nat)
    requires a % PAGE_SIZE == 0 && b % PAGE_SIZE == 0
    ensures a < b ==> a + PAGE_SIZE <= b
  {
  }

  /** Which calls lie in user space. */
  lemma AccessIs(addr: nat, len: nat)
    requires len > 0 && addr + len < WORD
    ensures UserAccess(RoundDown(addr), RangeEnd(addr, len)) <==> 0x0020_0000 <= addr && addr + len <= 0xB000_0000
  {
    var end := addr + len;
    Multiples(RoundDown(addr), USER_BASE);
    if end + PAGE_SIZE <= WORD {
      RoundUpIs(end);
      Multiples(USER_TOP, RoundUp(end));
    } else {
      assert RoundUp(end) == 0;
    }
  }

  /** A range of this length at `s` lies in user space and meets no area. */
  ghost predicate Place(a: seq<Vma>, s: nat, len: nat) {
    USER_BASE <= s && s + len <= USER_TOP && Misses(a, s, s + len)
  }

  lemma PlaceFound(a: seq<Vma>, i: nat, s: nat, len: nat)
    requires Disjoint(a) && i < |a| && a[i].end <= s && s + len <= USER_TOP && Misses(a[i + 1..], s, s + len)
    ensures Place(a, s, len)
  {
    assert Good(a[i]);
    forall j | 0 <= j < |a| ensures a[j].end <= s || s + len <= a[j].start {
      if j < i {
        assert a[j].end <= a[i].start;
      } else if j > i {
        assert a[i + 1..][j - i - 1] == a[j];
      }
    }
  }

  /** Nothing up to a start whose range meets an area has a place above that area's own reach. */
  lemma NoPlaceAt(a: seq<Vma>, i: nat, start: nat, len: nat)
    requires i < |a| && start < a[i].end && len > 0
    ensures forall s: nat :: s <= start && s + len > a[i].start ==> !Place(a, s, len)
  {}

  lemma PlaceBelow(a: seq<Vma>, i: nat, s: nat, len: nat)
    requires Disjoint(a) && i < |a| && s + len <= a[i].start
    ensures Misses(a[i..], s, s + len)
  {
    forall j | i <= j < |a| ensures s + len <= a[j].start {
      if j > i {
        assert a[i].end <= a[j].start && Good(a[i]);
      }
    }
  }

  lemma RoundedTwice(start: nat, end: nat)
    requires UserAccess(start, end) && start % PAGE_SIZE == 0 && end % PAGE_SIZE == 0
    ensures RoundDown(start) == start && RangeEnd(start, end - start) == end
  {
    RoundedExact(end);
  }

  lemma RoundedExact(a: nat)
    requires a <= USER_TOP && a % PAGE_SIZE == 0
    ensures RoundUp(a) == a
  {
    assert (a + PAGE_SIZE - 1) % PAGE_SIZE == PAGE_SIZE - 1;
  }
}

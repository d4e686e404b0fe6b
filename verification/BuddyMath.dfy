/** Powers of two and aligned runs: two aligned runs are nested or apart. */
module BuddyMath {

  function Pow2(o: nat): (r: nat)
    ensures r > 0
  {
    if o == 0 then 1 else 2 * Pow2(o - 1)
  }

  /** `(i & ((1 << o) - 1)) == 0`: the o lowest bits are zero. */
  predicate Aligned(i: nat, o: nat) {
    o == 0 || (i % 2 == 0 && Aligned(i / 2, o - 1))
  }

  lemma {:induction false} PowMono(a: nat, b: nat)
    requires a <= b
    ensures Pow2(a) <= Pow2(b)
  {
    if a < b {
      PowMono(a, b - 1);
    }
  }

  /** Aligned runs of one order do not straddle each other. */
  lemma {:induction false} Gap(i: nat, j: nat, o: nat)
    requires Aligned(i, o) && Aligned(j, o) && i < j
    ensures i + Pow2(o) <= j
  {
    if o > 0 {
      Gap(i / 2, j / 2, o - 1);
    }
  }

  lemma {:induction false} AlignedLe(i: nat, a: nat, b: nat)
    requires a <= b && Aligned(i, b)
    ensures Aligned(i, a)
  {
    if a > 0 {
      AlignedLe(i / 2, a - 1, b - 1);
    }
  }

  /** A larger power of two may be added. */
  lemma {:induction false} Shift(i: nat, a: nat, b: nat)
    requires a <= b && Aligned(i, a)
    ensures Aligned(i + Pow2(b), a)
  {
    if a > 0 {
      Shift(i / 2, a - 1, b - 1);
      assert (i + Pow2(b)) / 2 == i / 2 + Pow2(b - 1);
    }
  }

  /** The two halves of an aligned run are aligned. */
  lemma Halves(i: nat, o: nat)
    requires Aligned(i, o + 1)
    ensures Aligned(i, o) && Aligned(i + Pow2(o), o)
  {
    AlignedLe(i, o, o + 1);
    Shift(i, o, o);
  }

  /** The run that an aligned run is half of. */
  function Parent(i: nat, o: nat): nat {
    if Aligned(i, o + 1) || i < Pow2(o) then i else i - Pow2(o)
  }

  /** `i ^ (1 << o)` for an aligned index. */
  function BuddyOf(i: nat, o: nat): nat {
    if Aligned(i, o + 1) || i < Pow2(o) then i + Pow2(o) else i - Pow2(o)
  }

  lemma Siblings(i: nat, o: nat)
    requires Aligned(i, o)
    ensures !Aligned(i, o + 1) ==> i >= Pow2(o)
    ensures var p, b := Parent(i, o), BuddyOf(i, o);
      && Aligned(p, o + 1) && Aligned(b, o) && b != i
      && ((i == p && b == p + Pow2(o)) || (b == p && i == p + Pow2(o)))
      && BuddyOf(b, o) == i && Parent(b, o) == p
  {
    if Aligned(i, o + 1) {
      Halves(i, o);
      NotAligned(i, o);
    } else {
      HalfWay(i, o);
      Halves(i - Pow2(o), o);
    }
  }

  /** An index aligned to 2^o but not to 2^(o+1) is half a run past an aligned one. */
  lemma {:induction false} HalfWay(i: nat, o: nat)
    requires Aligned(i, o) && !Aligned(i, o + 1)
    ensures i >= Pow2(o) && Aligned(i - Pow2(o), o + 1)
  {
    if o == 0 {
      assert Aligned(i / 2, 0) && Aligned((i - 1) / 2, 0);
    } else {
      HalfWay(i / 2, o - 1);
      assert (i - Pow2(o)) / 2 == i / 2 - Pow2(o - 1);
    }
  }

  lemma {:induction false} NotAligned(i: nat, o: nat)
    requires Aligned(i, o + 1)
    ensures !Aligned(i + Pow2(o), o + 1)
  {
    if o > 0 {
      NotAligned(i / 2, o - 1);
      assert (i + Pow2(o)) / 2 == i / 2 + Pow2(o - 1);
    }
  }

  /** Runs that meet are nested. */
  lemma Nested(i: nat, a: nat, j: nat, b: nat, x: nat)
    requires a <= b && Aligned(i, a) && Aligned(j, b) && i <= x < i + Pow2(a) && j <= x < j + Pow2(b)
    ensures j <= i && i + Pow2(a) <= j + Pow2(b)
  {
    AlignedLe(j, a, b);
    Shift(j, a, b);
    if i < j {
      Gap(i, j, a);
    }
    Gap(i, j + Pow2(b), a);
  }

  lemma {:induction false} Distrib(a: nat, b: nat, d: nat)
    ensures a * d + b * d == (a + b) * d
  {
    if a > 0 {
      Distrib(a - 1, b, d);
      assert a * d == (a - 1) * d + d;
      assert (a + b) * d == (a - 1 + b) * d + d;
    }
  }

  // ---- how far an index is from the next multiple of 2^o

  function Slack(i: nat, o: nat): (r: nat)
    ensures r < Pow2(o)
    decreases o, i
  {
    if o == 0 then 0 else if i % 2 == 0 then 2 * Slack(i / 2, o - 1) else 1 + 2 * Slack(i / 2 + 1, o - 1)
  }

  lemma {:induction false} SlackAligns(i: nat, o: nat)
    ensures Aligned(i + Slack(i, o), o)
    decreases o
  {
    if o > 0 {
      if i % 2 == 0 {
        SlackAligns(i / 2, o - 1);
        assert (i + Slack(i, o)) / 2 == i / 2 + Slack(i / 2, o - 1);
      } else {
        SlackAligns(i / 2 + 1, o - 1);
        assert (i + Slack(i, o)) / 2 == i / 2 + 1 + Slack(i / 2 + 1, o - 1);
      }
    }
  }

  /** The next multiple of 2^(o+1) is the next multiple of 2^o, or one step further. */
  lemma SlackStep(i: nat, o: nat)
    ensures var j := i + Slack(i, o);
      Slack(i, o + 1) == Slack(i, o) + if Aligned(j, o + 1) then 0 else Pow2(o)
  {
    var j, k := i + Slack(i, o), i + Slack(i, o + 1);
    SlackAligns(i, o);
    SlackAligns(i, o + 1);
    AlignedLe(k, o, o + 1);
    if Aligned(j, o + 1) {
      NextSame(i, j, k, o);
    } else {
      HalfWay(j, o);
      NextAbove(i, j, k, o);
    }
  }

  lemma NextSame(i: nat, j: nat, k: nat, o: nat)
    requires Aligned(j, o + 1) && Aligned(k, o + 1) && i <= j < i + Pow2(o) && i <= k < i + Pow2(o + 1)
    ensures k == j
  {
    if j < k {
      Gap(j, k, o + 1);
    } else if k < j {
      Gap(k, j, o + 1);
    }
  }

  lemma NextAbove(i: nat, j: nat, k: nat, o: nat)
    requires j >= Pow2(o) && Aligned(j - Pow2(o), o + 1) && Aligned(k, o + 1) && i <= k < i + Pow2(o + 1)
    requires i <= j < i + Pow2(o)
    ensures k == j + Pow2(o)
  {
    var low := j - Pow2(o);
    Shift(low, o + 1, o + 1);
    if low < k {
      Gap(low, k, o + 1);
    }
    if k > low + Pow2(o + 1) {
      Gap(low + Pow2(o + 1), k, o + 1);
    }
  }

  lemma {:induction false} SlackMono(i: nat, a: nat, b: nat)
    requires a <= b
    ensures Pow2(a) + Slack(i, a) <= Pow2(b) + Slack(i, b)
    decreases b - a
  {
    if a < b {
      SlackStep(i, a);
      SlackMono(i, a + 1, b);
    }
  }
}

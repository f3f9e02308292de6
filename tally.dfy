/** The pure decision functions of a votable: how large the majority is,
    which side holds it, and whether the vote may be concluded. Vote power
    is a natural number; the up and down totals are inputs. */
module Tally {

  datatype MajorityType = Upvoters | Downvoters | Even

  function Max(a: nat, b: nat): nat
  {
    if a >= b then a else b
  }

  /** The larger side's share of the total power as a whole percentage,
      rounded to the nearest integer with a half rounding up (r * total lies
      within half a total of 100 * max, the lower end excluded); 0 when no
      power was cast. */
  function MajoritySize(up: nat, down: nat): (r: nat)
    ensures up + down == 0 ==> r == 0
    ensures up + down > 0 ==>
      200 * Max(up, down) - (up + down) < 2 * (up + down) * r <= 200 * Max(up, down) + (up + down)
  {
    var total := up + down;
    if total == 0 then 0
    else
      var n, d := 200 * Max(up, down) + total, 2 * total;
      assert n == d * (n / d) + n % d;
      assert d * (n / d + 1) == d * (n / d) + d;
      n / d
  }

  /** Which side holds the majority of the power. */
  function MajorityTypeOf(up: nat, down: nat): (t: MajorityType)
    ensures t == Upvoters <==> up > down
    ensures t == Downvoters <==> down > up
    ensures t == Even <==> up == down
  {
    if up > down then Upvoters
    else if down > up then Downvoters
    else Even
  }

  /** A vote may be concluded once enough power was cast and the majority
      is large enough; both gates are inclusive. */
  function Concludable(totalPower: nat, majoritySize: nat, powerThreshold: int, majorityThreshold: int): (r: bool)
    ensures r ==> totalPower >= powerThreshold && majoritySize >= majorityThreshold
    ensures totalPower < powerThreshold || majoritySize < majorityThreshold ==> !r
  {
    totalPower >= powerThreshold && majoritySize >= majorityThreshold
  }

  /** Concludability of a tally: the total power and the majority size are
      taken from the same up/down snapshot. */
  predicate TallyConcludable(up: nat, down: nat, powerThreshold: int, majorityThreshold: int)
  {
    Concludable(up + down, MajoritySize(up, down), powerThreshold, majorityThreshold)
  }

  lemma MulMonotone(k: nat, a: nat, b: nat)
    requires a <= b
    ensures k * a <= k * b
  {
  }

  /** With some power cast, the majority size lies in [50, 100]. */
  lemma {:induction false} MajoritySizeBounds(up: nat, down: nat)
    requires up + down > 0
    ensures 50 <= MajoritySize(up, down) <= 100
  {
    var t, m, r := up + down, Max(up, down), MajoritySize(up, down);
    assert 2 * m >= t;
    assert 2 * t * r > 99 * t;
    if r < 50 {
      MulMonotone(2 * t, r, 49);
      assert false;
    }
    assert m <= t;
    assert 2 * t * r <= 201 * t;
    if r > 100 {
      MulMonotone(2 * t, 101, r);
      assert false;
    }
  }

  /** The majority size does not depend on which side is up. */
  lemma MajoritySizeSymmetric(up: nat, down: nat)
    ensures MajoritySize(up, down) == MajoritySize(down, up)
  {
  }

  /** An even split with some power cast is a 50 percent majority. */
  lemma {:induction false} EvenIsHalf(up: nat, down: nat)
    requires up + down > 0 && MajorityTypeOf(up, down) == Even
    ensures MajoritySize(up, down) == 50
  {
    var t := up + down;
    assert 200 * Max(up, down) + t == 101 * t;
    assert 2 * t * 50 <= 101 * t < 2 * t * 51;
    var r := MajoritySize(up, down);
    if r < 50 {
      MulMonotone(2 * t, r + 1, 50);
      assert false;
    }
    if r > 50 {
      MulMonotone(2 * t, 51, r);
      assert false;
    }
  }

  /** A majority size above 50 means one side strictly leads. */
  lemma LargeMajorityIsNotEven(up: nat, down: nat)
    requires MajoritySize(up, down) > 50
    ensures MajorityTypeOf(up, down) != Even
  {
    if up == down {
      EvenIsHalf(up, down);
    }
  }

  /** With a majority threshold above 50 an even tally never concludes, so
      conclusion always has a side to dispatch on. */
  lemma EvenNeverConcludes(up: nat, down: nat, powerThreshold: int, majorityThreshold: int)
    requires majorityThreshold > 50
    requires TallyConcludable(up, down, powerThreshold, majorityThreshold)
    ensures MajorityTypeOf(up, down) != Even
  {
    LargeMajorityIsNotEven(up, down);
  }

  /** More power or a larger majority never turns a concludable vote back. */
  lemma ConcludableMonotone(t1: nat, m1: nat, t2: nat, m2: nat, powerThreshold: int, majorityThreshold: int)
    requires t1 <= t2 && m1 <= m2
    requires Concludable(t1, m1, powerThreshold, majorityThreshold)
    ensures Concludable(t2, m2, powerThreshold, majorityThreshold)
  {
  }

  /** The cases the votable's shared examples fix, with thresholds 10 and 75. */
  lemma ConcludableExamples()
    ensures !Concludable(9, 74, 10, 75) && !Concludable(9, 75, 10, 75) && !Concludable(9, 80, 10, 75)
    ensures !Concludable(10, 74, 10, 75) && Concludable(10, 75, 10, 75) && Concludable(10, 80, 10, 75)
    ensures !Concludable(20, 74, 10, 75) && Concludable(20, 75, 10, 75) && Concludable(20, 80, 10, 75)
  {
  }

  lemma MajorityExamples()
    ensures MajoritySize(140, 60) == 70 && MajoritySize(40, 60) == 60 && MajoritySize(40, 40) == 50
    ensures MajorityTypeOf(70, 30) == Upvoters && MajorityTypeOf(10, 90) == Downvoters
    ensures MajorityTypeOf(50, 50) == Even
  {
  }
}

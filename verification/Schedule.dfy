/** The rotating probe order of `main` and the balance it gives the three modes. */
module Schedule {
  import opened Reals

  /** The endpoint probed at position g of iteration `index`, which counts from 1. */
  function Slot(index: nat, g: nat): nat
    requires index >= 1
  {
    ((index - 1) % 3 + g) % 3
  }

  /** The position of an endpoint within iteration `index`. */
  function PositionOf(slot: nat, index: nat): nat
    requires index >= 1 && slot < 3
  {
    (slot + 2 * ((index - 1) % 3)) % 3
  }

  /** Every iteration probes every mode exactly once. */
  lemma EachModeOnce(index: nat, g: nat, slot: nat)
    requires index >= 1 && g < 3 && slot < 3
    ensures PositionOf(slot, index) < 3
    ensures Slot(index, g) == slot <==> g == PositionOf(slot, index)
  {
  }

  /** The rotation: 0 1 2 in the first round, 1 2 0 in the second, 2 0 1 in the third, */
  lemma RoundOrder(index: nat, g: nat)
    requires index >= 1 && g < 3
    ensures (index - 1) % 3 == 0 ==> Slot(index, g) == g
    ensures (index - 1) % 3 == 1 ==> Slot(index, g) == if g == 2 then 0 else g + 1
    ensures (index - 1) % 3 == 2 ==> Slot(index, g) == if g == 0 then 2 else g - 1
  {
  }

  /** then over again. */
  lemma Rotates(n: nat, g: nat)
    requires n >= 1
    ensures Slot(n + 3, g) == Slot(n, g)
  {
    SameResidue(n - 1);
  }

  lemma SameResidue(n: nat)
    ensures (n + 3) % 3 == n % 3
  {
  }

  /** In how many of the first n iterations a mode is probed at position g. */
  function Occupancy(slot: nat, g: nat, n: nat): nat {
    if n == 0 then 0 else Occupancy(slot, g, n - 1) + if Slot(n, g) == slot then 1 else 0
  }

  lemma OneMoreOf(off: nat, n: nat)
    requires off < 3 && n > 0
    ensures (n + 2 - off) / 3 == (n + 1 - off) / 3 + if (n - 1) % 3 == off then 1 else 0
  {
  }

  lemma SlotIs(slot: nat, g: nat, n: nat)
    requires slot < 3 && g < 3 && n > 0
    ensures Slot(n, g) == slot <==> (n - 1) % 3 == (slot + 2 * g) % 3
  {
    var r := (n - 1) % 3;
    assert r == 0 || r == 1 || r == 2;
    assert g == 0 || g == 1 || g == 2;
  }

  lemma {:induction false} OccupancyIs(slot: nat, g: nat, n: nat)
    requires slot < 3 && g < 3
    ensures Occupancy(slot, g, n) == (n + 2 - (slot + 2 * g) % 3) / 3
  {
    hide Slot;
    if n > 0 {
      OccupancyIs(slot, g, n - 1);
      SlotIs(slot, g, n);
      OneMoreOf((slot + 2 * g) % 3, n);
    }
  }

  /** Every mode holds every position as often as every other, to within one iteration. */
  lemma PositionsShared(slot: nat, g: nat, n: nat)
    requires slot < 3 && g < 3
    ensures n / 3 <= Occupancy(slot, g, n) <= (n + 2) / 3
  {
    OccupancyIs(slot, g, n);
  }

  /** The time indices, 0 for the first measured probe of the run, at which a mode is probed, added up. */
  function TimeSum(slot: nat, n: nat): nat
    requires slot < 3
  {
    if n == 0 then 0 else TimeSum(slot, n - 1) + 3 * (n - 1) + PositionOf(slot, n)
  }

  lemma NextResidues(n: nat)
    ensures (n + 1) % 3 == if n % 3 == 2 then 0 else n % 3 + 1
    ensures (n + 2) % 3 == if n % 3 == 0 then 2 else n % 3 - 1
  {
  }

  lemma TurnsAddUp(slot: nat)
    requires slot < 3
    ensures slot % 3 + (slot + 2) % 3 + (slot + 4) % 3 == 3
  {
    assert slot == 0 || slot == 1 || slot == 2;
  }

  lemma PositionIs(slot: nat, n: nat)
    requires slot < 3
    ensures n % 3 == 0 ==> PositionOf(slot, n + 1) == slot % 3
    ensures n % 3 == 1 ==> PositionOf(slot, n + 1) == (slot + 2) % 3
    ensures n % 3 == 2 ==> PositionOf(slot, n + 1) == (slot + 4) % 3
  {
  }

  lemma PositionsOfThree(slot: nat, n: nat)
    requires slot < 3
    ensures PositionOf(slot, n + 1) + PositionOf(slot, n + 2) + PositionOf(slot, n + 3) == 3
  {
    hide PositionOf;
    NextResidues(n);
    TurnsAddUp(slot);
    PositionIs(slot, n);
    PositionIs(slot, n + 1);
    PositionIs(slot, n + 2);
  }

  /** Three iterations in a row move every mode's sum by the same amount. */
  lemma ThreeIterations(slot: nat, n: nat)
    requires slot < 3
    ensures TimeSum(slot, n + 3) == TimeSum(slot, n) + 9 * n + 12
  {
    hide PositionOf;
    PositionsOfThree(slot, n);
    assert TimeSum(slot, n + 1) == TimeSum(slot, n) + 3 * n + PositionOf(slot, n + 1);
    assert TimeSum(slot, n + 2) == TimeSum(slot, n + 1) + 3 * (n + 1) + PositionOf(slot, n + 2);
  }

  lemma FirstTwo(slot: nat)
    requires slot < 3
    ensures TimeSum(slot, 0) == 0 && TimeSum(slot, 1) == slot
    ensures TimeSum(slot, 2) == slot + 3 + if slot == 0 then 2 else slot - 1
  {
    assert TimeSum(slot, 1) == TimeSum(slot, 0) + PositionOf(slot, 1);
    assert TimeSum(slot, 2) == TimeSum(slot, 1) + 3 + PositionOf(slot, 2);
  }

  /** The sums of any two modes differ by at most 2, and not at all when 3 divides the iterations. */
  lemma {:induction false} TimesBalanced(a: nat, b: nat, n: nat)
    requires a < 3 && b < 3
    ensures -2 <= TimeSum(a, n) - TimeSum(b, n) <= 2
    ensures n % 3 == 0 ==> TimeSum(a, n) == TimeSum(b, n)
  {
    hide TimeSum;
    if n >= 3 {
      TimesBalanced(a, b, n - 3);
      ThreeIterations(a, n - 3);
      ThreeIterations(b, n - 3);
    } else {
      FirstTwo(a);
      FirstTwo(b);
    }
  }

  /** What a mode costs in total when every probe costs `base` and the machine drifts linearly in time. */
  function DriftedCost(slot: nat, n: nat, base: real, drift: real): real
    requires slot < 3
  {
    if n == 0 then 0.0
    else DriftedCost(slot, n - 1, base, drift) + base + drift * (3 * (n - 1) + PositionOf(slot, n)) as real
  }

  lemma {:induction false} DriftedCostIs(slot: nat, n: nat, base: real, drift: real)
    requires slot < 3
    ensures DriftedCost(slot, n, base, drift) == base * n as real + drift * TimeSum(slot, n) as real
  {
    hide PositionOf;
    if n > 0 {
      DriftedCostIs(slot, n - 1, base, drift);
      var t: nat := 3 * (n - 1) + PositionOf(slot, n);
      OneMoreProbe(base, drift, n - 1, TimeSum(slot, n - 1), t);
    }
  }

  lemma OneMoreProbe(base: real, drift: real, n: nat, sum: nat, t: nat)
    ensures base * n as real + drift * sum as real + base + drift * t as real ==
            base * (n + 1) as real + drift * (sum + t) as real
  {
    assert (sum + t) as real == sum as real + t as real;
    Distribute(drift, sum as real, t as real);
    Distribute(base, n as real, 1.0);
  }

  /** Multiplying a small whole difference by the drift. */
  lemma DriftBound(drift: real, x: int, y: int, u: real, v: real, common: real)
    requires -2 <= x - y <= 2
    requires u == common + drift * x as real && v == common + drift * y as real
    ensures Abs(u - v) <= 2.0 * Abs(drift)
    ensures x == y ==> u == v
  {
    var d := x - y;
    assert x as real == y as real + d as real;
    Distribute(drift, y as real, d as real);
    assert u - v == drift * d as real;
    assert d == -2 || d == -1 || d == 0 || d == 1 || d == 2;
  }

  /** Linear drift cannot favour a mode by more than two steps of it, nor at all over whole rotations. */
  lemma DriftCancels(a: nat, b: nat, n: nat, base: real, drift: real)
    requires a < 3 && b < 3
    ensures Abs(DriftedCost(a, n, base, drift) - DriftedCost(b, n, base, drift)) <= 2.0 * Abs(drift)
    ensures n % 3 == 0 ==> DriftedCost(a, n, base, drift) == DriftedCost(b, n, base, drift)
  {
    hide DriftedCost, TimeSum, Abs;
    DriftedCostIs(a, n, base, drift);
    DriftedCostIs(b, n, base, drift);
    TimesBalanced(a, b, n);
    DriftBound(drift, TimeSum(a, n), TimeSum(b, n),
               DriftedCost(a, n, base, drift), DriftedCost(b, n, base, drift), base * n as real);
  }
}

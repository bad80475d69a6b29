/** The sparse constraint Jacobian and the diagonal Hessian that the optimizer
    hands to the solver, as pure functions of N (the number of sample points) and
    the step ds, with their relation to the partial derivatives of the problem. */
module LateralDerivatives {
  import opened LateralProblem

  // ---------------------------------------------------------------------------
  // Jacobian enumeration. Nonzero k belongs to a block (0: curvature-rate rows,
  // 1: rate rows, 2: position rows, 3: initial-state entries), to a sample pair
  // i inside its block, and to a slot s inside the pair.
  // ---------------------------------------------------------------------------

  datatype Slot = Slot(block: nat, pair: nat, slot: nat)

  /** Nonzeros per pair in each block. */
  function Width(block: nat): nat
  {
    if block == 0 then 2 else if block == 1 then 4 else if block == 2 then 5 else 3
  }

  /** Index of the first nonzero of each block. */
  function JacBlockStart(n: nat, block: nat): nat
    requires n >= 1
  {
    if block == 0 then 0
    else if block == 1 then 2 * (n - 1)
    else if block == 2 then 6 * (n - 1)
    else 11 * (n - 1)
  }

  /** The number of nonzeros: 2, 4 and 5 per consecutive pair, and 3 more. */
  function JacNnz(n: nat): (nnz: nat)
    requires n >= 1
    ensures nnz == 11 * (n - 1) + 3
  {
    2 * (n - 1) + 4 * (n - 1) + 5 * (n - 1) + 3
  }

  predicate ValidSlot(n: nat, sl: Slot)
  {
    sl.block < 4 && sl.slot < Width(sl.block)
    && (if sl.block < 3 then sl.pair + 1 < n else sl.pair == 0)
  }

  /** Where nonzero k sits in the enumeration. */
  function SlotOf(n: nat, k: nat): (sl: Slot)
    requires n >= 1 && k < JacNnz(n)
    ensures ValidSlot(n, sl)
  {
    if k < 2 * (n - 1) then Slot(0, k / 2, k % 2)
    else if k < 6 * (n - 1) then Slot(1, (k - 2 * (n - 1)) / 4, (k - 2 * (n - 1)) % 4)
    else if k < 11 * (n - 1) then Slot(2, (k - 6 * (n - 1)) / 5, (k - 6 * (n - 1)) % 5)
    else Slot(3, 0, k - 11 * (n - 1))
  }

  /** The enumeration index of a slot: the inverse of SlotOf. */
  function IndexOf(n: nat, sl: Slot): (k: nat)
    requires n >= 1 && ValidSlot(n, sl)
    ensures k < JacNnz(n) && SlotOf(n, k) == sl
  {
    if sl.block == 0 then 2 * sl.pair + sl.slot
    else if sl.block == 1 then 2 * (n - 1) + 4 * sl.pair + sl.slot
    else if sl.block == 2 then 6 * (n - 1) + 5 * sl.pair + sl.slot
    else 11 * (n - 1) + sl.slot
  }

  /** SlotOf is the inverse of IndexOf too: every index names exactly one slot. */
  lemma IndexOfSlotOf(n: nat, k: nat)
    requires n >= 1 && k < JacNnz(n)
    ensures IndexOf(n, SlotOf(n, k)) == k
  {
  }

  /** The (row, column) of a slot, exactly as the structure phase writes it. */
  function SlotEntry(n: nat, sl: Slot): (int, int)
    requires ValidSlot(n, sl) && n >= 1
  {
    var i, s := sl.pair, sl.slot;
    if sl.block == 0 then (i, 2 * n + i + s)
    else if sl.block == 1 then
      (n - 1 + i, if s == 0 then n + i else if s == 1 then n + i + 1 else if s == 2 then 2 * n + i else 2 * n + i + 1)
    else if sl.block == 2 then
      (2 * (n - 1) + i, if s == 0 then i else if s == 1 then i + 1 else if s == 2 then n + i
                        else if s == 3 then 2 * n + i else 2 * n + i + 1)
    else (3 * (n - 1), InitialColumn(n, s))
  }

  /** The column of the sample-0 variable in block t (offset, rate, curvature-rate). */
  function InitialColumn(n: nat, t: nat): nat
  {
    if t == 0 then 0 else if t == 1 then n else 2 * n
  }

  /** The value of a slot, exactly as the values phase writes it. */
  function SlotValue(ds: real, sl: Slot): real
    requires sl.block < 4 && sl.slot < Width(sl.block)
  {
    var s := sl.slot;
    if sl.block == 3 || s == 0 then 1.0
    else if s == 1 then -1.0
    else if sl.block == 1 then 0.5 * ds
    else if sl.block == 2 then (if s == 2 then ds else if s == 3 then ds * ds / 3.0 else ds * ds / 6.0)
    else 1.0
  }

  function JacEntry(n: nat, k: nat): (int, int)
    requires n >= 1 && k < JacNnz(n)
  {
    SlotEntry(n, SlotOf(n, k))
  }

  function JacValue(n: nat, ds: real, k: nat): real
    requires n >= 1 && k < JacNnz(n)
  {
    SlotValue(ds, SlotOf(n, k))
  }

  // ---------------------------------------------------------------------------
  // Properties of the pattern as written
  // ---------------------------------------------------------------------------

  /** The first row of each block. */
  function BlockRowStart(n: nat, block: nat): nat
    requires n >= 1
  {
    if block == 0 then 0 else if block == 1 then n - 1 else if block == 2 then 2 * (n - 1) else 3 * (n - 1)
  }

  /** The row of a slot: the first row of its block plus its pair. */
  lemma SlotRow(n: nat, sl: Slot)
    requires n >= 1 && ValidSlot(n, sl)
    ensures SlotEntry(n, sl).0 == BlockRowStart(n, sl.block) + sl.pair
  {
  }

  /** Every row and every column lies in [0, 3N); rows never exceed 3(N - 1). */
  lemma JacEntryInRange(n: nat, k: nat)
    requires n >= 1 && k < JacNnz(n)
    ensures 0 <= JacEntry(n, k).0 <= 3 * (n - 1) < 3 * n
    ensures 0 <= JacEntry(n, k).1 < 3 * n
  {
  }

  /** Rows are non-decreasing along the enumeration. */
  lemma JacRowsNonDecreasing(n: nat, k1: nat, k2: nat)
    requires n >= 1 && k1 <= k2 < JacNnz(n)
    ensures JacEntry(n, k1).0 <= JacEntry(n, k2).0
  {
    var s1, s2 := SlotOf(n, k1), SlotOf(n, k2);
    if s1.block == s2.block && s1.block < 3 {
      var b := JacBlockStart(n, s1.block);
      DivMonotone(k1 - b, k2 - b, Width(s1.block));
    }
  }

  lemma DivMonotone(a: nat, b: nat, w: nat)
    requires a <= b && (w == 2 || w == 4 || w == 5 || w == 3)
    ensures a / w <= b / w
  {
  }

  /** Every row 0 .. 3(N - 1) holds at least one nonzero. */
  lemma JacRowsCovered(n: nat, r: nat)
    requires n >= 1 && r <= 3 * (n - 1)
    ensures exists k :: 0 <= k < JacNnz(n) && JacEntry(n, k).0 == r
  {
    var sl := if r < n - 1 then Slot(0, r, 0)
              else if r < 2 * (n - 1) then Slot(1, r - (n - 1), 0)
              else if r < 3 * (n - 1) then Slot(2, r - 2 * (n - 1), 0)
              else Slot(3, 0, 0);
    var k := IndexOf(n, sl);
    assert JacEntry(n, k).0 == r;
  }

  /** The initial-state constraint rows 3(N - 1) + 1 and 3(N - 1) + 2 hold no
      nonzero at all: the three initial-state entries all sit on row 3(N - 1). */
  lemma JacMissesInitialRows(n: nat, k: nat)
    requires n >= 1 && k < JacNnz(n)
    ensures JacEntry(n, k).0 != 3 * (n - 1) + 1 && JacEntry(n, k).0 != 3 * (n - 1) + 2
    ensures k >= JacBlockStart(n, 3) ==> JacEntry(n, k) == (3 * (n - 1), InitialColumn(n, k - 11 * (n - 1)))
  {
  }

  /** No (row, column) pair is listed twice. */
  lemma JacEntriesDistinct(n: nat, k1: nat, k2: nat)
    requires n >= 1 && k1 < JacNnz(n) && k2 < JacNnz(n) && k1 != k2
    ensures JacEntry(n, k1) != JacEntry(n, k2)
  {
    var s1, s2 := SlotOf(n, k1), SlotOf(n, k2);
    IndexOfSlotOf(n, k1);
    IndexOfSlotOf(n, k2);
    SlotEntryInjective(n, s1, s2);
  }

  lemma SlotEntryInjective(n: nat, s1: Slot, s2: Slot)
    requires n >= 1 && ValidSlot(n, s1) && ValidSlot(n, s2) && s1 != s2
    ensures SlotEntry(n, s1) != SlotEntry(n, s2)
  {
    SlotRow(n, s1);
    SlotRow(n, s2);
    if SlotEntry(n, s1).0 == SlotEntry(n, s2).0 {
      assert s1.block == s2.block && s1.pair == s2.pair;
      assert s1.slot != s2.slot;
      SlotColumnInjective(n, s1.block, s1.pair, s1.slot, s2.slot);
    }
  }

  lemma SlotColumnInjective(n: nat, block: nat, pair: nat, a: nat, b: nat)
    requires n >= 1 && ValidSlot(n, Slot(block, pair, a)) && ValidSlot(n, Slot(block, pair, b)) && a != b
    ensures SlotEntry(n, Slot(block, pair, a)).1 != SlotEntry(n, Slot(block, pair, b)).1
  {
  }

  /** The values against the partial derivatives of the constraints: in blocks 1
      to 3 (rate and position rows, first initial-state entry) each value is the
      partial derivative at its (row, column); in block 0 it is its negation; the
      second and third initial-state values are the partial derivatives of rows
      3(N - 1) + 1 and 3(N - 1) + 2, not of the row they are listed on. */
  lemma JacValuesAgainstPartials(n: nat, ds: real, k: nat)
    requires n >= 1 && k < JacNnz(n)
    ensures var (r, c) := JacEntry(n, k);
      0 <= r < 3 * n && 0 <= c &&
      (k < JacBlockStart(n, 1) ==> JacValue(n, ds, k) == -Partial(n, ds, r, c)) &&
      (JacBlockStart(n, 1) <= k <= JacBlockStart(n, 3) ==> JacValue(n, ds, k) == Partial(n, ds, r, c)) &&
      (JacBlockStart(n, 3) < k ==>
        JacValue(n, ds, k) == Partial(n, ds, r + (k - JacBlockStart(n, 3)), c) &&
        Partial(n, ds, r, c) == 0.0)
  {
    var sl := SlotOf(n, k);
    SlotValueAgainstPartial(n, ds, sl);
  }

  /** JacValuesAgainstPartials for one slot. */
  lemma SlotValueAgainstPartial(n: nat, ds: real, sl: Slot)
    requires n >= 1 && ValidSlot(n, sl)
    ensures var (r, c) := SlotEntry(n, sl);
      0 <= r < 3 * n && 0 <= c &&
      (sl.block == 0 ==> SlotValue(ds, sl) == -Partial(n, ds, r, c)) &&
      ((sl.block == 1 || sl.block == 2 || (sl.block == 3 && sl.slot == 0)) ==>
        SlotValue(ds, sl) == Partial(n, ds, r, c)) &&
      (sl.block == 3 ==> r + sl.slot < 3 * n && SlotValue(ds, sl) == Partial(n, ds, r + sl.slot, c)) &&
      (sl.block == 3 && sl.slot > 0 ==> Partial(n, ds, r, c) == 0.0)
  {
    var (r, c) := SlotEntry(n, sl);
    var i, s := sl.pair, sl.slot;
    if sl.block == 0 {
      assert r == i && Partial(n, ds, r, c) == CurvatureRatePartial(n, i, c);
    } else if sl.block == 1 {
      assert r == n - 1 + i && Partial(n, ds, r, c) == RatePartial(n, ds, i, c);
    } else if sl.block == 2 {
      assert r == 2 * (n - 1) + i && Partial(n, ds, r, c) == PositionPartial(n, ds, i, c);
    } else {
      assert r == 3 * (n - 1) && c == InitialColumn(n, s);
      assert Partial(n, ds, r, c) == InitialPartial(n, 0, c);
      assert Partial(n, ds, r + s, c) == InitialPartial(n, s, c);
    }
  }

  /** Every nonzero partial derivative of rows 0 .. 3(N - 1) has a place in the
      pattern. */
  lemma JacPatternCoversPartials(n: nat, ds: real, r: nat, c: nat)
    requires n >= 1 && r <= 3 * (n - 1) && c < 3 * n && Partial(n, ds, r, c) != 0.0
    ensures exists k :: 0 <= k < JacNnz(n) && JacEntry(n, k) == (r, c)
  {
    var sl := WitnessSlot(n, ds, r, c);
    var k := IndexOf(n, sl);
    assert JacEntry(n, k) == (r, c);
  }

  /** The slot holding a nonzero partial derivative, with the initial-state
      block placed either on one row (as written) or on three (corrected). */
  function WitnessSlot(n: nat, ds: real, r: nat, c: nat): (sl: Slot)
    requires n >= 1 && r < 3 * n && c < 3 * n && Partial(n, ds, r, c) != 0.0
    ensures ValidSlot(n, sl)
    ensures r <= 3 * (n - 1) ==> SlotEntry(n, sl) == (r, c)
    ensures CorrectedSlotEntry(n, sl) == (r, c)
  {
    if r < n - 1 then
      Slot(0, r, if c == 2 * n + r then 0 else 1)
    else if r < 2 * (n - 1) then
      var i := r - (n - 1);
      Slot(1, i, if c == n + i then 0 else if c == n + i + 1 then 1 else if c == 2 * n + i then 2 else 3)
    else if r < 3 * (n - 1) then
      var i := r - 2 * (n - 1);
      Slot(2, i, if c == i then 0 else if c == i + 1 then 1 else if c == n + i then 2
                 else if c == 2 * n + i then 3 else 4)
    else
      Slot(3, 0, r - 3 * (n - 1))
  }

  /** A concrete instance of the block-0 sign: two points, ds = 1. The first
      nonzero is the derivative of d''_1 - d''_0 with respect to d''_0, which
      is -1, but the values phase writes 1. */
  lemma JacSignFlipInstance()
    ensures JacEntry(2, 0) == (0, 4)
    ensures JacValue(2, 1.0, 0) == 1.0
    ensures Partial(2, 1.0, 0, 4) == -1.0
  {
  }

  /** A concrete instance of the collapsed initial-state rows: one point. The
      three nonzeros are all on row 0, while row 1 (d'_0 - d'_init) has the
      nonzero partial derivative 1 with respect to d'_0 and no entry. */
  lemma JacCollapsedRowsInstance(ds: real)
    ensures JacNnz(1) == 3
    ensures JacEntry(1, 0) == (0, 0) && JacEntry(1, 1) == (0, 1) && JacEntry(1, 2) == (0, 2)
    ensures Partial(1, ds, 1, 1) == 1.0
  {
    JacMissesInitialRows(1, 0);
    JacMissesInitialRows(1, 1);
    JacMissesInitialRows(1, 2);
  }

  // ---------------------------------------------------------------------------
  // The Jacobian that matches the constraint residuals: curvature-rate values
  // negated to fit d''_{i+1} - d''_i, and the initial-state entries on rows
  // 3(N - 1), 3(N - 1) + 1 and 3(N - 1) + 2, one per initial-state residual.
  // ---------------------------------------------------------------------------

  function CorrectedSlotEntry(n: nat, sl: Slot): (int, int)
    requires ValidSlot(n, sl) && n >= 1
  {
    if sl.block == 3 then (3 * (n - 1) + sl.slot, InitialColumn(n, sl.slot))
    else SlotEntry(n, sl)
  }

  function CorrectedSlotValue(ds: real, sl: Slot): real
    requires sl.block < 4 && sl.slot < Width(sl.block)
  {
    if sl.block == 0 then -SlotValue(ds, sl) else SlotValue(ds, sl)
  }

  function CorrectedJacEntry(n: nat, k: nat): (int, int)
    requires n >= 1 && k < JacNnz(n)
  {
    CorrectedSlotEntry(n, SlotOf(n, k))
  }

  function CorrectedJacValue(n: nat, ds: real, k: nat): real
    requires n >= 1 && k < JacNnz(n)
  {
    CorrectedSlotValue(ds, SlotOf(n, k))
  }

  /** Every corrected value is the partial derivative at its (row, column). */
  lemma CorrectedJacValueIsPartial(n: nat, ds: real, k: nat)
    requires n >= 1 && k < JacNnz(n)
    ensures var (r, c) := CorrectedJacEntry(n, k);
      0 <= r < 3 * n && 0 <= c < 3 * n && CorrectedJacValue(n, ds, k) == Partial(n, ds, r, c)
  {
    var sl := SlotOf(n, k);
    SlotValueAgainstPartial(n, ds, sl);
    JacEntryInRange(n, k);
  }

  /** Every nonzero partial derivative of every row has a place in the corrected
      pattern, so the corrected pattern and values are the whole Jacobian. */
  lemma CorrectedPatternCoversPartials(n: nat, ds: real, r: nat, c: nat)
    requires n >= 1 && r < 3 * n && c < 3 * n && Partial(n, ds, r, c) != 0.0
    ensures exists k :: 0 <= k < JacNnz(n) && CorrectedJacEntry(n, k) == (r, c)
  {
    var sl := WitnessSlot(n, ds, r, c);
    var k := IndexOf(n, sl);
    assert CorrectedJacEntry(n, k) == (r, c);
  }

  // ---------------------------------------------------------------------------
  // Hessian
  // ---------------------------------------------------------------------------

  /** The Hessian values written by the values phase: 4 on offsets, 2 elsewhere. */
  function HessValue(n: nat, k: nat): real
    requires k < 3 * n
  {
    if k < n then 4.0 else 2.0
  }

  /** With the unit weights the optimizer uses, the constant Hessian values are the
      second partial derivatives of the objective. */
  lemma HessValueIsSecondDerivative(x: seq<real>, bounds: seq<Bound>, k: nat, h: real)
    requires |x| == 3 * |bounds| && k < 3 * |bounds|
    ensures HessValue(|bounds|, k) == HessianDiagonal(|bounds|, UnitWeights, k)
    ensures Objective(x[k := x[k] + h], bounds, UnitWeights)
         == Objective(x, bounds, UnitWeights) + h * Gradient(x, bounds, UnitWeights, k)
            + h * h * HessValue(|bounds|, k) / 2.0
  {
    ObjectiveTaylor(x, bounds, UnitWeights, k, h);
  }
}

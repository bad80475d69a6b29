/** The optimizer object: the nonlinear-program callbacks the solver calls, each
    filling caller-provided buffers in place, and the finalisation that fills the
    optimizer's piecewise trajectory. N is the number of corridor bounds. */
module LateralOptimizer {
  import opened ConstantJerk
  import opened PiecewiseJerk
  import opened LateralProblem
  import opened LateralDerivatives
  import opened LateralSolution

  /** The index base reported to the solver. */
  datatype IndexStyle = CStyle | FortranStyle

  class LateralTrajectoryOptimizer {
    const numOfPoints: nat
    const numOfVariables: nat
    const deltaS: real
    const dBounds: seq<Bound>
    const wD: real
    const wDPrime: real
    const wDPPrime: real
    const wDObs: real

    // Members the constructor never sets: the initial state read by the
    // starting point and the initial-state constraints, and the curvature-rate
    // limit. Their values are whatever the object was created with.
    const dInit: real
    const dPrimeInit: real
    const dPPrimeInit: real
    const dPPPrimeMax: real

    /** The nonzero count cached by the structure phase of EvalJacG. */
    var nnzJacG: nat
    var optPiecewiseTrajectory: PiecewiseJerkTrajectory

    predicate Valid()
    {
      numOfPoints == |dBounds| && numOfPoints >= 1 && numOfVariables == 3 * numOfPoints
      && deltaS > 0.0 && Weights() == UnitWeights
    }

    function Weights(): ObjectiveWeights
    {
      ObjectiveWeights(wD, wDPrime, wDPPrime, wDObs)
    }

    /** The initial state the constraints and the starting point refer to. */
    function InitialState(): LateralState
    {
      LateralState(dInit, dPrimeInit, dPPrimeInit)
    }

    /** The arguments dInit, dPrimeInit, dPPrimeInit only start the trajectory;
        the members of the same name are left as they are. */
    constructor (dInit: real, dPrimeInit: real, dPPrimeInit: real, deltaS: real, dBounds: seq<Bound>)
      requires |dBounds| >= 1 && deltaS > 0.0
      ensures Valid()
      ensures this.numOfPoints == |dBounds| && this.deltaS == deltaS && this.dBounds == dBounds
      ensures optPiecewiseTrajectory == PiecewiseJerkTrajectory(State(dInit, dPrimeInit, dPPrimeInit), [])
    {
      optPiecewiseTrajectory := PiecewiseJerkTrajectory(State(dInit, dPrimeInit, dPPrimeInit), []);
      numOfPoints := |dBounds|;
      numOfVariables := 3 * |dBounds|;
      this.deltaS := deltaS;
      this.dBounds := dBounds;
      wD := 1.0;
      wDPrime := 1.0;
      wDPPrime := 1.0;
      wDObs := 1.0;
    }

    /** Problem sizes. The nonzero count of the Jacobian is never assigned, so
        the caller's value comes back unchanged. */
    method GetNlpInfo(nnzJacGIn: int)
      returns (ok: bool, n: int, m: int, nnzJacGOut: int, nnzHLag: int, indexStyle: IndexStyle)
      requires Valid()
      ensures ok
      ensures n == 3 * numOfPoints && m == 3 * numOfPoints && nnzHLag == n
      ensures indexStyle == CStyle
      ensures nnzJacGOut == nnzJacGIn
    {
      n := numOfPoints * 3;
      m := numOfPoints * 3;
      nnzHLag := n;
      indexStyle := CStyle;
      nnzJacGOut := nnzJacGIn;
      ok := true;
    }

    /** Variable bounds: the corridor on offsets, +-LargeValue on rates and
        curvature-rates. Constraint bounds: +-dPPPrimeMax * deltaS on the
        curvature-rate rows, zero on every other row. */
    method GetBoundsInfo(xL: array<real>, xU: array<real>, gL: array<real>, gU: array<real>) returns (ok: bool)
      requires Valid()
      requires xL.Length == 3 * numOfPoints && xU.Length == 3 * numOfPoints
      requires gL.Length == 3 * numOfPoints && gU.Length == 3 * numOfPoints
      requires xL != xU && xL != gL && xL != gU && xU != gL && xU != gU && gL != gU
      modifies xL, xU, gL, gU
      ensures ok
      ensures forall k :: 0 <= k < 3 * numOfPoints ==>
        xL[k] == VariableLower(dBounds, k) && xU[k] == VariableUpper(dBounds, k)
      ensures forall r :: 0 <= r < 3 * numOfPoints ==>
        gL[r] == ConstraintLower(numOfPoints, dPPPrimeMax, deltaS, r)
        && gU[r] == ConstraintUpper(numOfPoints, dPPPrimeMax, deltaS, r)
    {
      var n := numOfPoints;
      for i := 0 to n
        invariant forall k :: 0 <= k < i ==> xL[k] == VariableLower(dBounds, k) && xU[k] == VariableUpper(dBounds, k)
      {
        xL[i] := dBounds[i].0;
        xU[i] := dBounds[i].1;
      }
      var offset := n;
      for i := 0 to n
        invariant forall k :: 0 <= k < n + i ==> xL[k] == VariableLower(dBounds, k) && xU[k] == VariableUpper(dBounds, k)
      {
        xL[offset + i] := -LargeValue;
        xU[offset + i] := LargeValue;
      }
      offset := 2 * n;
      for i := 0 to n
        invariant forall k :: 0 <= k < 2 * n + i ==> xL[k] == VariableLower(dBounds, k) && xU[k] == VariableUpper(dBounds, k)
      {
        xL[offset + i] := -LargeValue;
        xU[offset + i] := LargeValue;
      }

      ghost var xLDone, xUDone := xL[..], xU[..];
      for i := 0 to n - 1
        invariant xL[..] == xLDone && xU[..] == xUDone
        invariant forall r :: 0 <= r < i ==>
          gL[r] == ConstraintLower(n, dPPPrimeMax, deltaS, r) && gU[r] == ConstraintUpper(n, dPPPrimeMax, deltaS, r)
      {
        gL[i] := -dPPPrimeMax * deltaS;
        gU[i] := dPPPrimeMax * deltaS;
      }
      offset := n - 1;
      for i := 0 to n - 1
        invariant xL[..] == xLDone && xU[..] == xUDone
        invariant forall r :: 0 <= r < n - 1 + i ==>
          gL[r] == ConstraintLower(n, dPPPrimeMax, deltaS, r) && gU[r] == ConstraintUpper(n, dPPPrimeMax, deltaS, r)
      {
        gU[offset + i] := 0.0;
        gL[offset + i] := 0.0;
      }
      offset := 2 * (n - 1);
      for i := 0 to n - 1
        invariant xL[..] == xLDone && xU[..] == xUDone
        invariant forall r :: 0 <= r < 2 * (n - 1) + i ==>
          gL[r] == ConstraintLower(n, dPPPrimeMax, deltaS, r) && gU[r] == ConstraintUpper(n, dPPPrimeMax, deltaS, r)
      {
        gU[offset + i] := 0.0;
        gL[offset + i] := 0.0;
      }
      offset := 3 * (n - 1);
      gU[offset] := 0.0;
      gL[offset] := 0.0;
      gU[offset + 1] := 0.0;
      gL[offset + 1] := 0.0;
      gU[offset + 2] := 0.0;
      gL[offset + 2] := 0.0;
      assert xL[..] == xLDone && xU[..] == xUDone;
      ok := true;
    }

    /** The primal starting point, zero except for the initial state at sample 0.
        The callback reports false. */
    method GetStartingPoint(n: int, initX: bool, x: array<real>, initZ: bool, initLambda: bool) returns (ok: bool)
      requires Valid()
      requires n == numOfPoints * 3 && initX && !initZ && !initLambda
      requires x.Length == n
      modifies x
      ensures !ok
      ensures x[..] == StartingPoint(numOfPoints, InitialState())
    {
      var np := numOfPoints;
      for i := 0 to np
        invariant forall k :: 0 <= k < 3 * np && PointOf(np, k) < i ==> x[k] == 0.0
      {
        x[i] := 0.0;
        x[np + i] := 0.0;
        x[np + np + i] := 0.0;
      }
      x[0] := dInit;
      x[np] := dPrimeInit;
      x[np + np] := dPPrimeInit;
      ok := false;
    }

    /** The objective value at x. */
    method EvalF(x: seq<real>) returns (ok: bool, objValue: real)
      requires Valid() && |x| == 3 * numOfPoints
      ensures ok && objValue == Objective(x, dBounds, Weights())
    {
      objValue := 0.0;
      var offsetPrime := numOfPoints;
      var offsetPPrime := 2 * numOfPoints;
      for i := 0 to numOfPoints
        invariant objValue == PartialObjective(x, dBounds, Weights(), i)
      {
        objValue := objValue + x[i] * x[i] * wD;
        objValue := objValue + x[offsetPrime + i] * x[offsetPrime + i] * wDPrime;
        objValue := objValue + x[offsetPPrime + i] * x[offsetPPrime + i] * wDPPrime;
        var dist := x[i] - (dBounds[i].0 + dBounds[i].1) * 0.5;
        objValue := objValue + dist * dist * wDObs;
      }
      ok := true;
    }

    /** The gradient of the objective at x. */
    method EvalGradF(x: seq<real>, gradF: array<real>) returns (ok: bool)
      requires Valid() && |x| == 3 * numOfPoints && gradF.Length == 3 * numOfPoints
      modifies gradF
      ensures ok
      ensures forall k :: 0 <= k < 3 * numOfPoints ==> gradF[k] == Gradient(x, dBounds, Weights(), k)
    {
      var n := numOfPoints;
      for k := 0 to gradF.Length {
        gradF[k] := 0.0;
      }
      var offsetPrime := n;
      var offsetPPrime := 2 * n;
      for i := 0 to n
        invariant forall k :: 0 <= k < 3 * n && PointOf(n, k) < i ==> gradF[k] == Gradient(x, dBounds, Weights(), k)
      {
        var obsCenter := (dBounds[i].0 + dBounds[i].1) * 0.5;
        gradF[i] := 2.0 * x[i] * wD + 2.0 * (x[i] - obsCenter) * wDObs;
        gradF[offsetPrime + i] := 2.0 * x[offsetPrime + i] * wDPrime;
        gradF[offsetPPrime + i] := 2.0 * x[offsetPPrime + i] * wDPPrime;
      }
      ok := true;
    }

    /** The constraint residuals at x, block by block. */
    method EvalG(x: seq<real>, g: array<real>) returns (ok: bool)
      requires Valid() && |x| == 3 * numOfPoints && g.Length == 3 * numOfPoints
      modifies g
      ensures ok
      ensures g[..] == Constraints(x, numOfPoints, deltaS, InitialState())
    {
      var n := numOfPoints;
      var offsetPrime := n;
      var offsetPPrime := 2 * n;
      for i := 0 to n - 1
        invariant forall r :: 0 <= r < i ==> g[r] == ConstraintAt(x, n, deltaS, InitialState(), r)
      {
        g[i] := x[offsetPPrime + i + 1] - x[offsetPPrime + i];
      }
      for i := 0 to n - 1
        invariant forall r :: 0 <= r < 3 * (n - 1) && (r < n - 1 + i || 2 * (n - 1) <= r < 2 * (n - 1) + i) ==>
          g[r] == ConstraintAt(x, n, deltaS, InitialState(), r)
      {
        var p0 := x[i];
        var v0 := x[offsetPrime + i];
        var a0 := x[offsetPPrime + i];
        var p1 := x[i + 1];
        var v1 := x[offsetPrime + i + 1];
        var a1 := x[offsetPPrime + i + 1];
        var j := (a1 - a0) / deltaS;
        g[n - 1 + i] := EndVelocity(v0, a0, j, deltaS) - v1;
        g[2 * (n - 1) + i] := EndPosition(p0, v0, a0, j, deltaS) - p1;
      }
      var offset := 3 * (n - 1);
      g[offset] := x[0] - dInit;
      g[offset + 1] := x[offsetPrime] - dPrimeInit;
      g[offset + 2] := x[offsetPPrime] - dPPrimeInit;
      assert g[..] == Constraints(x, n, deltaS, InitialState());
      ok := true;
    }

    /** The constraint Jacobian in two phases. Without a values buffer it writes
        the sparsity pattern and caches its length; with one it writes the
        constant values in the same order. Neither depends on x. */
    method EvalJacG(n: int, x: seq<real>, newX: bool, m: int,
                    iRow: array?<int>, jCol: array?<int>, values: array?<real>) returns (ok: bool)
      requires Valid()
      requires n == numOfPoints * 3 && m == numOfPoints * 3
      requires values == null ==>
        iRow != null && jCol != null && iRow != jCol
        && iRow.Length >= JacNnz(numOfPoints) && jCol.Length >= JacNnz(numOfPoints)
      requires values != null ==> nnzJacG == JacNnz(numOfPoints) && values.Length >= nnzJacG
      modifies this`nnzJacG, iRow, jCol, values
      ensures ok
      ensures values == null ==>
        iRow != null && jCol != null && nnzJacG == JacNnz(numOfPoints)
        && (forall k :: 0 <= k < nnzJacG ==> (iRow[k], jCol[k]) == JacEntry(numOfPoints, k))
        && (forall k :: nnzJacG <= k < iRow.Length ==> iRow[k] == old(iRow[k]))
        && (forall k :: nnzJacG <= k < jCol.Length ==> jCol[k] == old(jCol[k]))
      ensures values != null ==>
        nnzJacG == old(nnzJacG)
        && (forall k :: 0 <= k < nnzJacG ==> values[k] == JacValue(numOfPoints, deltaS, k))
        && (forall k :: nnzJacG <= k < values.Length ==> values[k] == old(values[k]))
        && (iRow != null ==> iRow[..] == old(iRow[..]))
        && (jCol != null ==> jCol[..] == old(jCol[..]))
    {
      if values == null {
        JacStructurePhase(iRow, jCol);
      } else {
        JacValuesPhase(values);
      }
      ok := true;
    }

    /** The structure phase: one (row, column) pair per nonzero, counted by
        nzIndex, with constraintIndex advancing once per curvature-rate, rate
        and position row and not at all inside the initial-state block. */
    method JacStructurePhase(iRow: array<int>, jCol: array<int>)
      requires Valid() && iRow != jCol
      requires iRow.Length >= JacNnz(numOfPoints) && jCol.Length >= JacNnz(numOfPoints)
      modifies this`nnzJacG, iRow, jCol
      ensures nnzJacG == JacNnz(numOfPoints)
      ensures forall k :: 0 <= k < nnzJacG ==> (iRow[k], jCol[k]) == JacEntry(numOfPoints, k)
      ensures forall k :: nnzJacG <= k < iRow.Length ==> iRow[k] == old(iRow[k])
      ensures forall k :: nnzJacG <= k < jCol.Length ==> jCol[k] == old(jCol[k])
    {
      var nzIndex, constraintIndex := 0, 0;
      nzIndex, constraintIndex := CurvatureRatePattern(iRow, jCol, nzIndex, constraintIndex);
      nzIndex, constraintIndex := RatePattern(iRow, jCol, nzIndex, constraintIndex);
      nzIndex, constraintIndex := PositionPattern(iRow, jCol, nzIndex, constraintIndex);
      nzIndex := InitialPattern(iRow, jCol, nzIndex, constraintIndex);
      nnzJacG := nzIndex;
      PatternComplete(iRow[..], jCol[..], numOfPoints);
    }

    /** Curvature-rate rows: d''_i and d''_{i+1} on row i. */
    method CurvatureRatePattern(iRow: array<int>, jCol: array<int>, nz0: nat, ci0: nat) returns (nzIndex: nat, constraintIndex: nat)
      requires Valid() && iRow != jCol
      requires iRow.Length >= JacNnz(numOfPoints) && jCol.Length >= JacNnz(numOfPoints)
      requires nz0 == 0 && ci0 == 0
      requires PatternWritten(iRow[..], jCol[..], numOfPoints, nz0)
      modifies iRow, jCol
      ensures nzIndex == 2 * (numOfPoints - 1) && constraintIndex == numOfPoints - 1
      ensures PatternWritten(iRow[..], jCol[..], numOfPoints, nzIndex)
      ensures forall k :: nzIndex <= k < iRow.Length ==> iRow[k] == old(iRow[k])
      ensures forall k :: nzIndex <= k < jCol.Length ==> jCol[k] == old(jCol[k])
    {
      var np := numOfPoints;
      nzIndex, constraintIndex := nz0, ci0;
      var variableIndex := 0;
      while variableIndex + 1 < np
        invariant variableIndex <= np - 1
        invariant nzIndex == 0 + 2 * variableIndex && constraintIndex == 0 + variableIndex
        invariant PatternWritten(iRow[..], jCol[..], np, nzIndex)
        invariant forall k :: nzIndex <= k < iRow.Length ==> iRow[k] == old(iRow[k])
        invariant forall k :: nzIndex <= k < jCol.Length ==> jCol[k] == old(jCol[k])
      {
        ghost var start, rows0, cols0 := nzIndex, iRow[..], jCol[..];
        SetEntry(iRow, jCol, nzIndex, constraintIndex, 2 * np + variableIndex);
        nzIndex := nzIndex + 1;
        SetEntry(iRow, jCol, nzIndex, constraintIndex, 2 * np + variableIndex + 1);
        nzIndex := nzIndex + 1;
        CurvatureRateStep(np, variableIndex, start, constraintIndex, rows0, cols0, iRow[..], jCol[..]);
        constraintIndex := constraintIndex + 1;
        variableIndex := variableIndex + 1;
      }
    }

    /** Rate rows: d'_i, d'_{i+1}, d''_i and d''_{i+1} on row N - 1 + i. */
    method RatePattern(iRow: array<int>, jCol: array<int>, nz0: nat, ci0: nat) returns (nzIndex: nat, constraintIndex: nat)
      requires Valid() && iRow != jCol
      requires iRow.Length >= JacNnz(numOfPoints) && jCol.Length >= JacNnz(numOfPoints)
      requires nz0 == 2 * (numOfPoints - 1) && ci0 == numOfPoints - 1
      requires PatternWritten(iRow[..], jCol[..], numOfPoints, nz0)
      modifies iRow, jCol
      ensures nzIndex == 6 * (numOfPoints - 1) && constraintIndex == 2 * (numOfPoints - 1)
      ensures PatternWritten(iRow[..], jCol[..], numOfPoints, nzIndex)
      ensures forall k :: nzIndex <= k < iRow.Length ==> iRow[k] == old(iRow[k])
      ensures forall k :: nzIndex <= k < jCol.Length ==> jCol[k] == old(jCol[k])
    {
      var np := numOfPoints;
      nzIndex, constraintIndex := nz0, ci0;
      var variableIndex := 0;
      while variableIndex + 1 < np
        invariant variableIndex <= np - 1
        invariant nzIndex == 2 * (np - 1) + 4 * variableIndex && constraintIndex == np - 1 + variableIndex
        invariant PatternWritten(iRow[..], jCol[..], np, nzIndex)
        invariant forall k :: nzIndex <= k < iRow.Length ==> iRow[k] == old(iRow[k])
        invariant forall k :: nzIndex <= k < jCol.Length ==> jCol[k] == old(jCol[k])
      {
        ghost var start, rows0, cols0 := nzIndex, iRow[..], jCol[..];
        SetEntry(iRow, jCol, nzIndex, constraintIndex, np + variableIndex);
        nzIndex := nzIndex + 1;
        SetEntry(iRow, jCol, nzIndex, constraintIndex, np + variableIndex + 1);
        nzIndex := nzIndex + 1;
        SetEntry(iRow, jCol, nzIndex, constraintIndex, 2 * np + variableIndex);
        nzIndex := nzIndex + 1;
        SetEntry(iRow, jCol, nzIndex, constraintIndex, 2 * np + variableIndex + 1);
        nzIndex := nzIndex + 1;
        RateStep(np, variableIndex, start, constraintIndex, rows0, cols0, iRow[..], jCol[..]);
        constraintIndex := constraintIndex + 1;
        variableIndex := variableIndex + 1;
      }
    }

    /** Position rows: d_i, d_{i+1}, d'_i, d''_i and d''_{i+1} on row 2(N - 1) + i. */
    method PositionPattern(iRow: array<int>, jCol: array<int>, nz0: nat, ci0: nat) returns (nzIndex: nat, constraintIndex: nat)
      requires Valid() && iRow != jCol
      requires iRow.Length >= JacNnz(numOfPoints) && jCol.Length >= JacNnz(numOfPoints)
      requires nz0 == 6 * (numOfPoints - 1) && ci0 == 2 * (numOfPoints - 1)
      requires PatternWritten(iRow[..], jCol[..], numOfPoints, nz0)
      modifies iRow, jCol
      ensures nzIndex == 11 * (numOfPoints - 1) && constraintIndex == 3 * (numOfPoints - 1)
      ensures PatternWritten(iRow[..], jCol[..], numOfPoints, nzIndex)
      ensures forall k :: nzIndex <= k < iRow.Length ==> iRow[k] == old(iRow[k])
      ensures forall k :: nzIndex <= k < jCol.Length ==> jCol[k] == old(jCol[k])
    {
      var np := numOfPoints;
      nzIndex, constraintIndex := nz0, ci0;
      var variableIndex := 0;
      while variableIndex + 1 < np
        invariant variableIndex <= np - 1
        invariant nzIndex == 6 * (np - 1) + 5 * variableIndex && constraintIndex == 2 * (np - 1) + variableIndex
        invariant PatternWritten(iRow[..], jCol[..], np, nzIndex)
        invariant forall k :: nzIndex <= k < iRow.Length ==> iRow[k] == old(iRow[k])
        invariant forall k :: nzIndex <= k < jCol.Length ==> jCol[k] == old(jCol[k])
      {
        ghost var start, rows0, cols0 := nzIndex, iRow[..], jCol[..];
        SetEntry(iRow, jCol, nzIndex, constraintIndex, variableIndex);
        nzIndex := nzIndex + 1;
        SetEntry(iRow, jCol, nzIndex, constraintIndex, variableIndex + 1);
        nzIndex := nzIndex + 1;
        SetEntry(iRow, jCol, nzIndex, constraintIndex, np + variableIndex);
        nzIndex := nzIndex + 1;
        SetEntry(iRow, jCol, nzIndex, constraintIndex, 2 * np + variableIndex);
        nzIndex := nzIndex + 1;
        SetEntry(iRow, jCol, nzIndex, constraintIndex, 2 * np + variableIndex + 1);
        nzIndex := nzIndex + 1;
        PositionStep(np, variableIndex, start, constraintIndex, rows0, cols0, iRow[..], jCol[..]);
        constraintIndex := constraintIndex + 1;
        variableIndex := variableIndex + 1;
      }
    }

    /** Initial state: d_0, d'_0 and d''_0, all three on the current row. */
    method InitialPattern(iRow: array<int>, jCol: array<int>, nz0: nat, constraintIndex: nat) returns (nzIndex: nat)
      requires Valid() && iRow != jCol
      requires iRow.Length >= JacNnz(numOfPoints) && jCol.Length >= JacNnz(numOfPoints)
      requires nz0 == 11 * (numOfPoints - 1) && constraintIndex == 3 * (numOfPoints - 1)
      requires PatternWritten(iRow[..], jCol[..], numOfPoints, nz0)
      modifies iRow, jCol
      ensures nzIndex == JacNnz(numOfPoints)
      ensures PatternWritten(iRow[..], jCol[..], numOfPoints, nzIndex)
      ensures forall k :: nzIndex <= k < iRow.Length ==> iRow[k] == old(iRow[k])
      ensures forall k :: nzIndex <= k < jCol.Length ==> jCol[k] == old(jCol[k])
    {
      var np := numOfPoints;
      nzIndex := nz0;
      ghost var rows0, cols0 := iRow[..], jCol[..];
      SetEntry(iRow, jCol, nzIndex, constraintIndex, 0);
      nzIndex := nzIndex + 1;
      SetEntry(iRow, jCol, nzIndex, constraintIndex, np);
      nzIndex := nzIndex + 1;
      SetEntry(iRow, jCol, nzIndex, constraintIndex, 2 * np);
      nzIndex := nzIndex + 1;
      InitialStep(np, nz0, constraintIndex, rows0, cols0, iRow[..], jCol[..]);
    }

    /** The values phase: zeroes the first nnzJacG entries, then writes the
        constants block by block; the number written must equal the cached
        count, which the requires on nnzJacG stands for. */
    method JacValuesPhase(values: array<real>)
      requires Valid() && nnzJacG == JacNnz(numOfPoints) && values.Length >= nnzJacG
      modifies values
      ensures forall k :: 0 <= k < nnzJacG ==> values[k] == JacValue(numOfPoints, deltaS, k)
      ensures forall k :: nnzJacG <= k < values.Length ==> values[k] == old(values[k])
    {
      for k := 0 to nnzJacG
        invariant forall l :: nnzJacG <= l < values.Length ==> values[l] == old(values[l])
      {
        values[k] := 0.0;
      }
      var nzIndex := 0;
      nzIndex := CurvatureRateValues(values, nzIndex);
      nzIndex := RateValues(values, nzIndex);
      nzIndex := PositionValues(values, nzIndex);
      nzIndex := InitialValues(values, nzIndex);
      assert nzIndex == nnzJacG;
      ValuesComplete(values[..], numOfPoints, deltaS);
    }

    /** Curvature-rate rows: 1 and -1. */
    method CurvatureRateValues(values: array<real>, nz0: nat) returns (nzIndex: nat)
      requires Valid() && values.Length >= JacNnz(numOfPoints)
      requires nz0 == 0 && ValuesWritten(values[..], numOfPoints, deltaS, nz0)
      modifies values
      ensures nzIndex == 2 * (numOfPoints - 1) && ValuesWritten(values[..], numOfPoints, deltaS, nzIndex)
      ensures forall k :: nzIndex <= k < values.Length ==> values[k] == old(values[k])
    {
      var np := numOfPoints;
      nzIndex := nz0;
      var variableIndex := 0;
      while variableIndex + 1 < np
        invariant variableIndex <= np - 1
        invariant nzIndex == 0 + 2 * variableIndex
        invariant ValuesWritten(values[..], np, deltaS, nzIndex)
        invariant forall k :: nzIndex <= k < values.Length ==> values[k] == old(values[k])
      {
        ghost var start, vals0 := nzIndex, values[..];
        SetValue(values, nzIndex, 1.0);
        nzIndex := nzIndex + 1;
        SetValue(values, nzIndex, -1.0);
        nzIndex := nzIndex + 1;
        CurvatureRateValuesStep(np, deltaS, variableIndex, start, vals0, values[..]);
        variableIndex := variableIndex + 1;
      }
    }

    /** Rate rows: 1, -1, ds / 2 and ds / 2. */
    method RateValues(values: array<real>, nz0: nat) returns (nzIndex: nat)
      requires Valid() && values.Length >= JacNnz(numOfPoints)
      requires nz0 == 2 * (numOfPoints - 1) && ValuesWritten(values[..], numOfPoints, deltaS, nz0)
      modifies values
      ensures nzIndex == 6 * (numOfPoints - 1) && ValuesWritten(values[..], numOfPoints, deltaS, nzIndex)
      ensures forall k :: nzIndex <= k < values.Length ==> values[k] == old(values[k])
    {
      var np := numOfPoints;
      nzIndex := nz0;
      var variableIndex := 0;
      while variableIndex + 1 < np
        invariant variableIndex <= np - 1
        invariant nzIndex == 2 * (np - 1) + 4 * variableIndex
        invariant ValuesWritten(values[..], np, deltaS, nzIndex)
        invariant forall k :: nzIndex <= k < values.Length ==> values[k] == old(values[k])
      {
        ghost var start, vals0 := nzIndex, values[..];
        SetValue(values, nzIndex, 1.0);
        nzIndex := nzIndex + 1;
        SetValue(values, nzIndex, -1.0);
        nzIndex := nzIndex + 1;
        SetValue(values, nzIndex, 0.5 * deltaS);
        nzIndex := nzIndex + 1;
        SetValue(values, nzIndex, 0.5 * deltaS);
        nzIndex := nzIndex + 1;
        RateValuesStep(np, deltaS, variableIndex, start, vals0, values[..]);
        variableIndex := variableIndex + 1;
      }
    }

    /** Position rows: 1, -1, ds, ds^2 / 3 and ds^2 / 6. */
    method PositionValues(values: array<real>, nz0: nat) returns (nzIndex: nat)
      requires Valid() && values.Length >= JacNnz(numOfPoints)
      requires nz0 == 6 * (numOfPoints - 1) && ValuesWritten(values[..], numOfPoints, deltaS, nz0)
      modifies values
      ensures nzIndex == 11 * (numOfPoints - 1) && ValuesWritten(values[..], numOfPoints, deltaS, nzIndex)
      ensures forall k :: nzIndex <= k < values.Length ==> values[k] == old(values[k])
    {
      var np := numOfPoints;
      nzIndex := nz0;
      var variableIndex := 0;
      while variableIndex + 1 < np
        invariant variableIndex <= np - 1
        invariant nzIndex == 6 * (np - 1) + 5 * variableIndex
        invariant ValuesWritten(values[..], np, deltaS, nzIndex)
        invariant forall k :: nzIndex <= k < values.Length ==> values[k] == old(values[k])
      {
        ghost var start, vals0 := nzIndex, values[..];
        SetValue(values, nzIndex, 1.0);
        nzIndex := nzIndex + 1;
        SetValue(values, nzIndex, -1.0);
        nzIndex := nzIndex + 1;
        SetValue(values, nzIndex, deltaS);
        nzIndex := nzIndex + 1;
        SetValue(values, nzIndex, deltaS * deltaS / 3.0);
        nzIndex := nzIndex + 1;
        SetValue(values, nzIndex, deltaS * deltaS / 6.0);
        nzIndex := nzIndex + 1;
        PositionValuesStep(np, deltaS, variableIndex, start, deltaS * deltaS / 3.0, deltaS * deltaS / 6.0, vals0, values[..]);
        variableIndex := variableIndex + 1;
      }
    }

    /** Initial state: three ones. */
    method InitialValues(values: array<real>, nz0: nat) returns (nzIndex: nat)
      requires Valid() && values.Length >= JacNnz(numOfPoints)
      requires nz0 == 11 * (numOfPoints - 1) && ValuesWritten(values[..], numOfPoints, deltaS, nz0)
      modifies values
      ensures nzIndex == JacNnz(numOfPoints) && ValuesWritten(values[..], numOfPoints, deltaS, nzIndex)
      ensures forall k :: nzIndex <= k < values.Length ==> values[k] == old(values[k])
    {
      nzIndex := nz0;
      ghost var vals0 := values[..];
      for order := 0 to 3
        invariant nzIndex == nz0 + order
        invariant |values[..]| == |vals0|
        invariant forall k :: 0 <= k < nz0 ==> values[k] == vals0[k]
        invariant forall k :: nz0 <= k < nzIndex ==> values[k] == 1.0
        invariant forall k :: nzIndex <= k < values.Length ==> values[k] == old(values[k])
      {
        SetValue(values, nzIndex, 1.0);
        nzIndex := nzIndex + 1;
      }
      ValuesStep(numOfPoints, deltaS, 3, 0, vals0, values[..]);
    }

    /** The Hessian of the Lagrangian as a constant diagonal: pairs (k, k) in the
        structure phase, 4 on offsets and 2 elsewhere in the values phase,
        whatever x, objFactor and lambda are. */
    method EvalH(x: seq<real>, objFactor: real, lambda: seq<real>,
                 iRow: array?<int>, jCol: array?<int>, values: array?<real>) returns (ok: bool)
      requires Valid()
      requires values == null ==>
        iRow != null && jCol != null && iRow != jCol
        && iRow.Length >= 3 * numOfPoints && jCol.Length >= 3 * numOfPoints
      requires values != null ==> values.Length >= 3 * numOfPoints
      modifies iRow, jCol, values
      ensures ok
      ensures values == null ==>
        iRow != null && jCol != null
        && (forall k :: 0 <= k < 3 * numOfPoints ==> iRow[k] == k && jCol[k] == k)
        && (forall k :: 3 * numOfPoints <= k < iRow.Length ==> iRow[k] == old(iRow[k]))
        && (forall k :: 3 * numOfPoints <= k < jCol.Length ==> jCol[k] == old(jCol[k]))
      ensures values != null ==>
        (forall k :: 0 <= k < 3 * numOfPoints ==> values[k] == HessValue(numOfPoints, k))
        && (forall k :: 3 * numOfPoints <= k < values.Length ==> values[k] == old(values[k]))
        && (iRow != null ==> iRow[..] == old(iRow[..]))
        && (jCol != null ==> jCol[..] == old(jCol[..]))
    {
      var np := numOfPoints;
      if values == null {
        for i := 0 to 3 * np
          invariant forall k :: 0 <= k < i ==> iRow[k] == k && jCol[k] == k
          invariant forall k :: i <= k < iRow.Length ==> iRow[k] == old(iRow[k])
          invariant forall k :: i <= k < jCol.Length ==> jCol[k] == old(jCol[k])
        {
          iRow[i] := i;
          jCol[i] := i;
        }
      } else {
        for i := 0 to np
          invariant forall k :: 0 <= k < i ==> values[k] == HessValue(np, k)
          invariant forall k :: i <= k < values.Length ==> values[k] == old(values[k])
          invariant iRow != null ==> iRow[..] == old(iRow[..])
          invariant jCol != null ==> jCol[..] == old(jCol[..])
        {
          values[i] := 4.0;
        }
        for i := np to 3 * np
          invariant forall k :: 0 <= k < i ==> values[k] == HessValue(np, k)
          invariant forall k :: i <= k < values.Length ==> values[k] == old(values[k])
          invariant iRow != null ==> iRow[..] == old(iRow[..])
          invariant jCol != null ==> jCol[..] == old(jCol[..])
        {
          values[i] := 2.0;
        }
      }
      ok := true;
    }

    /** Appends N - 1 segments of length deltaS read from the solution, whatever
        the solver's status. The index read is fixed before the loop. */
    method FinalizeSolution(x: seq<real>)
      requires Valid() && |x| == 3 * numOfPoints
      modifies this`optPiecewiseTrajectory
      ensures optPiecewiseTrajectory == AppendAll(old(optPiecewiseTrajectory), FinalSegments(x, numOfPoints, deltaS))
    {
      ghost var segs := FinalSegments(x, numOfPoints, deltaS);
      var offset := numOfPoints * 2;
      for i := 1 to numOfPoints
        invariant optPiecewiseTrajectory == AppendAll(old(optPiecewiseTrajectory), segs[..i - 1])
      {
        var j := (x[offset] - x[offset - 1]) / deltaS;
        assert segs[..i] == segs[..i - 1] + [Segment(j, deltaS)];
        optPiecewiseTrajectory := optPiecewiseTrajectory.AppendSegment(j, deltaS);
      }
      assert segs[..numOfPoints - 1] == segs;
    }

    /** A copy of the trajectory built so far. */
    method GetOptimalTrajectory() returns (t: PiecewiseJerkTrajectory)
      ensures t == optPiecewiseTrajectory
    {
      t := optPiecewiseTrajectory;
    }
  }

  /** Every nonzero enumerated before index upto holds its (row, column). */
  ghost predicate PatternWritten(rows: seq<int>, cols: seq<int>, n: nat, upto: nat)
    requires n >= 1 && |rows| >= JacNnz(n) && |cols| >= JacNnz(n)
  {
    forall sl :: ValidSlot(n, sl) && IndexOf(n, sl) < upto ==>
      (rows[IndexOf(n, sl)], cols[IndexOf(n, sl)]) == SlotEntry(n, sl)
  }

  /** Every nonzero enumerated before index upto holds its value. */
  ghost predicate ValuesWritten(vals: seq<real>, n: nat, ds: real, upto: nat)
    requires n >= 1 && |vals| >= JacNnz(n)
  {
    forall sl :: ValidSlot(n, sl) && IndexOf(n, sl) < upto ==> vals[IndexOf(n, sl)] == SlotValue(ds, sl)
  }

  /** Writing curvature-rate row i extends the written pattern. */
  lemma CurvatureRateStep(n: nat, i: nat, b: nat, r: int, rows0: seq<int>, cols0: seq<int>, rows: seq<int>, cols: seq<int>)
    requires n >= 1 && i + 1 < n && b == 2 * i && r == i
    requires |rows0| >= JacNnz(n) && |cols0| >= JacNnz(n)
    requires PatternWritten(rows0, cols0, n, b)
    requires rows == rows0[b := r][b + 1 := r]
    requires cols == cols0[b := 2 * n + i][b + 1 := 2 * n + i + 1]
    ensures |rows| == |rows0| && |cols| == |cols0|
    ensures PatternWritten(rows, cols, n, b + 2)
    ensures forall k :: b + 2 <= k < |rows| ==> rows[k] == rows0[k]
    ensures forall k :: b + 2 <= k < |cols| ==> cols[k] == cols0[k]
  {
    PatternStep(n, 0, i, rows0, cols0, rows, cols);
  }

  /** Writing rate row N - 1 + i extends the written pattern. */
  lemma RateStep(n: nat, i: nat, b: nat, r: int, rows0: seq<int>, cols0: seq<int>, rows: seq<int>, cols: seq<int>)
    requires n >= 1 && i + 1 < n && b == 2 * (n - 1) + 4 * i && r == n - 1 + i
    requires |rows0| >= JacNnz(n) && |cols0| >= JacNnz(n)
    requires PatternWritten(rows0, cols0, n, b)
    requires rows == rows0[b := r][b + 1 := r][b + 2 := r][b + 3 := r]
    requires cols == cols0[b := n + i][b + 1 := n + i + 1][b + 2 := 2 * n + i][b + 3 := 2 * n + i + 1]
    ensures |rows| == |rows0| && |cols| == |cols0|
    ensures PatternWritten(rows, cols, n, b + 4)
    ensures forall k :: b + 4 <= k < |rows| ==> rows[k] == rows0[k]
    ensures forall k :: b + 4 <= k < |cols| ==> cols[k] == cols0[k]
  {
    PatternStep(n, 1, i, rows0, cols0, rows, cols);
  }

  /** Writing position row 2(N - 1) + i extends the written pattern. */
  lemma PositionStep(n: nat, i: nat, b: nat, r: int, rows0: seq<int>, cols0: seq<int>, rows: seq<int>, cols: seq<int>)
    requires n >= 1 && i + 1 < n && b == 6 * (n - 1) + 5 * i && r == 2 * (n - 1) + i
    requires |rows0| >= JacNnz(n) && |cols0| >= JacNnz(n)
    requires PatternWritten(rows0, cols0, n, b)
    requires rows == rows0[b := r][b + 1 := r][b + 2 := r][b + 3 := r][b + 4 := r]
    requires cols == cols0[b := i][b + 1 := i + 1][b + 2 := n + i][b + 3 := 2 * n + i][b + 4 := 2 * n + i + 1]
    ensures |rows| == |rows0| && |cols| == |cols0|
    ensures PatternWritten(rows, cols, n, b + 5)
    ensures forall k :: b + 5 <= k < |rows| ==> rows[k] == rows0[k]
    ensures forall k :: b + 5 <= k < |cols| ==> cols[k] == cols0[k]
  {
    PatternStep(n, 2, i, rows0, cols0, rows, cols);
  }

  /** Writing the initial-state entries completes the pattern. */
  lemma InitialStep(n: nat, b: nat, r: int, rows0: seq<int>, cols0: seq<int>, rows: seq<int>, cols: seq<int>)
    requires n >= 1 && b == 11 * (n - 1) && r == 3 * (n - 1)
    requires |rows0| >= JacNnz(n) && |cols0| >= JacNnz(n)
    requires PatternWritten(rows0, cols0, n, b)
    requires rows == rows0[b := r][b + 1 := r][b + 2 := r]
    requires cols == cols0[b := 0][b + 1 := n][b + 2 := 2 * n]
    ensures |rows| == |rows0| && |cols| == |cols0|
    ensures PatternWritten(rows, cols, n, b + 3)
    ensures forall k :: b + 3 <= k < |rows| ==> rows[k] == rows0[k]
    ensures forall k :: b + 3 <= k < |cols| ==> cols[k] == cols0[k]
  {
    PatternStep(n, 3, 0, rows0, cols0, rows, cols);
  }

  /** Writing the values of curvature-rate row i extends the written values. */
  lemma CurvatureRateValuesStep(n: nat, ds: real, i: nat, b: nat, vals0: seq<real>, vals: seq<real>)
    requires n >= 1 && i + 1 < n && b == 2 * i && |vals0| >= JacNnz(n)
    requires ValuesWritten(vals0, n, ds, b)
    requires vals == vals0[b := 1.0][b + 1 := -1.0]
    ensures |vals| == |vals0|
    ensures ValuesWritten(vals, n, ds, b + 2)
    ensures forall k :: b + 2 <= k < |vals| ==> vals[k] == vals0[k]
  {
    forall s | 0 <= s < 2
      ensures vals[IndexOf(n, Slot(0, i, s))] == SlotValue(ds, Slot(0, i, s))
    {
      assert IndexOf(n, Slot(0, i, s)) == b + s;
      if s == 0 {
        assert vals[b + 0] == 1.0 == SlotValue(ds, Slot(0, i, 0));
      } else {
        assert vals[b + 1] == -1.0 == SlotValue(ds, Slot(0, i, 1));
      }
    }
    ValuesStep(n, ds, 0, i, vals0, vals);
  }

  /** Writing the values of rate row N - 1 + i extends the written values. */
  lemma RateValuesStep(n: nat, ds: real, i: nat, b: nat, vals0: seq<real>, vals: seq<real>)
    requires n >= 1 && i + 1 < n && b == 2 * (n - 1) + 4 * i && |vals0| >= JacNnz(n)
    requires ValuesWritten(vals0, n, ds, b)
    requires vals == vals0[b := 1.0][b + 1 := -1.0][b + 2 := 0.5 * ds][b + 3 := 0.5 * ds]
    ensures |vals| == |vals0|
    ensures ValuesWritten(vals, n, ds, b + 4)
    ensures forall k :: b + 4 <= k < |vals| ==> vals[k] == vals0[k]
  {
    forall s | 0 <= s < 4
      ensures vals[IndexOf(n, Slot(1, i, s))] == SlotValue(ds, Slot(1, i, s))
    {
      assert IndexOf(n, Slot(1, i, s)) == b + s;
      if s == 0 {
        assert vals[b + 0] == 1.0 == SlotValue(ds, Slot(1, i, 0));
      } else if s == 1 {
        assert vals[b + 1] == -1.0 == SlotValue(ds, Slot(1, i, 1));
      } else if s == 2 {
        assert vals[b + 2] == 0.5 * ds == SlotValue(ds, Slot(1, i, 2));
      } else {
        assert vals[b + 3] == 0.5 * ds == SlotValue(ds, Slot(1, i, 3));
      }
    }
    ValuesStep(n, ds, 1, i, vals0, vals);
  }

  /** Writing the values of position row 2(N - 1) + i extends the written values. */
  lemma PositionValuesStep(n: nat, ds: real, i: nat, b: nat, third: real, sixth: real, vals0: seq<real>, vals: seq<real>)
    requires n >= 1 && i + 1 < n && b == 6 * (n - 1) + 5 * i && |vals0| >= JacNnz(n)
    requires ValuesWritten(vals0, n, ds, b)
    requires third == ds * ds / 3.0 && sixth == ds * ds / 6.0
    requires vals == vals0[b := 1.0][b + 1 := -1.0][b + 2 := ds][b + 3 := third][b + 4 := sixth]
    ensures |vals| == |vals0|
    ensures ValuesWritten(vals, n, ds, b + 5)
    ensures forall k :: b + 5 <= k < |vals| ==> vals[k] == vals0[k]
  {
    forall s | 0 <= s < 5
      ensures vals[IndexOf(n, Slot(2, i, s))] == SlotValue(ds, Slot(2, i, s))
    {
      assert IndexOf(n, Slot(2, i, s)) == b + s;
      if s == 0 {
        assert vals[b + 0] == 1.0 == SlotValue(ds, Slot(2, i, 0));
      } else if s == 1 {
        assert vals[b + 1] == -1.0 == SlotValue(ds, Slot(2, i, 1));
      } else if s == 2 {
        assert vals[b + 2] == ds == SlotValue(ds, Slot(2, i, 2));
      } else if s == 3 {
        assert vals[b + 3] == third == SlotValue(ds, Slot(2, i, 3));
      } else {
        assert vals[b + 4] == sixth == SlotValue(ds, Slot(2, i, 4));
      }
    }
    ValuesStep(n, ds, 2, i, vals0, vals);
  }

  /** One nonzero of the structure phase: its row and its column. */
  method SetEntry(iRow: array<int>, jCol: array<int>, k: nat, row: int, col: int)
    requires iRow != jCol && k < iRow.Length && k < jCol.Length
    modifies iRow, jCol
    ensures iRow[..] == old(iRow[..])[k := row] && jCol[..] == old(jCol[..])[k := col]
  {
    iRow[k] := row;
    jCol[k] := col;
  }

  /** One nonzero of the values phase. */
  method SetValue(values: array<real>, k: nat, v: real)
    requires k < values.Length
    modifies values
    ensures values[..] == old(values[..])[k := v]
  {
    values[k] := v;
  }

  /** An index inside the nonzeros of one pair belongs to that pair. */
  lemma SlotInPair(n: nat, block: nat, pair: nat, sl: Slot)
    requires n >= 1 && ValidSlot(n, Slot(block, pair, 0)) && ValidSlot(n, sl)
    requires IndexOf(n, Slot(block, pair, 0)) <= IndexOf(n, sl) < IndexOf(n, Slot(block, pair, 0)) + Width(block)
    ensures sl == Slot(block, pair, IndexOf(n, sl) - IndexOf(n, Slot(block, pair, 0)))
  {
    var s := IndexOf(n, sl) - IndexOf(n, Slot(block, pair, 0));
    assert ValidSlot(n, Slot(block, pair, s));
    assert IndexOf(n, Slot(block, pair, s)) == IndexOf(n, sl);
  }

  /** Writing the nonzeros of one pair extends the written prefix past them. */
  lemma PatternStep(n: nat, block: nat, pair: nat, rows0: seq<int>, cols0: seq<int>, rows: seq<int>, cols: seq<int>)
    requires n >= 1 && ValidSlot(n, Slot(block, pair, 0))
    requires |rows0| == |rows| >= JacNnz(n) && |cols0| == |cols| >= JacNnz(n)
    requires PatternWritten(rows0, cols0, n, IndexOf(n, Slot(block, pair, 0)))
    requires forall k :: 0 <= k < IndexOf(n, Slot(block, pair, 0)) ==> rows[k] == rows0[k] && cols[k] == cols0[k]
    requires forall s :: 0 <= s < Width(block) ==>
      (rows[IndexOf(n, Slot(block, pair, s))], cols[IndexOf(n, Slot(block, pair, s))]) == SlotEntry(n, Slot(block, pair, s))
    ensures PatternWritten(rows, cols, n, IndexOf(n, Slot(block, pair, 0)) + Width(block))
  {
    var b := IndexOf(n, Slot(block, pair, 0));
    forall sl | ValidSlot(n, sl) && IndexOf(n, sl) < b + Width(block)
      ensures (rows[IndexOf(n, sl)], cols[IndexOf(n, sl)]) == SlotEntry(n, sl)
    {
      if IndexOf(n, sl) >= b {
        SlotInPair(n, block, pair, sl);
      }
    }
  }

  /** Writing the values of one pair extends the written prefix past them. */
  lemma ValuesStep(n: nat, ds: real, block: nat, pair: nat, vals0: seq<real>, vals: seq<real>)
    requires n >= 1 && ValidSlot(n, Slot(block, pair, 0))
    requires |vals0| == |vals| >= JacNnz(n)
    requires ValuesWritten(vals0, n, ds, IndexOf(n, Slot(block, pair, 0)))
    requires forall k :: 0 <= k < IndexOf(n, Slot(block, pair, 0)) ==> vals[k] == vals0[k]
    requires forall s :: 0 <= s < Width(block) ==>
      vals[IndexOf(n, Slot(block, pair, s))] == SlotValue(ds, Slot(block, pair, s))
    ensures ValuesWritten(vals, n, ds, IndexOf(n, Slot(block, pair, 0)) + Width(block))
  {
    var b := IndexOf(n, Slot(block, pair, 0));
    forall sl | ValidSlot(n, sl) && IndexOf(n, sl) < b + Width(block)
      ensures vals[IndexOf(n, sl)] == SlotValue(ds, sl)
    {
      if IndexOf(n, sl) >= b {
        SlotInPair(n, block, pair, sl);
      }
    }
  }

  /** A pattern written up to the last nonzero is the whole enumeration. */
  lemma PatternComplete(rows: seq<int>, cols: seq<int>, n: nat)
    requires n >= 1 && |rows| >= JacNnz(n) && |cols| >= JacNnz(n)
    requires PatternWritten(rows, cols, n, JacNnz(n))
    ensures forall k :: 0 <= k < JacNnz(n) ==> (rows[k], cols[k]) == JacEntry(n, k)
  {
    forall k | 0 <= k < JacNnz(n) ensures (rows[k], cols[k]) == JacEntry(n, k) {
      IndexOfSlotOf(n, k);
    }
  }

  /** Values written up to the last nonzero are the whole enumeration. */
  lemma ValuesComplete(vals: seq<real>, n: nat, ds: real)
    requires n >= 1 && |vals| >= JacNnz(n)
    requires ValuesWritten(vals, n, ds, JacNnz(n))
    ensures forall k :: 0 <= k < JacNnz(n) ==> vals[k] == JacValue(n, ds, k)
  {
    forall k | 0 <= k < JacNnz(n) ensures vals[k] == JacValue(n, ds, k) {
      IndexOfSlotOf(n, k);
    }
  }
}

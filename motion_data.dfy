/**
 * The motion buffer `G1MotionData`: per-frame root position, root quaternion
 * (x, y, z, w) and joint positions, with the counts derived from the arrays'
 * shapes and the per-frame configuration vector handed to the kinematics.
 */
module MotionData {
  import opened Wrappers

  /**
   * A two-dimensional numpy array: its rows, and the size of its second axis,
   * which the array keeps even when it has no rows.
   */
  datatype Array2 = Array2(rows: seq<seq<real>>, cols: nat)

  /** Every row has `cols` entries, as numpy guarantees for a numeric 2-D array. */
  predicate Rectangular(a: Array2) {
    forall r :: r in a.rows ==> |r| == a.cols
  }

  /**
   * A value found in an unpickled motion dictionary. `Matrix` and `Tensor`
   * are numpy arrays (ndarray), not nested Python lists; strings and other
   * value kinds are not part of this model.
   */
  datatype Field =
    | Matrix(m: Array2)
    | Tensor(t: seq<seq<seq<real>>>)
    | Number(x: real)
    | Names(names: seq<string>)
    | NoneValue

  datatype Error = IndexError | ZeroDivisionError

  /**
   * numpy's `a[i]` on the first axis: `i` counts from the front when it is
   * non-negative and from the back when it is negative; outside
   * `-len .. len - 1` it is an `IndexError`.
   */
  function Row(a: Array2, i: int): (r: Option<seq<real>>)
    ensures r.Some? <==> -|a.rows| <= i < |a.rows|
    ensures 0 <= i < |a.rows| ==> r == Some(a.rows[i])
    ensures -|a.rows| <= i < 0 ==> r == Some(a.rows[|a.rows| + i])
  {
    if 0 <= i < |a.rows| then Some(a.rows[i])
    else if -|a.rows| <= i < 0 then Some(a.rows[|a.rows| + i])
    else None
  }

  datatype Motion = Motion(
    rootPos: Array2,             // [T, 3]
    rootRot: Array2,             // [T, 4], quaternion in (x, y, z, w) order
    dofPos: Array2,              // [T, num_dof]
    localBodyPos: Option<Field>, // carried through, never read by the replay
    linkBodyList: Field,         // carried through, never read by the replay
    fps: real,
    name: string)
  {
    /** `num_frames`: the row count of `root_pos` alone. */
    function NumFrames(): (n: nat)
      ensures forall i :: 0 <= i < n ==> Row(rootPos, i).Some?
      ensures Row(rootPos, n).None?
    {
      |rootPos.rows|
    }

    /** `num_dof`: the column count of `dof_pos` alone. */
    function NumDof(): (d: nat)
      ensures Rectangular(dofPos) ==> forall r :: r in dofPos.rows ==> |r| == d
    {
      dofPos.cols
    }

    /** `duration`: frames divided by frame rate; Python raises on a zero rate. */
    function Duration(): (r: Result<real, Error>)
      ensures r.Err? <==> fps == 0.0
      ensures r.Err? ==> r.error == ZeroDivisionError
      ensures r.Ok? ==> r.value * fps == NumFrames() as real
    {
      if fps == 0.0 then Err(ZeroDivisionError) else Ok(NumFrames() as real / fps)
    }

    /**
     * `get_configuration(i)`: the root position, root quaternion and joint
     * positions of frame `i` laid end to end. Nothing checks that the three
     * arrays have the same number of rows: an index past the end of any of
     * them is an `IndexError` only when that array is read.
     */
    function GetConfiguration(i: int): (r: Result<seq<real>, Error>)
      ensures r.Ok? <==> Row(rootPos, i).Some? && Row(rootRot, i).Some? && Row(dofPos, i).Some?
      ensures r.Err? ==> r.error == IndexError
      ensures r.Ok? ==>
        var p, q, d := Row(rootPos, i).value, Row(rootRot, i).value, Row(dofPos, i).value;
        && |r.value| == |p| + |q| + |d|
        && r.value[..|p|] == p
        && r.value[|p|..|p| + |q|] == q
        && r.value[|p| + |q|..] == d
    {
      match (Row(rootPos, i), Row(rootRot, i), Row(dofPos, i))
      case (Some(p), Some(q), Some(d)) =>
        var c := p + q + d;
        assert c[..|p|] == p;
        assert c[|p|..|p| + |q|] == q;
        assert c[|p| + |q|..] == d;
        Ok(c)
      case _ => Err(IndexError)
    }
  }

  /** The arrays have the shapes the file format documents: [T, 3], [T, 4], [T, N]. */
  predicate WellShaped(m: Motion) {
    && Rectangular(m.rootPos) && m.rootPos.cols == 3
    && Rectangular(m.rootRot) && m.rootRot.cols == 4
    && Rectangular(m.dofPos)
  }

  /**
   * For a well-shaped buffer and a frame that every array has, the
   * configuration has 3 + 4 + num_dof entries and its slices [0:3], [3:7] and
   * [7:] give back the frame's root position, quaternion and joint positions.
   */
  lemma ConfigurationRoundTrip(m: Motion, i: nat)
    requires WellShaped(m)
    requires i < |m.rootPos.rows| && i < |m.rootRot.rows| && i < |m.dofPos.rows|
    ensures m.GetConfiguration(i).Ok?
    ensures |m.GetConfiguration(i).value| == 3 + 4 + m.NumDof()
    ensures m.GetConfiguration(i).value[0..3] == m.rootPos.rows[i]
    ensures m.GetConfiguration(i).value[3..7] == m.rootRot.rows[i]
    ensures m.GetConfiguration(i).value[7..] == m.dofPos.rows[i]
  {
    assert m.rootPos.rows[i] in m.rootPos.rows;
    assert m.rootRot.rows[i] in m.rootRot.rows;
    assert m.dofPos.rows[i] in m.dofPos.rows;
  }

  /**
   * The configuration of a frame exists exactly when that frame index is in
   * range for all three arrays: the frame count comes from `root_pos` only.
   */
  lemma ConfigurationInRange(m: Motion, i: nat)
    ensures m.GetConfiguration(i).Ok? <==>
      i < m.NumFrames() && i < |m.rootRot.rows| && i < |m.dofPos.rows|
  {
  }
}

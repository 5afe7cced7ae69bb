/**
 * `visualize_g1_motion` and `_log_ground_plane`: the whole replay as the
 * sequence of entries it appends to a fresh recording, frame by frame.
 */
module Playback {
  import opened Wrappers
  import opened Scene
  import opened Kinematics
  import opened MotionData
  import opened Visualizer

  // ------------------------------------------------------------ ground grid

  /** `-half + i * step`, the offset of line pair `i`. */
  function GridOffset(size: real, gridSize: int, i: int): real
    requires gridSize != 0
  {
    -(size / 2.0) + (i as real) * (size / gridSize as real)
  }

  /** Line `j`: pair `j / 2`, first along y at x = offset, then along x at y = offset. */
  function GridLine(size: real, gridSize: int, j: nat): Strip
    requires gridSize != 0
  {
    var offset := GridOffset(size, gridSize, j / 2);
    var half := size / 2.0;
    if j % 2 == 0 then [[offset, -half, 0.0], [offset, half, 0.0]]
    else [[-half, offset, 0.0], [half, offset, 0.0]]
  }

  /** `range(grid_size + 1)` is empty when `grid_size` is below 0. */
  function GridLineCount(gridSize: int): nat {
    if gridSize + 1 > 0 then 2 * (gridSize + 1) else 0
  }

  function GridLines(size: real, gridSize: int): seq<Strip>
    requires gridSize != 0
  {
    seq(GridLineCount(gridSize), j requires 0 <= j => GridLine(size, gridSize, j))
  }

  /** The static LineStrips3D entry at "ground/grid", one colour and radius per line. */
  function GridEntry(size: real, gridSize: int, time: Option<real>): Entry
    requires gridSize != 0
  {
    var lines := GridLines(size, gridSize);
    Entry("ground/grid",
          LineStrips3D(lines, seq(|lines|, _ => GRID_COLOR), seq(|lines|, _ => GRID_RADIUS)), true, time)
  }

  /**
   * For a positive cell count the grid has 2 * (grid_size + 1) lines, and
   * pair i lies at offset -half + i * step: first from y = -half to half at
   * x = offset, then from x = -half to half at y = offset. For a negative cell
   * count there are no lines.
   */
  lemma GridLinesPairs(size: real, gridSize: int)
    requires gridSize != 0
    ensures gridSize < 0 ==> GridLines(size, gridSize) == []
    ensures gridSize > 0 ==>
      var lines, half := GridLines(size, gridSize), size / 2.0;
      && |lines| == 2 * (gridSize + 1)
      && forall i :: 0 <= i <= gridSize ==>
            var offset := GridOffset(size, gridSize, i);
            && lines[2 * i] == [[offset, -half, 0.0], [offset, half, 0.0]]
            && lines[2 * i + 1] == [[-half, offset, 0.0], [half, offset, 0.0]]
  {
    if gridSize > 0 {
      var lines := GridLines(size, gridSize);
      forall i | 0 <= i <= gridSize
        ensures lines[2 * i] == GridLine(size, gridSize, 2 * i)
        ensures lines[2 * i + 1] == GridLine(size, gridSize, 2 * i + 1)
      {
        assert (2 * i) / 2 == i && (2 * i) % 2 == 0;
        assert (2 * i + 1) / 2 == i && (2 * i + 1) % 2 == 1;
      }
    }
  }

  /** Every grid line is a segment of two points on the ground plane z = 0. */
  lemma GridOnGround(size: real, gridSize: int)
    requires gridSize != 0
    ensures forall j :: 0 <= j < |GridLines(size, gridSize)| ==>
      var line := GridLines(size, gridSize)[j];
      |line| == 2 && |line[0]| == 3 && |line[1]| == 3 && line[0][2] == 0.0 && line[1][2] == 0.0
  {
  }

  /** The offsets run from -half to exactly half. */
  lemma GridOffsetsSpan(size: real, gridSize: int)
    requires gridSize > 0
    ensures GridOffset(size, gridSize, 0) == -(size / 2.0)
    ensures GridOffset(size, gridSize, gridSize) == size / 2.0
  {
    var n := gridSize as real;
    assert n * (size / n) == size;
  }

  /** The grid entry is static, at "ground/grid", with one grey colour and one 0.002 radius per line. */
  lemma GridEntrySpec(size: real, gridSize: int, time: Option<real>)
    requires gridSize != 0
    ensures var e := GridEntry(size, gridSize, time);
      && e.path == "ground/grid" && e.isStatic && e.item.LineStrips3D?
      && e.item.strips == GridLines(size, gridSize)
      && |e.item.colors| == |e.item.radii| == |e.item.strips| == GridLineCount(gridSize)
      && (forall c :: c in e.item.colors ==> c == GRID_COLOR)
      && (forall r :: r in e.item.radii ==> r == GRID_RADIUS)
  {
    var e := GridEntry(size, gridSize, time);
    forall c | c in e.item.colors ensures c == GRID_COLOR {
      var i :| 0 <= i < |e.item.colors| && e.item.colors[i] == c;
    }
    forall r | r in e.item.radii ensures r == GRID_RADIUS {
      var i :| 0 <= i < |e.item.radii| && e.item.radii[i] == r;
    }
  }

  /** `_log_ground_plane(size, grid_size)`; a zero cell count raises before anything is logged. */
  method LogGroundPlane(rec: Recording, size: real, gridSize: int) returns (ok: bool)
    modifies rec`entries
    ensures ok <==> gridSize != 0
    ensures ok ==> rec.entries == old(rec.entries) + [GridEntry(size, gridSize, rec.time)]
    ensures !ok ==> rec.entries == old(rec.entries)
  {
    if gridSize == 0 {
      return false;
    }
    var lines: seq<Strip> := [];
    var half := size / 2.0;
    var step := size / gridSize as real;
    var i := 0;
    while i < gridSize + 1
      invariant 0 <= i && 2 * i <= GridLineCount(gridSize)
      invariant |lines| == 2 * i
      invariant forall j :: 0 <= j < |lines| ==> lines[j] == GridLine(size, gridSize, j)
    {
      var offset := -half + (i as real) * step;
      assert offset == GridOffset(size, gridSize, i);
      assert (2 * i) / 2 == i && (2 * i) % 2 == 0;
      assert (2 * i + 1) / 2 == i && (2 * i + 1) % 2 == 1;
      ghost var previous := lines;
      lines := lines + [[[offset, -half, 0.0], [offset, half, 0.0]], [[-half, offset, 0.0], [half, offset, 0.0]]];
      assert lines[2 * i] == GridLine(size, gridSize, 2 * i);
      assert lines[2 * i + 1] == GridLine(size, gridSize, 2 * i + 1);
      assert forall j :: 0 <= j < 2 * i ==> lines[j] == previous[j];
      i := i + 1;
    }
    assert lines == GridLines(size, gridSize);
    rec.Log("ground/grid",
            LineStrips3D(lines, seq(|lines|, _ => GRID_COLOR), seq(|lines|, _ => GRID_RADIUS)), true);
    ok := true;
  }

  // ------------------------------------------------------------ frame loop

  /** `dt = 1.0 / fps / playback_speed`. */
  function FrameStep(fps: real, speed: real): (dt: real)
    requires fps != 0.0 && speed != 0.0
    ensures dt * (fps * speed) == 1.0
    ensures dt > 0.0 <==> (fps > 0.0 <==> speed > 0.0)
  {
    var a := 1.0 / fps;
    assert a * fps == 1.0;
    StepProduct(a, fps, speed);
    a / speed
  }

  /** The quotient by `speed` of a reciprocal of `fps` is the reciprocal of their product. */
  lemma StepProduct(a: real, fps: real, speed: real)
    requires speed != 0.0 && a * fps == 1.0
    ensures (a / speed) * (fps * speed) == 1.0
    ensures a / speed > 0.0 <==> (fps > 0.0 <==> speed > 0.0)
  {
    assert (a / speed) * speed == a;
    assert (a / speed) * (fps * speed) == ((a / speed) * speed) * fps;
  }

  /** The "time" timeline value of frame `k`. */
  function FrameTime(dt: real, k: nat): real {
    k as real * dt
  }

  function TrajectoryEntry(rootPos: seq<real>, time: Option<real>): Entry {
    Entry("trajectory/root", Points3D([rootPos], [TRAJECTORY_COLOR], [TRAJECTORY_RADIUS]), false, time)
  }

  /**
   * One iteration of the frame loop: set the time, build the configuration
   * (an index error raises), run `update`, then log the root position.
   */
  function FrameTrace(robot: Robot, motion: Motion, showMarkers: bool, dt: real, k: nat): Trace
    requires WellFormed(robot.model)
  {
    var time := Some(FrameTime(dt, k));
    match motion.GetConfiguration(k)
    case Err(_) => Trace([], false)
    case Ok(q) =>
      var u := UpdateTrace(robot, robot.forward(q), showMarkers, time);
      if !u.ok then u
      else Trace(u.entries + [TrajectoryEntry(motion.rootPos.rows[k], time)], true)
  }

  /**
   * A loop over frames 0 .. n - 1 in increasing order, where frame k logs
   * `frame(k).entries`, stopping at the first frame that raises.
   */
  function RunFrames(frame: nat -> Trace, n: nat): Trace
  {
    if n == 0 then Trace([], true)
    else
      var before := RunFrames(frame, n - 1);
      if !before.ok then before
      else Trace(before.entries + frame(n - 1).entries, frame(n - 1).ok)
  }

  /** How many frames the loop enters: all n, or those up to and including the one that raises. */
  function Entered(frame: nat -> Trace, n: nat): (m: nat)
    ensures m <= n
  {
    if n == 0 || RunFrames(frame, n - 1).ok then n else Entered(frame, n - 1)
  }

  /** After frames that all went through, one more frame appends its entries and decides the outcome. */
  lemma RunFramesStep(frame: nat -> Trace, n: nat)
    requires RunFrames(frame, n).ok
    ensures RunFrames(frame, n + 1) == Trace(RunFrames(frame, n).entries + frame(n).entries, frame(n).ok)
    ensures Entered(frame, n + 1) == n + 1
  {
  }

  /** The loop gets through n frames exactly when each of them finishes. */
  lemma {:induction false} RunFramesOk(frame: nat -> Trace, n: nat)
    ensures RunFrames(frame, n).ok <==> forall k :: 0 <= k < n ==> frame(k).ok
  {
    if n > 0 {
      RunFramesOk(frame, n - 1);
    }
  }

  /** Once a frame raises, no later frame runs: the log and the frames entered stay as they were. */
  lemma {:induction false} RunFramesStops(frame: nat -> Trace, m: nat, n: nat)
    requires m <= n && !RunFrames(frame, m).ok
    ensures RunFrames(frame, n) == RunFrames(frame, m)
    ensures Entered(frame, n) == Entered(frame, m)
    decreases n - m
  {
    if m < n {
      RunFramesStops(frame, m, n - 1);
    }
  }

  /**
   * A loop that gets through enters all n frames; one that stops enters the
   * frames up to one that raised after all before it went through.
   */
  lemma {:induction false} EnteredSpec(frame: nat -> Trace, n: nat)
    ensures RunFrames(frame, n).ok ==> Entered(frame, n) == n
    ensures !RunFrames(frame, n).ok ==>
      var m := Entered(frame, n);
      && 0 < m <= n && RunFrames(frame, m - 1).ok && !frame(m - 1).ok
  {
    if n > 0 {
      EnteredSpec(frame, n - 1);
    }
  }

  /** n - 1 batches of `per` entries and one more make n batches. */
  lemma BatchesAdd(n: nat, per: nat, a: nat, b: nat)
    requires n > 0 && a == (n - 1) * per && b == per
    ensures a + b == n * per
  {
    assert (n - 1) * per + per == n * per;
  }

  /** When every frame that finishes logs `per` entries, a loop through n frames logs n * per. */
  lemma {:induction false} RunFramesLength(frame: nat -> Trace, n: nat, per: nat)
    requires forall k :: 0 <= k < n && frame(k).ok ==> |frame(k).entries| == per
    ensures RunFrames(frame, n).ok ==> |RunFrames(frame, n).entries| == n * per
  {
    if n > 0 {
      RunFramesLength(frame, n - 1, per);
      var before := RunFrames(frame, n - 1);
      if before.ok && frame(n - 1).ok {
        BatchesAdd(n, per, |before.entries|, |frame(n - 1).entries|);
      }
    }
  }

  /** Every entry is stamped, with a time at most `bound`. */
  predicate StampedAtMost(es: seq<Entry>, bound: real) {
    forall e :: e in es ==> e.time.Some? && e.time.value <= bound
  }

  /** The stamps never decrease along the log. */
  predicate NonDecreasing(es: seq<Entry>) {
    forall a, b :: 0 <= a < b < |es| ==> es[a].time.Some? && es[b].time.Some? && es[a].time.value <= es[b].time.value
  }

  /** Appending a batch stamped `t` to a log stamped at most `t` keeps it non-decreasing. */
  lemma AppendBatch(before: seq<Entry>, batch: seq<Entry>, t: real)
    requires StampedAtMost(before, t) && NonDecreasing(before)
    requires forall e :: e in batch ==> e.time == Some(t)
    ensures StampedAtMost(before + batch, t) && NonDecreasing(before + batch)
  {
    var es, m := before + batch, |before|;
    forall a, b | 0 <= a < b < |es|
      ensures es[a].time.Some? && es[b].time.Some? && es[a].time.value <= es[b].time.value
    {
      if b >= m {
        assert es[b] == batch[b - m];
        assert batch[b - m] in batch;
        if a < m {
          assert es[a] == before[a];
          assert before[a] in before;
        } else {
          assert es[a] == batch[a - m];
          assert batch[a - m] in batch;
        }
      } else {
        assert es[a] == before[a] && es[b] == before[b];
      }
    }
  }

  /** With a non-negative step a later frame is never stamped earlier. */
  lemma TimesIncrease(dt: real, j: nat, k: nat)
    requires dt >= 0.0 && j <= k
    ensures FrameTime(dt, j) <= FrameTime(dt, k)
  {
    assert FrameTime(dt, k) - FrameTime(dt, j) == (k - j) as real * dt;
  }

  /**
   * When frame k stamps its entries k * dt with dt >= 0, the log of the first
   * n frames is stamped no later than frame n - 1 and its stamps never
   * decrease: all of frame k is logged before anything of frame k + 1.
   */
  lemma {:induction false} RunFramesOrdered(frame: nat -> Trace, dt: real, n: nat)
    requires dt >= 0.0
    requires forall k, e :: 0 <= k < n && e in frame(k).entries ==> e.time == Some(FrameTime(dt, k))
    ensures n > 0 ==> StampedAtMost(RunFrames(frame, n).entries, FrameTime(dt, n - 1))
    ensures NonDecreasing(RunFrames(frame, n).entries)
  {
    if n > 0 {
      RunFramesOrdered(frame, dt, n - 1);
      var before := RunFrames(frame, n - 1);
      var t := FrameTime(dt, n - 1);
      if n > 1 {
        TimesIncrease(dt, n - 2, n - 1);
      }
      assert StampedAtMost(before.entries, t);
      if before.ok {
        AppendBatch(before.entries, frame(n - 1).entries, t);
      }
    }
  }

  /** The frame loop of `visualize_g1_motion`: frame k as `FrameTrace` gives it. */
  function Frame(robot: Robot, motion: Motion, showMarkers: bool, dt: real): nat -> Trace
    requires WellFormed(robot.model)
  {
    (k: nat) => FrameTrace(robot, motion, showMarkers, dt, k)
  }

  /** Frames `0 .. n - 1` of the replay, stopping at the first that raises. */
  function FramesTrace(robot: Robot, motion: Motion, showMarkers: bool, dt: real, n: nat): Trace
    requires WellFormed(robot.model)
  {
    RunFrames(Frame(robot, motion, showMarkers, dt), n)
  }

  /** How many frames of the replay the loop enters out of `n`. */
  function FramesEntered(robot: Robot, motion: Motion, showMarkers: bool, dt: real, n: nat): nat
    requires WellFormed(robot.model)
  {
    Entered(Frame(robot, motion, showMarkers, dt), n)
  }

  /** After frames that all went through, frame `n` appends its entries and decides the outcome. */
  lemma FramesTraceStep(robot: Robot, motion: Motion, showMarkers: bool, dt: real, n: nat)
    requires WellFormed(robot.model) && FramesTrace(robot, motion, showMarkers, dt, n).ok
    ensures var frame := FrameTrace(robot, motion, showMarkers, dt, n);
      FramesTrace(robot, motion, showMarkers, dt, n + 1)
        == Trace(FramesTrace(robot, motion, showMarkers, dt, n).entries + frame.entries, frame.ok)
    ensures FramesEntered(robot, motion, showMarkers, dt, n + 1) == n + 1
  {
    RunFramesStep(Frame(robot, motion, showMarkers, dt), n);
  }

  /** Once a frame of the replay raises, no later frame runs. */
  lemma FramesTraceStops(robot: Robot, motion: Motion, showMarkers: bool, dt: real, m: nat, n: nat)
    requires WellFormed(robot.model)
    requires m <= n && !FramesTrace(robot, motion, showMarkers, dt, m).ok
    ensures FramesTrace(robot, motion, showMarkers, dt, n) == FramesTrace(robot, motion, showMarkers, dt, m)
    ensures FramesEntered(robot, motion, showMarkers, dt, n) == FramesEntered(robot, motion, showMarkers, dt, m)
  {
    RunFramesStops(Frame(robot, motion, showMarkers, dt), m, n);
  }

  /** The placements after frame `k`: its configuration's, or `data` unchanged when it has none. */
  function FramePose(robot: Robot, motion: Motion, k: nat, data: Placements): Placements {
    match motion.GetConfiguration(k)
    case Ok(q) => robot.forward(q)
    case Err(_) => data
  }

  /** The timeline value once the frame loop has entered frames 0 .. n - 1: that of frame n - 1. */
  function FramesTime(dt: real, n: nat, time0: Option<real>): Option<real> {
    if n == 0 then time0 else Some(FrameTime(dt, n - 1))
  }

  /**
   * The placements once the frame loop has entered frames 0 .. n - 1,
   * starting from `data0`: each frame poses the robot when its configuration
   * exists.
   */
  function FramesPose(robot: Robot, motion: Motion, n: nat, data0: Placements): Placements {
    if n == 0 then data0
    else FramePose(robot, motion, n - 1, FramesPose(robot, motion, n - 1, data0))
  }

  /** Entering frame `k` poses the robot from where frames 0 .. k - 1 left it. */
  lemma FramesPoseStep(robot: Robot, motion: Motion, k: nat, data0: Placements, before: Placements, data: Placements)
    requires before == FramesPose(robot, motion, k, data0)
    requires data == FramePose(robot, motion, k, before)
    ensures data == FramesPose(robot, motion, k + 1, data0)
  {
  }

  /**
   * With no frames entered the placements are unchanged; when frames
   * 0 .. n - 1 all went through, the robot is posed at frame n - 1's
   * configuration.
   */
  lemma FramesPoseSpec(robot: Robot, motion: Motion, showMarkers: bool, dt: real, n: nat, data0: Placements)
    requires WellFormed(robot.model)
    ensures n == 0 ==> FramesPose(robot, motion, n, data0) == data0
    ensures n > 0 && FramesTrace(robot, motion, showMarkers, dt, n).ok ==>
      && motion.GetConfiguration(n - 1).Ok?
      && FramesPose(robot, motion, n, data0) == robot.forward(motion.GetConfiguration(n - 1).value)
  {
    if n > 0 && FramesTrace(robot, motion, showMarkers, dt, n).ok {
      FrameTraceOk(robot, motion, showMarkers, dt, n - 1);
    }
  }

  /** Whether `update` logs a marker entry: markers shown and some effector resolving. */
  function MarkerCount(model: Model, showMarkers: bool): nat {
    if showMarkers && ResolvedIndices(model, END_EFFECTORS, |END_EFFECTORS|) != [] then 1 else 0
  }

  /**
   * A frame finishes exactly when its configuration exists and every geometry
   * object resolves; then it logs one entry per geometry object, at most one
   * marker entry and one trajectory point.
   */
  lemma FrameTraceOk(robot: Robot, motion: Motion, showMarkers: bool, dt: real, k: nat)
    requires WellFormed(robot.model)
    ensures var t := FrameTrace(robot, motion, showMarkers, dt, k);
      && (t.ok <==> motion.GetConfiguration(k).Ok? && AllResolve(robot.model, robot.visuals))
      && (t.ok ==> |t.entries| == |robot.visuals| + MarkerCount(robot.model, showMarkers) + 1)
  {
    var time := Some(FrameTime(dt, k));
    if motion.GetConfiguration(k).Ok? {
      var pl := robot.forward(motion.GetConfiguration(k).value);
      TransformTraceOk(robot.model, pl, robot.visuals, time);
      TransformTraceEntries(robot.model, pl, robot.visuals, time);
      if TransformTrace(robot.model, pl, robot.visuals, time).ok {
        MarkerLengths(robot.model, pl, END_EFFECTORS, |END_EFFECTORS|);
        assert |if showMarkers then MarkerEntries(robot.model, pl, time) else []| == MarkerCount(robot.model, showMarkers);
      }
    }
  }

  /**
   * A finished frame logs the transforms of all geometry objects first, then
   * the marker entry when there is one, and last the trajectory point equal
   * to the frame's root position.
   */
  lemma FrameTraceSpec(robot: Robot, motion: Motion, showMarkers: bool, dt: real, k: nat)
    requires WellFormed(robot.model)
    requires FrameTrace(robot, motion, showMarkers, dt, k).ok
    ensures var t := FrameTrace(robot, motion, showMarkers, dt, k);
      var nv := |robot.visuals|;
      && |t.entries| == nv + MarkerCount(robot.model, showMarkers) + 1
      && (forall i :: 0 <= i < nv ==> t.entries[i].item.Transform3D?)
      && (MarkerCount(robot.model, showMarkers) == 1 ==> t.entries[nv].path == "markers/end_effectors")
      && t.entries[|t.entries| - 1] == TrajectoryEntry(motion.rootPos.rows[k], Some(FrameTime(dt, k)))
  {
    FrameTraceOk(robot, motion, showMarkers, dt, k);
    var time := Some(FrameTime(dt, k));
    var pl := robot.forward(motion.GetConfiguration(k).value);
    TransformTraceEntries(robot.model, pl, robot.visuals, time);
    var tt := TransformTrace(robot.model, pl, robot.visuals, time);
    var m := if showMarkers then MarkerEntries(robot.model, pl, time) else [];
    var t := FrameTrace(robot, motion, showMarkers, dt, k);
    assert t.entries == tt.entries + m + [TrajectoryEntry(motion.rootPos.rows[k], time)];
    forall i | 0 <= i < |robot.visuals| ensures t.entries[i].item.Transform3D? {
      assert t.entries[i] == tt.entries[i];
      assert tt.entries[i] in tt.entries;
    }
  }

  /** Every entry of frame k, finished or not, is stamped k * dt. */
  lemma FrameTimes(robot: Robot, motion: Motion, showMarkers: bool, dt: real, k: nat)
    requires WellFormed(robot.model)
    ensures forall e :: e in FrameTrace(robot, motion, showMarkers, dt, k).entries ==> e.time == Some(FrameTime(dt, k))
  {
    var time := Some(FrameTime(dt, k));
    if motion.GetConfiguration(k).Ok? {
      var pl := robot.forward(motion.GetConfiguration(k).value);
      TransformTraceEntries(robot.model, pl, robot.visuals, time);
    }
  }

  /**
   * The first `n` frames all finish exactly when `n` is 0 or every object
   * resolves and all three arrays have at least `n` rows.
   */
  lemma FramesTraceOk(robot: Robot, motion: Motion, showMarkers: bool, dt: real, n: nat)
    requires WellFormed(robot.model)
    ensures FramesTrace(robot, motion, showMarkers, dt, n).ok <==>
      n == 0 || (AllResolve(robot.model, robot.visuals)
                 && n <= |motion.rootPos.rows| && n <= |motion.rootRot.rows| && n <= |motion.dofPos.rows|)
  {
    var frame := Frame(robot, motion, showMarkers, dt);
    RunFramesOk(frame, n);
    forall k | 0 <= k < n
      ensures frame(k).ok <==> AllResolve(robot.model, robot.visuals)
                               && k < |motion.rootPos.rows| && k < |motion.rootRot.rows| && k < |motion.dofPos.rows|
    {
      FrameTraceOk(robot, motion, showMarkers, dt, k);
      MotionData.ConfigurationInRange(motion, k);
    }
    if n > 0 && forall k :: 0 <= k < n ==> frame(k).ok {
      assert frame(n - 1).ok;
    }
  }

  /** When the first `n` frames finish, each has contributed the same number of entries. */
  lemma FramesTraceLength(robot: Robot, motion: Motion, showMarkers: bool, dt: real, n: nat)
    requires WellFormed(robot.model)
    ensures var t := FramesTrace(robot, motion, showMarkers, dt, n);
      t.ok ==> |t.entries| == n * (|robot.visuals| + MarkerCount(robot.model, showMarkers) + 1)
  {
    var frame := Frame(robot, motion, showMarkers, dt);
    var per := |robot.visuals| + MarkerCount(robot.model, showMarkers) + 1;
    forall k | 0 <= k < n && frame(k).ok
      ensures |frame(k).entries| == per
    {
      FrameTraceOk(robot, motion, showMarkers, dt, k);
    }
    RunFramesLength(frame, n, per);
  }

  /**
   * With a non-negative step, the entries of the first `n` frames are all
   * stamped no later than frame n - 1 and their stamps never decrease along
   * the log.
   */
  lemma FramesTraceOrdered(robot: Robot, motion: Motion, showMarkers: bool, dt: real, n: nat)
    requires WellFormed(robot.model) && dt >= 0.0
    ensures n > 0 ==> StampedAtMost(FramesTrace(robot, motion, showMarkers, dt, n).entries, FrameTime(dt, n - 1))
    ensures NonDecreasing(FramesTrace(robot, motion, showMarkers, dt, n).entries)
  {
    var frame := Frame(robot, motion, showMarkers, dt);
    forall k, e | 0 <= k < n && e in frame(k).entries
      ensures e.time == Some(FrameTime(dt, k))
    {
      FrameTimes(robot, motion, showMarkers, dt, k);
    }
    RunFramesOrdered(frame, dt, n);
  }

  /** With a positive step, frame timestamps strictly increase with the frame index. */
  lemma TimesStrictlyIncrease(fps: real, speed: real, j: nat, k: nat)
    requires fps != 0.0 && speed != 0.0 && FrameStep(fps, speed) > 0.0 && j < k
    ensures FrameTime(FrameStep(fps, speed), j) < FrameTime(FrameStep(fps, speed), k)
  {
    var dt := FrameStep(fps, speed);
    assert FrameTime(dt, k) - FrameTime(dt, j) == (k - j) as real * dt;
  }

  /** Doubling the playback speed halves every frame's timestamp. */
  lemma DoubleSpeedHalvesTimes(fps: real, speed: real, k: nat)
    requires fps != 0.0 && speed != 0.0
    ensures FrameTime(FrameStep(fps, 2.0 * speed), k) == FrameTime(FrameStep(fps, speed), k) / 2.0
  {
    var a := 1.0 / fps;
    assert FrameStep(fps, 2.0 * speed) == a / (2.0 * speed);
    assert a / (2.0 * speed) == (a / speed) / 2.0;
  }

  /** One pass of the frame loop: stamp the time, pose the robot, extend the trajectory. */
  method PlayFrame(viz: G1Visualizer, motion: Motion, showMarkers: bool, dt: real, k: nat) returns (ok: bool)
    requires WellFormed(viz.robot.model)
    modifies viz`data, viz.rec
    ensures viz.rec.entries == old(viz.rec.entries) + FrameTrace(viz.robot, motion, showMarkers, dt, k).entries
    ensures ok == FrameTrace(viz.robot, motion, showMarkers, dt, k).ok
    ensures viz.rec.time == Some(FrameTime(dt, k))
    ensures viz.data == FramePose(viz.robot, motion, k, old(viz.data))
  {
    var rec := viz.rec;
    rec.SetTime(k as real * dt);
    var q := motion.GetConfiguration(k);
    if q.Err? {
      return false;
    }
    ok := viz.Update(q.value, showMarkers);
    if ok {
      rec.Log("trajectory/root", Points3D([motion.rootPos.rows[k]], [TRAJECTORY_COLOR], [TRAJECTORY_RADIUS]), false);
    }
  }

  /** What the loop logged before a frame, followed by that frame's entries. */
  lemma LoggedSoFar(start: seq<Entry>, before: seq<Entry>, frame: seq<Entry>, logged: seq<Entry>, now: seq<Entry>)
    requires logged == start + before && now == logged + frame
    ensures now == start + (before + frame)
  {
  }

  /**
   * One pass of the frame loop after frames 0 .. k - 1 all went through:
   * the log, the outcome, the time and the pose become those after frame k.
   */
  method PlayNextFrame(viz: G1Visualizer, motion: Motion, showMarkers: bool, dt: real, k: nat,
                       ghost start: seq<Entry>, ghost time0: Option<real>, ghost data0: Placements)
    returns (ok: bool)
    requires WellFormed(viz.robot.model) && FramesTrace(viz.robot, motion, showMarkers, dt, k).ok
    requires viz.rec.entries == start + FramesTrace(viz.robot, motion, showMarkers, dt, k).entries
    requires viz.data == FramesPose(viz.robot, motion, k, data0)
    modifies viz`data, viz.rec
    ensures viz.rec.entries == start + FramesTrace(viz.robot, motion, showMarkers, dt, k + 1).entries
    ensures ok == FramesTrace(viz.robot, motion, showMarkers, dt, k + 1).ok
    ensures FramesEntered(viz.robot, motion, showMarkers, dt, k + 1) == k + 1
    ensures viz.rec.time == FramesTime(dt, k + 1, time0)
    ensures viz.data == FramesPose(viz.robot, motion, k + 1, data0)
  {
    ghost var before := FramesTrace(viz.robot, motion, showMarkers, dt, k).entries;
    ghost var logged := viz.rec.entries;
    ghost var data := viz.data;
    ok := PlayFrame(viz, motion, showMarkers, dt, k);
    FramesPoseStep(viz.robot, motion, k, data0, data, viz.data);
    FramesTraceStep(viz.robot, motion, showMarkers, dt, k);
    LoggedSoFar(start, before, FrameTrace(viz.robot, motion, showMarkers, dt, k).entries, logged, viz.rec.entries);
  }

  /**
   * The frame loop of `visualize_g1_motion`: frames 0 .. num_frames - 1 in
   * increasing order, each stamped k * dt, stopping at the first that raises.
   * The time and the pose are those after the last frame entered.
   */
  method PlayFrames(viz: G1Visualizer, motion: Motion, showMarkers: bool, dt: real) returns (ok: bool)
    requires WellFormed(viz.robot.model)
    modifies viz`data, viz.rec
    ensures viz.rec.entries == old(viz.rec.entries) + FramesTrace(viz.robot, motion, showMarkers, dt, motion.NumFrames()).entries
    ensures ok == FramesTrace(viz.robot, motion, showMarkers, dt, motion.NumFrames()).ok
    ensures var entered := FramesEntered(viz.robot, motion, showMarkers, dt, motion.NumFrames());
      && viz.rec.time == FramesTime(dt, entered, old(viz.rec.time))
      && viz.data == FramesPose(viz.robot, motion, entered, old(viz.data))
  {
    var n := motion.NumFrames();
    var k := 0;
    ok := true;
    while k < n && ok
      invariant k <= n
      invariant viz.rec.entries == old(viz.rec.entries) + FramesTrace(viz.robot, motion, showMarkers, dt, k).entries
      invariant ok == FramesTrace(viz.robot, motion, showMarkers, dt, k).ok
      invariant FramesEntered(viz.robot, motion, showMarkers, dt, k) == k
      invariant viz.rec.time == FramesTime(dt, k, old(viz.rec.time))
      invariant viz.data == FramesPose(viz.robot, motion, k, old(viz.data))
    {
      ok := PlayNextFrame(viz, motion, showMarkers, dt, k, old(viz.rec.entries), old(viz.rec.time), old(viz.data));
      k := k + 1;
    }
    if !ok {
      FramesTraceStops(viz.robot, motion, showMarkers, dt, k, n);
    }
    assert FramesEntered(viz.robot, motion, showMarkers, dt, n) == k;
  }

  // ------------------------------------------------------------ the replay

  const APP_PREFIX: string := "G1 Motion: "

  /** The static entries logged before the visualizer exists: view axes, world frame, grid. */
  function Prelude(): seq<Entry> {
    [ Entry("", ViewCoordinatesRightHandZUp, true, None),
      Entry("world", Transform3D([0.0, 0.0, 0.0], IDENTITY3), true, None),
      GridEntry(GRID_SIZE_M, GRID_CELLS, None) ]
  }

  function InfoEntry(motion: Motion, duration: real): Entry {
    Entry("info/motion", MotionInfo(motion.name, motion.NumFrames(), duration, motion.fps, motion.NumDof()), true, None)
  }

  /**
   * Everything `visualize_g1_motion` logs, and whether it reaches the
   * hold-open loop: a zero frame rate raises at the duration shown in the
   * info text, a zero speed at `dt`, and a frame raises as `FrameTrace` says.
   */
  function Replay(robot: Robot, loadable: set<string>, motion: Motion, showMarkers: bool, speed: real): Trace
    requires WellFormed(robot.model)
  {
    var init := InitTrace(robot.model, robot.forward(robot.model.neutral), robot.visuals,
                          MeshTable(robot.visuals, loadable), true, None);
    var setup := Prelude() + init.entries;
    if !init.ok then Trace(setup, false)
    else
      match motion.Duration()
      case Err(_) => Trace(setup, false)
      case Ok(duration) =>
        var shown := setup + [InfoEntry(motion, duration)];
        if speed == 0.0 then Trace(shown, false)
        else
          var frames := FramesTrace(robot, motion, showMarkers, FrameStep(motion.fps, speed), motion.NumFrames());
          Trace(shown + frames.entries, frames.ok)
  }

  /**
   * A replay always starts with the view axes, the world frame and the grid.
   * It gets through every frame exactly when every cached object's frame
   * resolves, the frame rate and the speed are non-zero, and either there are
   * no frames or every object resolves and the rotation and joint arrays have
   * a row for every frame. It then holds the prelude, one mesh per cached
   * object, the info text and the frames' entries.
   */
  lemma ReplaySpec(robot: Robot, loadable: set<string>, motion: Motion, showMarkers: bool, speed: real)
    requires WellFormed(robot.model)
    ensures var r := Replay(robot, loadable, motion, showMarkers, speed);
      var keys := MeshTable(robot.visuals, loadable).Keys;
      var n := motion.NumFrames();
      && |r.entries| >= 3 && r.entries[..3] == Prelude()
      && (r.ok <==> && KeptResolve(robot.model, robot.visuals, keys)
                    && motion.fps != 0.0 && speed != 0.0
                    && (n == 0 || (AllResolve(robot.model, robot.visuals)
                                   && n <= |motion.rootRot.rows| && n <= |motion.dofPos.rows|)))
      && (r.ok ==> |r.entries| == 3 + |Kept(robot.visuals, keys)| + 1
                                  + n * (|robot.visuals| + MarkerCount(robot.model, showMarkers) + 1))
  {
    var meshes := MeshTable(robot.visuals, loadable);
    var pl := robot.forward(robot.model.neutral);
    InitTraceOk(robot.model, pl, robot.visuals, meshes, true, None);
    InitTraceCount(robot.model, pl, robot.visuals, meshes, true, None);
    var init := InitTrace(robot.model, pl, robot.visuals, meshes, true, None);
    var r := Replay(robot, loadable, motion, showMarkers, speed);
    assert r.entries[..3] == Prelude() by {
      assert r.entries == Prelude() + r.entries[|Prelude()|..];
    }
    if init.ok && motion.fps != 0.0 && speed != 0.0 {
      var dt := FrameStep(motion.fps, speed);
      FramesTraceOk(robot, motion, showMarkers, dt, motion.NumFrames());
      FramesTraceLength(robot, motion, showMarkers, dt, motion.NumFrames());
    }
  }

  /**
   * `visualize_g1_motion(motion, show_markers, playback_speed)` with the robot
   * and the loadable mesh files given: returns the recording and whether the
   * replay got through every frame.
   */
  method VisualizeMotion(robot: Robot, loadable: set<string>, motion: Motion, showMarkers: bool, speed: real)
    returns (rec: Recording, ok: bool)
    requires WellFormed(robot.model)
    ensures fresh(rec)
    ensures rec.appId == APP_PREFIX + motion.name
    ensures rec.entries == Replay(robot, loadable, motion, showMarkers, speed).entries
    ensures ok == Replay(robot, loadable, motion, showMarkers, speed).ok
  {
    rec := new Recording(APP_PREFIX + motion.name);
    rec.Log("", ViewCoordinatesRightHandZUp, true);
    rec.Log("world", Transform3D([0.0, 0.0, 0.0], IDENTITY3), true);
    var gridOk := LogGroundPlane(rec, GRID_SIZE_M, GRID_CELLS);
    assert gridOk;
    assert rec.entries == Prelude();
    var viz := new G1Visualizer(robot, loadable, rec);
    ok := viz.InitScene(true);
    if !ok {
      return;
    }
    var duration := motion.Duration();
    if duration.Err? {
      ok := false;
      return;
    }
    rec.Log("info/motion", MotionInfo(motion.name, motion.NumFrames(), duration.value, motion.fps, motion.NumDof()), true);
    if speed == 0.0 {
      ok := false;
      return;
    }
    var dt := 1.0 / motion.fps / speed;
    ok := PlayFrames(viz, motion, showMarkers, dt);
  }
}

/**
 * The replay pipeline: the mesh cache, the static scene, the per-frame
 * transforms and end-effector markers, the frame loop and the ground grid.
 * Every call into the scene sink appends to the recording's entry log, and
 * each operation is proved to append exactly what a specification function of
 * the robot, the placements and the recording's time says.
 */
module Visualizer {
  import opened Wrappers
  import opened Scene
  import opened Kinematics
  import opened MotionData

  /** The links that get a marker, in configured order. */
  const END_EFFECTORS: seq<string> :=
    ["left_ankle_roll_link", "right_ankle_roll_link", "left_rubber_hand", "right_rubber_hand"]

  /** Left foot red, right foot green, left hand blue, right hand yellow. */
  const MARKER_COLORS: seq<Rgba> :=
    [Rgba(255, 100, 100, 255), Rgba(100, 255, 100, 255), Rgba(100, 100, 255, 255), Rgba(255, 255, 100, 255)]
  const MARKER_RADIUS: real := 0.03
  const TRAJECTORY_COLOR: Rgba := Rgba(200, 200, 200, 128)
  const TRAJECTORY_RADIUS: real := 0.01
  const GRID_COLOR: Rgba := Rgba(100, 100, 100, 80)
  const GRID_RADIUS: real := 0.002
  const GRID_SIZE_M: real := 5.0
  const GRID_CELLS: int := 10
  const IDENTITY3: seq<seq<real>> := [[1.0, 0.0, 0.0], [0.0, 1.0, 0.0], [0.0, 0.0, 1.0]]

  /** Python's `name[:-2]`: the name without its last two characters ("_0"). */
  function StripSuffix(name: string): (r: string)
    ensures |name| >= 2 ==> r + name[|name| - 2..] == name
    ensures |name| >= 2 ==> |r| == |name| - 2
    ensures |name| < 2 ==> r == []
  {
    if |name| >= 2 then name[..|name| - 2] else []
  }

  /** What a run of emissions appended, and whether it ended without raising. */
  datatype Trace = Trace(entries: seq<Entry>, ok: bool)

  // ---------------------------------------------------------------- meshes

  /** Geometry object `j` loads as a mesh and is cached under `key`. */
  predicate Provides(visuals: seq<GeometryObject>, loadable: set<string>, j: int, key: string) {
    0 <= j < |visuals| && visuals[j].meshPath in loadable && StripSuffix(visuals[j].name) == key
  }

  /** `_load_meshes`: the cache after the loop, a later object overwriting an earlier one. */
  function MeshTable(visuals: seq<GeometryObject>, loadable: set<string>): map<string, Mesh> {
    if visuals == [] then map[]
    else
      var table := MeshTable(visuals[..|visuals| - 1], loadable);
      var v := visuals[|visuals| - 1];
      if v.meshPath in loadable then table[StripSuffix(v.name) := Mesh(v.meshPath, v.meshColor, [])]
      else table
  }

  /**
   * The cache has a key exactly for the stripped names of the objects whose
   * mesh loads: an object that fails to load only leaves its own key out.
   */
  lemma {:induction false} MeshTableKeys(visuals: seq<GeometryObject>, loadable: set<string>, key: string)
    ensures key in MeshTable(visuals, loadable) <==> exists j :: Provides(visuals, loadable, j, key)
  {
    if visuals != [] {
      var init := visuals[..|visuals| - 1];
      MeshTableKeys(init, loadable, key);
      var n := |visuals| - 1;
      if visuals[n].meshPath in loadable && StripSuffix(visuals[n].name) == key {
        assert Provides(visuals, loadable, n, key);
      }
      if exists j :: Provides(init, loadable, j, key) {
        var j :| Provides(init, loadable, j, key);
        assert Provides(visuals, loadable, j, key);
      }
      if exists j :: Provides(visuals, loadable, j, key) {
        var j :| Provides(visuals, loadable, j, key);
        if j < |visuals| - 1 { assert Provides(init, loadable, j, key); }
      }
    }
  }

  /**
   * A key holds the freshly coloured mesh of the last object cached under it:
   * a later object with the same stripped name overwrites an earlier one.
   */
  lemma {:induction false} MeshTableLast(visuals: seq<GeometryObject>, loadable: set<string>, key: string, j: nat)
    requires Provides(visuals, loadable, j, key)
    requires forall i :: j < i < |visuals| ==> !Provides(visuals, loadable, i, key)
    ensures key in MeshTable(visuals, loadable)
    ensures MeshTable(visuals, loadable)[key] == Mesh(visuals[j].meshPath, visuals[j].meshColor, [])
  {
    var n := |visuals| - 1;
    if j < n {
      var init := visuals[..n];
      assert Provides(init, loadable, j, key);
      forall i | j < i < |init| ensures !Provides(init, loadable, i, key) {
        assert !Provides(visuals, loadable, i, key);
      }
      MeshTableLast(init, loadable, key, j);
      assert !Provides(visuals, loadable, n, key);
    }
  }

  /** `_load_meshes`: one pass over the geometry objects; a load failure is passed over. */
  method LoadMeshes(visuals: seq<GeometryObject>, loadable: set<string>) returns (link2mesh: map<string, Mesh>)
    ensures link2mesh == MeshTable(visuals, loadable)
  {
    link2mesh := map[];
    for i := 0 to |visuals|
      invariant link2mesh == MeshTable(visuals[..i], loadable)
    {
      assert visuals[..i + 1][..i] == visuals[..i];
      var visual := visuals[i];
      if visual.meshPath in loadable {
        link2mesh := link2mesh[StripSuffix(visual.name) := Mesh(visual.meshPath, visual.meshColor, [])];
      }
    }
    assert visuals[..|visuals|] == visuals;
  }

  // ----------------------------------------------------------- static scene

  /** The entries of `init_scene`, the cache afterwards, and whether it finished. */
  datatype InitResult = InitResult(entries: seq<Entry>, meshes: map<string, Mesh>, ok: bool)

  /**
   * `init_scene` over `visuals`: objects whose stripped name is not cached are
   * skipped; for the others the frame is looked up (a miss raises), the cached
   * mesh gets the frame's placement relative to its parent joint applied, and
   * the mesh is logged at robot/{parent joint}/{frame}.
   */
  function InitTrace(model: Model, pl: Placements, visuals: seq<GeometryObject>,
                     meshes: map<string, Mesh>, isStatic: bool, time: Option<real>): InitResult
    requires WellFormed(model)
  {
    if visuals == [] then InitResult([], meshes, true)
    else
      var name := StripSuffix(visuals[0].name);
      if name !in meshes then InitTrace(model, pl, visuals[1..], meshes, isStatic, time)
      else
        match FrameId(model, name)
        case None => InitResult([], meshes, false)
        case Some(f) =>
          var j := ParentJoint(model, f);
          var mesh := meshes[name].(applied := meshes[name].applied + [Relative(pl.oMi(j), pl.oMf(f))]);
          var rest := InitTrace(model, pl, visuals[1..], meshes[name := mesh], isStatic, time);
          InitResult([Entry("robot/" + model.jointNames[j] + "/" + name, Mesh3D(mesh), isStatic, time)] + rest.entries,
                     rest.meshes, rest.ok)
  }

  /** One step of the loop of `init_scene`, at position `i`. */
  lemma InitTraceStep(model: Model, pl: Placements, visuals: seq<GeometryObject>, i: nat,
                      meshes: map<string, Mesh>, isStatic: bool, time: Option<real>)
    requires WellFormed(model) && i < |visuals|
    ensures var name := StripSuffix(visuals[i].name);
      var t := InitTrace(model, pl, visuals[i..], meshes, isStatic, time);
      && (name !in meshes ==> t == InitTrace(model, pl, visuals[i + 1..], meshes, isStatic, time))
      && (name in meshes && FrameId(model, name).None? ==> t == InitResult([], meshes, false))
      && (name in meshes && FrameId(model, name).Some? ==>
            var f := FrameId(model, name).value;
            var j := ParentJoint(model, f);
            var mesh := meshes[name].(applied := meshes[name].applied + [Relative(pl.oMi(j), pl.oMf(f))]);
            var rest := InitTrace(model, pl, visuals[i + 1..], meshes[name := mesh], isStatic, time);
            t == InitResult([Entry("robot/" + model.jointNames[j] + "/" + name, Mesh3D(mesh), isStatic, time)] + rest.entries,
                            rest.meshes, rest.ok))
  {
    assert visuals[i..][1..] == visuals[i + 1..];
  }

  /** The objects `init_scene` logs a mesh for: those whose stripped name is a cache key. */
  function Kept(visuals: seq<GeometryObject>, keys: set<string>): seq<GeometryObject> {
    if visuals == [] then []
    else (if StripSuffix(visuals[0].name) in keys then [visuals[0]] else []) + Kept(visuals[1..], keys)
  }

  /** The path a frame's mesh is logged at, when the frame resolves. */
  function MeshPath(model: Model, name: string): Option<string>
    requires WellFormed(model)
  {
    match FrameId(model, name)
    case Some(f) => Some("robot/" + model.jointNames[ParentJoint(model, f)] + "/" + name)
    case None => None
  }

  /** `init_scene` only transforms cached meshes: the cache keeps its keys. */
  lemma {:induction false} InitTraceKeys(model: Model, pl: Placements, visuals: seq<GeometryObject>,
                                         meshes: map<string, Mesh>, isStatic: bool, time: Option<real>)
    requires WellFormed(model)
    ensures InitTrace(model, pl, visuals, meshes, isStatic, time).meshes.Keys == meshes.Keys
  {
    if visuals != [] {
      var name := StripSuffix(visuals[0].name);
      if name !in meshes {
        InitTraceKeys(model, pl, visuals[1..], meshes, isStatic, time);
      } else if FrameId(model, name).Some? {
        var f := FrameId(model, name).value;
        var j := ParentJoint(model, f);
        var mesh := meshes[name].(applied := meshes[name].applied + [Relative(pl.oMi(j), pl.oMf(f))]);
        InitTraceKeys(model, pl, visuals[1..], meshes[name := mesh], isStatic, time);
      }
    }
  }

  /** The entry `init_scene` logs for a kept object: its mesh, at its parent joint's path. */
  predicate MeshEntryFor(model: Model, e: Entry, v: GeometryObject, isStatic: bool, time: Option<real>)
    requires WellFormed(model)
  {
    && MeshPath(model, StripSuffix(v.name)) == Some(e.path)
    && e.item.Mesh3D?
    && e.isStatic == isStatic
    && e.time == time
  }

  /** Every object whose stripped name is one of `keys` names a frame of the model. */
  predicate KeptResolve(model: Model, visuals: seq<GeometryObject>, keys: set<string>) {
    forall v :: v in visuals && StripSuffix(v.name) in keys ==> FrameId(model, StripSuffix(v.name)).Some?
  }

  /**
   * `init_scene` finishes exactly when every cached object's frame resolves;
   * an object that is not cached is never looked up.
   */
  lemma {:induction false} InitTraceOk(model: Model, pl: Placements, visuals: seq<GeometryObject>,
                                       meshes: map<string, Mesh>, isStatic: bool, time: Option<real>)
    requires WellFormed(model)
    ensures InitTrace(model, pl, visuals, meshes, isStatic, time).ok <==> KeptResolve(model, visuals, meshes.Keys)
  {
    if visuals != [] {
      var name := StripSuffix(visuals[0].name);
      assert visuals == [visuals[0]] + visuals[1..];
      assert KeptResolve(model, visuals, meshes.Keys) <==>
        (name in meshes ==> FrameId(model, name).Some?) && KeptResolve(model, visuals[1..], meshes.Keys);
      if name !in meshes {
        InitTraceOk(model, pl, visuals[1..], meshes, isStatic, time);
      } else if FrameId(model, name).Some? {
        var f := FrameId(model, name).value;
        var j := ParentJoint(model, f);
        var mesh := meshes[name].(applied := meshes[name].applied + [Relative(pl.oMi(j), pl.oMf(f))]);
        assert meshes[name := mesh].Keys == meshes.Keys;
        InitTraceOk(model, pl, visuals[1..], meshes[name := mesh], isStatic, time);
      }
    }
  }

  /** A completed `init_scene` logs one mesh per kept object. */
  lemma {:induction false} InitTraceCount(model: Model, pl: Placements, visuals: seq<GeometryObject>,
                                          meshes: map<string, Mesh>, isStatic: bool, time: Option<real>)
    requires WellFormed(model)
    ensures var t := InitTrace(model, pl, visuals, meshes, isStatic, time);
      t.ok ==> |t.entries| == |Kept(visuals, meshes.Keys)|
  {
    if visuals != [] {
      var name := StripSuffix(visuals[0].name);
      if name !in meshes {
        InitTraceCount(model, pl, visuals[1..], meshes, isStatic, time);
      } else if FrameId(model, name).Some? {
        var f := FrameId(model, name).value;
        var j := ParentJoint(model, f);
        var mesh := meshes[name].(applied := meshes[name].applied + [Relative(pl.oMi(j), pl.oMf(f))]);
        assert meshes[name := mesh].Keys == meshes.Keys;
        InitTraceCount(model, pl, visuals[1..], meshes[name := mesh], isStatic, time);
      }
    }
  }

  /** The i-th entry of a completed `init_scene` is the mesh of the i-th kept object. */
  lemma {:induction false} InitTraceEntryAt(model: Model, pl: Placements, visuals: seq<GeometryObject>,
                                            meshes: map<string, Mesh>, isStatic: bool, time: Option<real>, i: nat)
    requires WellFormed(model)
    requires var t := InitTrace(model, pl, visuals, meshes, isStatic, time);
      t.ok && i < |t.entries| && i < |Kept(visuals, meshes.Keys)|
    ensures MeshEntryFor(model, InitTrace(model, pl, visuals, meshes, isStatic, time).entries[i],
                         Kept(visuals, meshes.Keys)[i], isStatic, time)
  {
    var name := StripSuffix(visuals[0].name);
    var t := InitTrace(model, pl, visuals, meshes, isStatic, time);
    if name !in meshes {
      assert t == InitTrace(model, pl, visuals[1..], meshes, isStatic, time);
      assert Kept(visuals, meshes.Keys) == Kept(visuals[1..], meshes.Keys);
      InitTraceEntryAt(model, pl, visuals[1..], meshes, isStatic, time, i);
    } else {
      var f := FrameId(model, name).value;
      var j := ParentJoint(model, f);
      var mesh := meshes[name].(applied := meshes[name].applied + [Relative(pl.oMi(j), pl.oMf(f))]);
      var meshes' := meshes[name := mesh];
      var rest := InitTrace(model, pl, visuals[1..], meshes', isStatic, time);
      var head := Entry("robot/" + model.jointNames[j] + "/" + name, Mesh3D(mesh), isStatic, time);
      assert t.entries == [head] + rest.entries;
      assert meshes'.Keys == meshes.Keys;
      var kept' := Kept(visuals[1..], meshes'.Keys);
      assert Kept(visuals, meshes.Keys) == [visuals[0]] + kept';
      if i == 0 {
        assert MeshPath(model, name) == Some(head.path);
        assert MeshEntryFor(model, head, visuals[0], isStatic, time);
      } else {
        InitTraceEntryAt(model, pl, visuals[1..], meshes', isStatic, time, i - 1);
        assert t.entries[i] == rest.entries[i - 1];
        assert Kept(visuals, meshes.Keys)[i] == kept'[i - 1];
      }
    }
  }

  /**
   * A completed `init_scene` logs one mesh per kept object, in geometry order,
   * at robot/{parent joint}/{frame}, each as static as requested.
   */
  lemma InitTraceEntries(model: Model, pl: Placements, visuals: seq<GeometryObject>,
                         meshes: map<string, Mesh>, isStatic: bool, time: Option<real>)
    requires WellFormed(model)
    ensures var t := InitTrace(model, pl, visuals, meshes, isStatic, time);
      var kept := Kept(visuals, meshes.Keys);
      t.ok ==> |t.entries| == |kept| && forall i :: 0 <= i < |t.entries| ==> MeshEntryFor(model, t.entries[i], kept[i], isStatic, time)
  {
    InitTraceCount(model, pl, visuals, meshes, isStatic, time);
    var t := InitTrace(model, pl, visuals, meshes, isStatic, time);
    if t.ok {
      forall i | 0 <= i < |t.entries| ensures MeshEntryFor(model, t.entries[i], Kept(visuals, meshes.Keys)[i], isStatic, time) {
        InitTraceEntryAt(model, pl, visuals, meshes, isStatic, time, i);
      }
    }
  }

  // ------------------------------------------------------- per-frame update

  /**
   * The transform `update` logs for one geometry object: its parent joint's
   * placement at robot/{parent joint}; None when its frame does not resolve.
   */
  function TransformOf(model: Model, pl: Placements, v: GeometryObject, time: Option<real>): Option<Entry>
    requires WellFormed(model)
  {
    match FrameId(model, StripSuffix(v.name))
    case None => None
    case Some(f) =>
      var j := ParentJoint(model, f);
      Some(Entry("robot/" + model.jointNames[j], Transform3D(pl.oMi(j).translation, pl.oMi(j).rotation), false, time))
  }

  /**
   * The transform loop of `update`: one transform per geometry object, in
   * order; a frame that does not resolve raises, ending the trace.
   */
  function TransformTrace(model: Model, pl: Placements, visuals: seq<GeometryObject>, time: Option<real>): Trace
    requires WellFormed(model)
  {
    if visuals == [] then Trace([], true)
    else
      match TransformOf(model, pl, visuals[0], time)
      case None => Trace([], false)
      case Some(e) =>
        var rest := TransformTrace(model, pl, visuals[1..], time);
        Trace([e] + rest.entries, rest.ok)
  }

  /** One step of the transform loop, at position `i`. */
  lemma TransformTraceStep(model: Model, pl: Placements, visuals: seq<GeometryObject>, i: nat, time: Option<real>)
    requires WellFormed(model) && i < |visuals|
    ensures var here := TransformOf(model, pl, visuals[i], time);
      var rest := TransformTrace(model, pl, visuals[i + 1..], time);
      TransformTrace(model, pl, visuals[i..], time) ==
        if here.None? then Trace([], false) else Trace([here.value] + rest.entries, rest.ok)
  {
    assert visuals[i..][1..] == visuals[i + 1..];
  }

  /** Every geometry object's stripped name is a frame of the model. */
  predicate AllResolve(model: Model, visuals: seq<GeometryObject>) {
    forall v :: v in visuals ==> FrameId(model, StripSuffix(v.name)).Some?
  }

  /** The transform loop finishes exactly when every object resolves. */
  lemma {:induction false} TransformTraceOk(model: Model, pl: Placements, visuals: seq<GeometryObject>, time: Option<real>)
    requires WellFormed(model)
    ensures TransformTrace(model, pl, visuals, time).ok <==> AllResolve(model, visuals)
  {
    if visuals != [] {
      TransformTraceOk(model, pl, visuals[1..], time);
      assert visuals == [visuals[0]] + visuals[1..];
      assert AllResolve(model, visuals) <==>
        FrameId(model, StripSuffix(visuals[0].name)).Some? && AllResolve(model, visuals[1..]);
    }
  }

  /**
   * A finished transform loop has logged one transform per object, in
   * geometry order, each at its parent joint's path with that joint's
   * placement; finished or not, every entry is a transform stamped `time`.
   */
  lemma {:induction false} TransformTraceEntries(model: Model, pl: Placements, visuals: seq<GeometryObject>, time: Option<real>)
    requires WellFormed(model)
    ensures var t := TransformTrace(model, pl, visuals, time);
      && (t.ok ==> |t.entries| == |visuals|)
      && (t.ok ==> forall i :: 0 <= i < |visuals| ==> TransformOf(model, pl, visuals[i], time) == Some(t.entries[i]))
      && forall e :: e in t.entries ==> e.time == time && e.item.Transform3D?
  {
    if visuals != [] {
      TransformTraceEntries(model, pl, visuals[1..], time);
      var t := TransformTrace(model, pl, visuals, time);
      var rest := TransformTrace(model, pl, visuals[1..], time);
      var here := TransformOf(model, pl, visuals[0], time);
      if here.Some? {
        assert here.value.time == time && here.value.item.Transform3D?;
        assert t.entries == [here.value] + rest.entries;
        if t.ok {
          forall i | 0 <= i < |visuals| ensures TransformOf(model, pl, visuals[i], time) == Some(t.entries[i]) {
            if i > 0 {
              assert t.entries[i] == rest.entries[i - 1] && visuals[i] == visuals[1..][i - 1];
            }
          }
        }
      }
    }
  }

  /** The indices, below `n`, of the effectors whose frame resolves, ascending. */
  function ResolvedIndices(model: Model, effectors: seq<string>, n: nat): seq<nat>
    requires n <= |effectors|
  {
    if n == 0 then []
    else ResolvedIndices(model, effectors, n - 1) + (if FrameId(model, effectors[n - 1]).Some? then [n - 1] else [])
  }

  /** The marker positions the loop of `_log_end_effector_markers` gathers from the first `n` effectors. */
  function MarkerPositions(model: Model, pl: Placements, effectors: seq<string>, n: nat): seq<seq<real>>
    requires n <= |effectors|
  {
    if n == 0 then []
    else
      var here := match FrameId(model, effectors[n - 1])
                  case Some(f) => [pl.oMf(f).translation]
                  case None => [];
      MarkerPositions(model, pl, effectors, n - 1) + here
  }

  /** The marker colours that loop gathers: the palette entry of the configured index. */
  function MarkerColors(model: Model, effectors: seq<string>, n: nat): seq<Rgba>
    requires n <= |effectors|
  {
    if n == 0 then []
    else
      var here := if FrameId(model, effectors[n - 1]).Some? then [MARKER_COLORS[(n - 1) % |MARKER_COLORS|]] else [];
      MarkerColors(model, effectors, n - 1) + here
  }

  /** One position and one colour per resolving effector. */
  lemma {:induction false} MarkerLengths(model: Model, pl: Placements, effectors: seq<string>, n: nat)
    requires n <= |effectors|
    ensures |MarkerPositions(model, pl, effectors, n)| == |ResolvedIndices(model, effectors, n)|
    ensures |MarkerColors(model, effectors, n)| == |ResolvedIndices(model, effectors, n)|
  {
    if n > 0 {
      MarkerLengths(model, pl, effectors, n - 1);
    }
  }

  /**
   * The markers are exactly the effectors that resolve, in configured order:
   * an index is listed iff it is below `n` and its frame resolves, and the
   * list ascends strictly.
   */
  lemma {:induction false} ResolvedIndicesSpec(model: Model, effectors: seq<string>, n: nat)
    requires n <= |effectors|
    ensures var idx := ResolvedIndices(model, effectors, n);
      && (forall i: nat :: i in idx <==> i < n && FrameId(model, effectors[i]).Some?)
      && (forall a, b :: 0 <= a < b < |idx| ==> idx[a] < idx[b])
      && (forall k :: 0 <= k < |idx| ==> idx[k] < n)
  {
    if n > 0 {
      ResolvedIndicesSpec(model, effectors, n - 1);
      var idx, idx' := ResolvedIndices(model, effectors, n), ResolvedIndices(model, effectors, n - 1);
      if FrameId(model, effectors[n - 1]).Some? {
        assert idx == idx' + [n - 1];
      } else {
        assert idx == idx';
      }
    }
  }

  /**
   * The k-th position is the k-th resolving effector's frame translation and
   * its colour is the palette entry of that effector's configured index, so a
   * skipped effector does not shift the colours of those after it.
   */
  lemma {:induction false} MarkerContents(model: Model, pl: Placements, effectors: seq<string>, n: nat)
    requires n <= |effectors|
    ensures var idx := ResolvedIndices(model, effectors, n);
      && |MarkerPositions(model, pl, effectors, n)| == |MarkerColors(model, effectors, n)| == |idx|
      && forall k :: 0 <= k < |idx| ==>
        && idx[k] < n
        && FrameId(model, effectors[idx[k]]).Some?
        && MarkerPositions(model, pl, effectors, n)[k] == pl.oMf(FrameId(model, effectors[idx[k]]).value).translation
        && MarkerColors(model, effectors, n)[k] == MARKER_COLORS[idx[k] % |MARKER_COLORS|]
  {
    MarkerLengths(model, pl, effectors, n);
    if n > 0 {
      MarkerContents(model, pl, effectors, n - 1);
      var idx, idx' := ResolvedIndices(model, effectors, n), ResolvedIndices(model, effectors, n - 1);
      var ps, ps' := MarkerPositions(model, pl, effectors, n), MarkerPositions(model, pl, effectors, n - 1);
      var cs, cs' := MarkerColors(model, effectors, n), MarkerColors(model, effectors, n - 1);
      if FrameId(model, effectors[n - 1]).Some? {
        var f := FrameId(model, effectors[n - 1]).value;
        assert idx == idx' + [n - 1];
        assert ps == ps' + [pl.oMf(f).translation];
        assert cs == cs' + [MARKER_COLORS[(n - 1) % |MARKER_COLORS|]];
      } else {
        assert idx == idx' && ps == ps' && cs == cs';
      }
    }
  }

  /** The single Points3D entry of `_log_end_effector_markers`, or nothing when no effector resolves. */
  function MarkerEntries(model: Model, pl: Placements, time: Option<real>): seq<Entry> {
    var positions := MarkerPositions(model, pl, END_EFFECTORS, |END_EFFECTORS|);
    var colors := MarkerColors(model, END_EFFECTORS, |END_EFFECTORS|);
    if positions == [] then []
    else [Entry("markers/end_effectors",
                Points3D(positions, colors, seq(|positions|, _ => MARKER_RADIUS)), false, time)]
  }

  /**
   * `_log_end_effector_markers` logs nothing when no effector resolves, and
   * otherwise one non-static Points3D entry at "markers/end_effectors" with a
   * position, a colour and a radius of 0.03 for each resolving effector; the
   * positions and colours are those `MarkerContents` describes.
   */
  lemma MarkerEntriesSpec(model: Model, pl: Placements, time: Option<real>)
    ensures var m := MarkerEntries(model, pl, time);
      var idx := ResolvedIndices(model, END_EFFECTORS, |END_EFFECTORS|);
      && |m| <= 1
      && (m == [] <==> forall i :: 0 <= i < |END_EFFECTORS| ==> FrameId(model, END_EFFECTORS[i]).None?)
      && (m != [] ==>
            && m[0].path == "markers/end_effectors" && !m[0].isStatic && m[0].time == time
            && m[0].item.Points3D?
            && m[0].item.positions == MarkerPositions(model, pl, END_EFFECTORS, |END_EFFECTORS|)
            && m[0].item.colors == MarkerColors(model, END_EFFECTORS, |END_EFFECTORS|)
            && |m[0].item.positions| == |m[0].item.colors| == |m[0].item.radii| == |idx|
            && forall r :: r in m[0].item.radii ==> r == MARKER_RADIUS)
  {
    var idx := ResolvedIndices(model, END_EFFECTORS, |END_EFFECTORS|);
    MarkerLengths(model, pl, END_EFFECTORS, |END_EFFECTORS|);
    ResolvedIndicesSpec(model, END_EFFECTORS, |END_EFFECTORS|);
    if idx != [] {
      assert idx[0] in idx;
    } else {
      forall i | 0 <= i < |END_EFFECTORS| ensures FrameId(model, END_EFFECTORS[i]).None? {
        assert i !in idx;
      }
    }
  }

  /** The entries of `update(q)` given the placements forward kinematics produced for `q`. */
  function UpdateTrace(robot: Robot, pl: Placements, showMarkers: bool, time: Option<real>): Trace
    requires WellFormed(robot.model)
  {
    var t := TransformTrace(robot.model, pl, robot.visuals, time);
    if !t.ok then t
    else Trace(t.entries + (if showMarkers then MarkerEntries(robot.model, pl, time) else []), true)
  }

  class G1Visualizer {
    const robot: Robot
    const rec: Recording
    /** pinocchio's `data`: the placements of the latest forward-kinematics pass. */
    var data: Placements
    var link2mesh: map<string, Mesh>

    /** `G1Visualizer()`: the robot is given, the meshes are loaded and cached. */
    constructor (robot: Robot, loadable: set<string>, rec: Recording)
      ensures this.robot == robot && this.rec == rec
      ensures link2mesh == MeshTable(robot.visuals, loadable)
    {
      this.robot := robot;
      this.rec := rec;
      data := robot.forward(robot.model.neutral);
      var table := LoadMeshes(robot.visuals, loadable);
      link2mesh := table;
    }

    /** `init_scene(static)`: kinematics at the neutral configuration, then one mesh per cached object. */
    method InitScene(isStatic: bool) returns (ok: bool)
      requires WellFormed(robot.model)
      modifies this, rec`entries
      ensures data == robot.forward(robot.model.neutral)
      ensures var t := InitTrace(robot.model, data, robot.visuals, old(link2mesh), isStatic, rec.time);
        && rec.entries == old(rec.entries) + t.entries
        && link2mesh == t.meshes
        && ok == t.ok
    {
      data := robot.forward(robot.model.neutral);
      var model, pl, visuals, time := robot.model, data, robot.visuals, rec.time;
      ghost var start := rec.entries;
      ghost var whole := InitTrace(model, pl, visuals, link2mesh, isStatic, time);
      ghost var done: seq<Entry> := [];
      var i := 0;
      while i < |visuals|
        invariant 0 <= i <= |visuals|
        invariant data == pl && rec.time == time
        invariant rec.entries == start + done
        invariant var rest := InitTrace(model, pl, visuals[i..], link2mesh, isStatic, time);
          whole == InitResult(done + rest.entries, rest.meshes, rest.ok)
      {
        InitTraceStep(model, pl, visuals, i, link2mesh, isStatic, time);
        var name := StripSuffix(visuals[i].name);
        if name in link2mesh {
          var frame := FrameId(model, name);
          if frame.None? {
            assert done + [] == done;
            return false;
          }
          var j := ParentJoint(model, frame.value);
          var mesh := link2mesh[name];
          mesh := mesh.(applied := mesh.applied + [Relative(pl.oMi(j), pl.oMf(frame.value))]);
          var path := "robot/" + model.jointNames[j] + "/" + name;
          ghost var entry := Entry(path, Mesh3D(mesh), isStatic, time);
          ghost var rest := InitTrace(model, pl, visuals[i + 1..], link2mesh[name := mesh], isStatic, time);
          assert done + ([entry] + rest.entries) == (done + [entry]) + rest.entries;
          link2mesh := link2mesh[name := mesh];
          rec.Log(path, Mesh3D(mesh), isStatic);
          done := done + [entry];
        }
        i := i + 1;
      }
      assert done + [] == done;
      ok := true;
    }

    /** `update(q, show_markers)`: kinematics at `q`, one transform per object, then the markers. */
    method Update(q: seq<real>, showMarkers: bool) returns (ok: bool)
      requires WellFormed(robot.model)
      modifies this`data, rec`entries
      ensures data == robot.forward(q)
      ensures var t := UpdateTrace(robot, data, showMarkers, rec.time);
        rec.entries == old(rec.entries) + t.entries && ok == t.ok
    {
      data := robot.forward(q);
      ok := LogJointTransforms();
      if ok && showMarkers {
        LogEndEffectorMarkers();
      }
    }

    /** The loop of `update`: the placement of each geometry object's parent joint. */
    method LogJointTransforms() returns (ok: bool)
      requires WellFormed(robot.model)
      modifies rec`entries
      ensures var t := TransformTrace(robot.model, data, robot.visuals, rec.time);
        rec.entries == old(rec.entries) + t.entries && ok == t.ok
    {
      var model, pl, visuals, time := robot.model, data, robot.visuals, rec.time;
      ghost var start := rec.entries;
      ghost var done: seq<Entry> := [];
      var i := 0;
      while i < |visuals|
        invariant 0 <= i <= |visuals|
        invariant rec.entries == start + done && rec.time == time
        invariant var rest := TransformTrace(model, pl, visuals[i..], time);
          TransformTrace(model, pl, visuals, time) == Trace(done + rest.entries, rest.ok)
      {
        TransformTraceStep(model, pl, visuals, i, time);
        var frame := FrameId(model, StripSuffix(visuals[i].name));
        if frame.None? {
          assert done + [] == done;
          return false;
        }
        var j := ParentJoint(model, frame.value);
        var pose := pl.oMi(j);
        var path := "robot/" + model.jointNames[j];
        ghost var entry := Entry(path, Transform3D(pose.translation, pose.rotation), false, time);
        assert TransformOf(model, pl, visuals[i], time) == Some(entry);
        ghost var rest := TransformTrace(model, pl, visuals[i + 1..], time);
        assert done + ([entry] + rest.entries) == (done + [entry]) + rest.entries;
        rec.Log(path, Transform3D(pose.translation, pose.rotation), false);
        done := done + [entry];
        i := i + 1;
      }
      assert done + [] == done;
      ok := true;
    }

    /** `_log_end_effector_markers`: effectors that do not resolve are passed over. */
    method LogEndEffectorMarkers()
      modifies rec`entries
      ensures rec.entries == old(rec.entries) + MarkerEntries(robot.model, data, rec.time)
    {
      var positions: seq<seq<real>> := [];
      var colors: seq<Rgba> := [];
      for i := 0 to |END_EFFECTORS|
        invariant positions == MarkerPositions(robot.model, data, END_EFFECTORS, i)
        invariant colors == MarkerColors(robot.model, END_EFFECTORS, i)
      {
        var frame := FrameId(robot.model, END_EFFECTORS[i]);
        if frame.Some? {
          positions := positions + [data.oMf(frame.value).translation];
          colors := colors + [MARKER_COLORS[i % |MARKER_COLORS|]];
        }
      }
      if positions != [] {
        rec.Log("markers/end_effectors", Points3D(positions, colors, seq(|positions|, _ => MARKER_RADIUS)), false);
      }
    }
  }
}

/**
 * The robot as the visualizer sees it through pinocchio, which is not part of
 * this model: joint and frame tables, the visual geometry list, the neutral
 * configuration, and forward kinematics as an uninterpreted function from a
 * configuration to the joint placements `oMi` and frame placements `oMf`.
 */
module Kinematics {
  import opened Wrappers
  import opened Scene

  /** A frame of the model: its name and the index of its parent joint. */
  datatype Frame = Frame(name: string, parentJoint: nat)

  /** `model`: joint names (`model.names`) and frames (`model.frames`). */
  datatype Model = Model(jointNames: seq<string>, frames: seq<Frame>, neutral: seq<real>)

  /** Every frame's parent joint is a joint of the model. */
  predicate WellFormed(model: Model) {
    forall f :: f in model.frames ==> f.parentJoint < |model.jointNames|
  }

  /** An entry of `visual_model.geometryObjects`. */
  datatype GeometryObject = GeometryObject(name: string, meshPath: string, meshColor: Rgba)

  /** `data.oMi` and `data.oMf` after a forward-kinematics pass. */
  datatype Placements = Placements(oMi: nat -> Pose, oMf: nat -> Pose)

  datatype Robot = Robot(
    model: Model,
    visuals: seq<GeometryObject>,
    forward: seq<real> -> Placements)

  /**
   * `model.getFrameId(name)` followed by an index into the frame table: the
   * first frame with that name, or None where the indexing would raise.
   */
  function FrameId(model: Model, name: string): (r: Option<nat>)
    ensures r.Some? ==> r.value < |model.frames| && model.frames[r.value].name == name
  {
    FindFrom(model.frames, name, 0)
  }

  /** The frame found is the first with that name, and none is found exactly when no frame has it. */
  lemma FrameIdSpec(model: Model, name: string)
    ensures var r := FrameId(model, name);
      && (r.Some? ==> forall j :: 0 <= j < r.value ==> model.frames[j].name != name)
      && (r.None? <==> forall j :: 0 <= j < |model.frames| ==> model.frames[j].name != name)
  {
    var _ := FindFrom(model.frames, name, 0);
  }

  function FindFrom(frames: seq<Frame>, name: string, i: nat): (r: Option<nat>)
    requires i <= |frames|
    ensures r.Some? ==> i <= r.value < |frames| && frames[r.value].name == name
    ensures r.Some? ==> forall j :: i <= j < r.value ==> frames[j].name != name
    ensures r.None? <==> forall j :: i <= j < |frames| ==> frames[j].name != name
    decreases |frames| - i
  {
    if i == |frames| then None
    else if frames[i].name == name then Some(i)
    else FindFrom(frames, name, i + 1)
  }

  /** The parent joint of a frame that resolves; the model is well formed. */
  function ParentJoint(model: Model, frame: nat): (j: nat)
    requires WellFormed(model) && frame < |model.frames|
    ensures j == model.frames[frame].parentJoint
    ensures j < |model.jointNames|
  {
    assert model.frames[frame] in model.frames;
    model.frames[frame].parentJoint
  }
}

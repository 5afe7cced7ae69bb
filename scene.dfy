/**
 * The scene sink (a rerun recording) as an ordered log of entries. Each entry
 * carries the entity path, what was logged, whether it was logged as static,
 * and the value of the "time" timeline when it was logged.
 */
module Scene {
  import opened Wrappers

  /** A rigid placement: translation vector and 3x3 rotation matrix. */
  datatype Pose = Pose(translation: seq<real>, rotation: seq<seq<real>>)

  datatype Rgba = Rgba(r: int, g: int, b: int, a: int)

  /** `joint.inverse() * frame`: a frame's placement relative to its joint. */
  datatype Relative = Relative(joint: Pose, frame: Pose)

  /**
   * A mesh as the visualizer caches it: the file it came from, the colour it
   * was painted with, and the transforms applied to its vertices so far, oldest
   * first.
   */
  datatype Mesh = Mesh(source: string, color: Rgba, applied: seq<Relative>)

  /** A polyline given by its points. */
  type Strip = seq<seq<real>>

  datatype Item =
    | ViewCoordinatesRightHandZUp
    | Transform3D(translation: seq<real>, rotation: seq<seq<real>>)
    | Mesh3D(mesh: Mesh)
    | Points3D(positions: seq<seq<real>>, colors: seq<Rgba>, radii: seq<real>)
    | LineStrips3D(strips: seq<Strip>, colors: seq<Rgba>, radii: seq<real>)
    | MotionInfo(name: string, frames: nat, duration: real, fps: real, dof: nat)

  datatype Entry = Entry(path: string, item: Item, isStatic: bool, time: Option<real>)

  class Recording {
    const appId: string
    var time: Option<real>
    var entries: seq<Entry>

    /** `rr.init(app_id)`: a new, empty recording with no time set. */
    constructor (appId: string)
      ensures this.appId == appId && time == None && entries == []
    {
      this.appId := appId;
      time := None;
      entries := [];
    }

    /** `rr.set_time("time", duration=t)`. */
    method SetTime(t: real)
      modifies this`time
      ensures time == Some(t)
    {
      time := Some(t);
    }

    /** `rr.log(path, item, static=isStatic)`. */
    method Log(path: string, item: Item, isStatic: bool)
      modifies this`entries
      ensures entries == old(entries) + [Entry(path, item, isStatic, time)]
    {
      entries := entries + [Entry(path, item, isStatic, time)];
    }
  }
}

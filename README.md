# G1 motion replay, modelled in Dafny

This project models the logic that the G1 motion visualizer writes itself.
The visualizer replays a recorded humanoid motion (root position, root quaternion and joint
angles per frame) as a timed 3D scene.

- **Motion buffer** (`G1MotionData`): the derived counts `num_frames`, `num_dof` and
  `duration`, and the per-frame configuration vector `root_pos ++ root_rot ++ dof_pos`.
- **Loader**: `load_g1_motion_pkl`, over a key-to-value map standing in for the unpickled
  dictionary, with its defaults and its name derivation. The name is the basename with
  `.pkl` removed in one left-to-right pass.
- **Directory mode**: `load_g1_motions_from_dir` sorts the listing and cuts it when
  `max_files` is truthy. It loads each file in turn and skips any that raises.
- **The visualizer**:
  - the mesh cache `_load_meshes`;
  - the static scene `init_scene`;
  - the per-frame `update` with its end-effector markers;
  - the frame loop of `visualize_g1_motion`;
  - the ground grid `_log_ground_plane`.

The rerun recording is a `Recording` object. Its entry log only grows: every `rr.log`
appends one `Entry` (path, item, static flag, current time), and `rr.set_time` sets the
time. pinocchio is an oracle:
- a frame table with a lookup that may miss;
- joint names;
- forward kinematics as an uninterpreted function from a configuration to joint (`oMi`) and
  frame (`oMf`) placements.

Each loop of the Python code is a method proved against a specification function. For example,
`InitTrace`, `TransformTrace`, `MarkerEntries`, `FramesTrace` and `Replay` give the entries
appended and whether the run ends without raising. Lemmas then state what those functions
promise.

Python's exceptions are modelled as failure paths:
- A frame name that does not resolve raises in `update` and `init_scene`; the run stops there.
  In the marker loop it is caught and skipped.
- A zero frame rate raises at the duration shown in the info text, after the static scene.
- A zero playback speed raises at `dt`.
- `get_configuration(k)` raises `IndexError` when `root_rot` or `dof_pos` has no row `k`.
  The frame count comes from `root_pos` alone.
- A zero `grid_size` raises before the grid is logged.
- In directory mode, the progress line after `motions.append` reads `duration`. A zero frame
  rate raises there, after the append, so that motion is still kept.

What the code does not do, and the model therefore does not do either:
- The code has no kinematic tree and no forward kinematics of its own; it validates nothing.
- It does not reject a frame rate or speed at or below zero: a negative `dt` gives
  decreasing stamps, and a zero value raises `ZeroDivisionError`.
- It does not check the configuration length or the arrays' row counts against each other.
- It keys meshes by stripping the last two characters of the geometry name (`name[:-2]`).
- A frame of a geometry object that does not resolve is fatal in `update` and `init_scene`.

## Model

| member | source | states |
|---|---|---|
| Strings.Basename | g1_visualizer/data_loader.py:78 | `os.path.basename`: the result has no '/', is a suffix of the path preceded by '/' when shorter, and is the whole path when it has no '/' |
| Strings.BasenameAfterSlash | g1_visualizer/data_loader.py:78 | the base name of `dir/name` is `name` whenever `name` has no '/' |
| Strings.RemoveAll | g1_visualizer/data_loader.py:78 | `str.replace(pat, '')`: never longer than the input, keeps only characters of the input, and leaves a string without `pat` unchanged |
| Strings.RemoveFromAt | g1_visualizer/data_loader.py:78 | the left-to-right scan keeps everything before the first occurrence at or after its position, drops that occurrence and resumes after it |
| Strings.RemoveFromShift | g1_visualizer/data_loader.py:78 | text already scanned in front does not change how the rest is scanned |
| Strings.RemoveAllLeftmost | g1_visualizer/data_loader.py:78 | when no occurrence starts inside `u`, removing `pat` from `u + pat + v` gives `u` followed by the removal from `v` |
| Strings.Sort | g1_visualizer/data_loader.py:99 | `sorted`: the result is ordered by Python's string order and is a permutation of the input |
| MotionData.Motion.NumFrames | g1_visualizer/data_loader.py:26-28 | `num_frames`: root_pos has a row at every index below it and none at it |
| MotionData.Motion.NumDof | g1_visualizer/data_loader.py:30-32 | `num_dof`: the column count of dof_pos, which for a rectangular array is the length of every row |
| MotionData.Row | g1_visualizer/data_loader.py:44-46 | numpy first-axis indexing: defined exactly for `-len <= i < len`, a negative index counting from the end |
| MotionData.Motion.Duration | g1_visualizer/data_loader.py:34-37 | `duration` is a ZeroDivisionError exactly when fps is 0; otherwise duration * fps == num_frames |
| MotionData.Motion.GetConfiguration | g1_visualizer/data_loader.py:39-47 | the configuration exists exactly when all three arrays have row i (else IndexError), and is root_pos[i], root_rot[i], dof_pos[i] laid end to end |
| MotionData.ConfigurationRoundTrip | g1_visualizer/data_loader.py:39-47 | for well-shaped arrays and a frame all three have, the configuration has 3 + 4 + num_dof entries and slices [0:3], [3:7], [7:] give the three rows back |
| MotionData.ConfigurationInRange | g1_visualizer/data_loader.py:26-46 | frame i has a configuration exactly when i < num_frames (rows of root_pos) and i is below the row counts of root_rot and dof_pos: no cross-array check is made |
| Loader.ToFloat | g1_visualizer/data_loader.py:77 | `float(v)` keeps a number, converts a numpy array exactly when it holds one element (giving that element), and fails on None or a list of names |
| Loader.MandatoryArray | g1_visualizer/data_loader.py:72-74 | a missing key is a KeyError for that key; the result is the stored array exactly when the key holds one |
| Loader.MotionName | g1_visualizer/data_loader.py:78 | the name has no '/', is no longer than the basename, and is the basename itself when it contains no ".pkl" |
| Loader.StripStem | g1_visualizer/data_loader.py:78 | a stem without ".pkl" followed by ".pkl" loses exactly that suffix |
| Loader.MotionNameOfFile | g1_visualizer/data_loader.py:78 | the motion of `dir/stem.pkl` is named `stem` when the stem has no '/' and no ".pkl" |
| Loader.LoadMotionPkl | g1_visualizer/data_loader.py:71-79 | the first missing array of root_pos, root_rot, dof_pos is the KeyError reported; success exactly when the three are arrays and fps converts; fps defaults to 30.0, link_body_list to [], local_body_pos to None; the name is MotionName(path) |
| Loader.LoadFile | g1_visualizer/data_loader.py:68-71 | a path that does not open is an error; otherwise the file's dictionary is loaded |
| Loader.Truthy | g1_visualizer/data_loader.py:101 | `if max_files:` holds exactly when max_files is neither None nor 0 |
| Loader.Head | g1_visualizer/data_loader.py:102 | `files[:k]` is a prefix of length min(k, len) for k >= 0 and drops -k entries from the end for k < 0 |
| Loader.SelectFilesSpec | g1_visualizer/data_loader.py:98-102 | the selection is a sorted prefix of the sorted listing drawn from the listing; it is the whole listing unless max_files is truthy, and min(max_files, len) files for a positive max_files |
| Loader.LoadMotionsFromDir | g1_visualizer/data_loader.py:82-113 | the loop returns exactly the motions of the selected files that load, in order |
| Loader.LoadAllLength | g1_visualizer/data_loader.py:104-113 | one motion per file that loads, never more motions than files |
| Loader.LoadAllFromAt | g1_visualizer/data_loader.py:105-108 | the j-th motion is the one loaded from the j-th file that loads |
| Loader.LoadAllFrom | g1_visualizer/data_loader.py:105-108 | every motion is the one loaded from the corresponding file that loads |
| Loader.LoadedPathsMembers | g1_visualizer/data_loader.py:105-111 | a file's motion is kept exactly when it is listed and loads; failures are skipped |
| Loader.LoadedPathsBounded | g1_visualizer/data_loader.py:105-111 | skipping files keeps any upper bound of the listing |
| Loader.LoadedPathsSorted | g1_visualizer/data_loader.py:99-111 | a sorted listing yields motions in sorted file order |
| Loader.LoadedNames | g1_visualizer/data_loader.py:78-107 | each loaded motion is named after the file it came from |
| Loader.SinglePassRemoval | g1_visualizer/data_loader.py:78 | the name of "a.p.pklkl" is "a.pkl": one pass, so a ".pkl" can remain in a name |
| Scene.Recording.constructor | g1_visualizer/visualizer.py:164 | `rr.init`: a recording under the given id with an empty log and no time set |
| Scene.Recording.SetTime | g1_visualizer/visualizer.py:199 | `rr.set_time`: later entries carry the new time |
| Scene.Recording.Log | g1_visualizer/visualizer.py:106-112 | `rr.log`: appends exactly one entry stamped with the current time |
| Kinematics.FrameId | g1_visualizer/visualizer.py:64-65 | a found frame index is in range and names the frame asked for |
| Kinematics.FrameIdSpec | g1_visualizer/visualizer.py:101-102 | the frame found is the first with that name, and there is none exactly when no frame has it |
| Kinematics.ParentJoint | g1_visualizer/visualizer.py:65-66 | a resolved frame's `parentJoint`, which indexes the joint names |
| Visualizer.StripSuffix | g1_visualizer/visualizer.py:43 | `name[:-2]`: the name without its last two characters, empty for shorter names |
| Visualizer.MeshTableKeys | g1_visualizer/visualizer.py:40-49 | the cache has a key exactly for the stripped names of objects whose mesh loads; a failure omits only its own key |
| Visualizer.MeshTableLast | g1_visualizer/visualizer.py:42-46 | a key holds the freshly coloured mesh of the last object cached under it |
| Visualizer.LoadMeshes | g1_visualizer/visualizer.py:37-50 | the loop builds exactly the cache MeshTable describes |
| Visualizer.G1Visualizer.constructor | g1_visualizer/visualizer.py:19-35 | the visualizer starts with the mesh cache of its robot's geometry |
| Visualizer.InitTraceKeys | g1_visualizer/visualizer.py:63-73 | `init_scene` transforms cached meshes in place: the cache keeps its keys |
| Visualizer.InitTraceOk | g1_visualizer/visualizer.py:58-65 | `init_scene` finishes exactly when every cached object's frame resolves; others are never looked up |
| Visualizer.InitTraceCount | g1_visualizer/visualizer.py:58-61 | a finished `init_scene` logs one mesh per cached object |
| Visualizer.InitTraceEntryAt | g1_visualizer/visualizer.py:76-85 | its i-th entry is a mesh at robot/{parent joint}/{frame} of the i-th cached object, static as asked |
| Visualizer.InitTraceEntries | g1_visualizer/visualizer.py:58-85 | one mesh entry per cached object, in geometry order, at robot/{parent joint}/{frame}, static as asked |
| Visualizer.G1Visualizer.InitScene | g1_visualizer/visualizer.py:52-85 | kinematics at the neutral configuration, then the log and the cache become what InitTrace says |
| Visualizer.TransformTraceOk | g1_visualizer/visualizer.py:99-102 | the transform loop finishes exactly when every geometry object resolves |
| Visualizer.TransformTraceEntries | g1_visualizer/visualizer.py:99-112 | a finished loop logs one transform per object, in order, carrying the parent joint's placement at robot/{parent joint}; every entry is a transform at the current time |
| Visualizer.G1Visualizer.LogJointTransforms | g1_visualizer/visualizer.py:99-112 | the loop appends exactly TransformTrace's entries and reports whether it finished |
| Visualizer.MarkerLengths | g1_visualizer/visualizer.py:127-135 | one position and one colour per resolving effector |
| Visualizer.ResolvedIndicesSpec | g1_visualizer/visualizer.py:130-137 | the markers are exactly the effectors that resolve, in configured order |
| Visualizer.MarkerContents | g1_visualizer/visualizer.py:120-137 | the k-th position is the k-th resolving effector's frame translation and its colour is `colors[i % 4]` for its configured index i |
| Visualizer.MarkerEntriesSpec | g1_visualizer/visualizer.py:139-147 | nothing is logged when no effector resolves; else one entry at markers/end_effectors carrying the marker positions and colours, with equal-length positions, colours and radii, every radius 0.03 |
| Visualizer.G1Visualizer.LogEndEffectorMarkers | g1_visualizer/visualizer.py:118-147 | appends exactly MarkerEntries for the current placements |
| Visualizer.G1Visualizer.Update | g1_visualizer/visualizer.py:87-116 | kinematics at q, then the transforms, then the markers only when shown and the transforms finished |
| Playback.GridLinesPairs | g1_visualizer/visualizer.py:233-240 | 2 * (grid_size + 1) lines; pair i at offset -half + i * step, first along y at x = offset, then along x at y = offset; none for a negative grid_size |
| Playback.GridOnGround | g1_visualizer/visualizer.py:239-240 | every line is a two-point segment at z = 0 |
| Playback.GridOffsetsSpan | g1_visualizer/visualizer.py:234-238 | the offsets start at -half and the last is exactly half |
| Playback.GridEntrySpec | g1_visualizer/visualizer.py:242-250 | the grid entry is static at ground/grid with one grey colour and one 0.002 radius per line |
| Playback.LogGroundPlane | g1_visualizer/visualizer.py:231-250 | a zero grid_size raises before logging; otherwise exactly the grid entry is appended |
| Playback.FrameStep | g1_visualizer/visualizer.py:194 | `dt = 1.0 / fps / playback_speed`: dt * (fps * speed) == 1, and dt is positive exactly when fps and speed have the same sign |
| Playback.FrameTraceOk | g1_visualizer/visualizer.py:198-214 | a frame finishes exactly when its configuration exists and every object resolves, then logs objects + markers + 1 entries |
| Playback.FrameTraceSpec | g1_visualizer/visualizer.py:202-214 | a finished frame logs the transforms first, then the marker entry if any, and last the trajectory point root_pos[k] |
| Playback.FrameTimes | g1_visualizer/visualizer.py:199 | every entry of frame k is stamped k * dt |
| Playback.RunFramesOk | g1_visualizer/visualizer.py:198-203 | a loop over frames 0 .. n - 1 gets through exactly when every frame finishes |
| Playback.RunFramesStops | g1_visualizer/visualizer.py:198-203 | once a frame raises, no later frame runs: the log and the frames entered stay as they were |
| Playback.EnteredSpec | g1_visualizer/visualizer.py:198-203 | a loop that gets through enters all n frames; one that stops enters the frames up to the first that raised, all before it having finished |
| Playback.RunFramesLength | g1_visualizer/visualizer.py:198-214 | when every finishing frame logs `per` entries, a loop through n frames logs n * per |
| Playback.RunFramesOrdered | g1_visualizer/visualizer.py:198-214 | when frame k stamps every entry k * dt with dt >= 0, the stamps never decrease along the log and none is later than the last frame's |
| Playback.FramesTraceStops | g1_visualizer/visualizer.py:198-203 | once a frame of the replay raises, no later frame logs anything |
| Playback.FramesTraceOk | g1_visualizer/visualizer.py:198-203 | the first n frames finish exactly when n is 0 or every object resolves and all arrays have n rows |
| Playback.FramesTraceLength | g1_visualizer/visualizer.py:198-214 | a finished run of n frames logs n * (objects + markers + 1) entries |
| Playback.FramesTraceOrdered | g1_visualizer/visualizer.py:198-214 | with dt >= 0 the stamps never decrease along the log, and none is later than the last frame's k * dt |
| Playback.FramesPoseSpec | g1_visualizer/visualizer.py:198-203 | with no frame entered the placements are unchanged; after frames 0 .. n - 1 all finish, the robot is posed at frame n - 1's configuration |
| Playback.TimesIncrease | g1_visualizer/visualizer.py:199 | with dt >= 0 a later frame is never stamped earlier |
| Playback.TimesStrictlyIncrease | g1_visualizer/visualizer.py:194-199 | with dt > 0 stamps strictly increase with the frame index |
| Playback.DoubleSpeedHalvesTimes | g1_visualizer/visualizer.py:194-199 | doubling playback_speed halves every frame's stamp |
| Playback.PlayFrame | g1_visualizer/visualizer.py:199-214 | one iteration appends exactly FrameTrace's entries, sets the time to k * dt, and poses the robot at frame k's configuration when it exists (else leaves the placements) |
| Playback.PlayFrames | g1_visualizer/visualizer.py:198-214 | the frame loop appends exactly FramesTrace's entries for num_frames frames, stopping at the first that raises; the time and placements are those after the last frame entered, unchanged when there are no frames |
| Playback.ReplaySpec | g1_visualizer/visualizer.py:164-214 | the log starts with view axes, world and grid; the replay finishes exactly when cached frames resolve, fps and speed are non-zero and every frame's configuration and objects resolve; then it holds 3 + meshes + 1 + num_frames * (objects + markers + 1) entries |
| Playback.VisualizeMotion | g1_visualizer/visualizer.py:150-214 | a fresh recording named "G1 Motion: {name}" holding exactly Replay's entries |

## Left out

- pinocchio is not part of this model: URDF parsing, `framesForwardKinematics`, `neutral`
  and the SE3 algebra (`inverse`, `*`, `homogeneous`). Placements are oracle values, and a
  relative transform is recorded as the pair of joint and frame placements.
- rerun is not part of this model. It is an ordered log only: no viewer, no spawn and no
  archetype encoding, and the info text is kept as its fields rather than formatted.
- trimesh is not part of this model. Loading is a set of loadable mesh paths, and colouring
  and `apply_transform` are recorded on the cached `Mesh` value. The cache is a map of
  values, so two keys never alias the same mesh object.
- pickle, glob and the file system are given as inputs: a map from path to dictionary, and
  the list the recursive glob found (its order does not matter, since it is sorted).
- g1_visualizer/main.py, g1_visualizer/config.py and g1_visualizer/__init__.py are not part
  of this model. `END_EFFECTORS` and the default grid are constants.
- The hold-open `while True: time.sleep(1)` loop and every `print`: these are
  host-process behaviour.
- `quick_visualize_g1`: only the composition of `LoadMotionPkl` and `VisualizeMotion`.
- Floating point: all arithmetic is on Dafny reals, with no IEEE rounding.
- Loader.LoadMotionPkl: a mandatory value that is not a numeric 2-D array is an error
  (`NotAnArray`). `np.array` instead builds an array of another shape, and
  `load_g1_motion_pkl` returns a motion holding it without raising.
- Loader.LoadMotionsFromDir: a file whose mandatory value is not a 2-D array is skipped
  here. The Python code keeps its motion: the append at g1_visualizer/data_loader.py:107-108
  comes before the progress line at :109. For a 3-D array nothing raises at all; for a
  number, None or a list, `num_frames` or `num_dof` raises only after the append.
- MotionData.Motion.NumDof: arrays are 2-D by construction, so the `IndexError` that
  `shape[1]` raises on a 1-D `dof_pos` is not modelled.
- Visualizer.G1Visualizer.constructor: pinocchio's initial `data` is never read before
  `init_scene` overwrites it, so its initial value is left as the neutral placements.
- Playback.ReplaySpec, Playback.FramesTraceOk, Playback.FrameTraceOk, Playback.RunFramesOk:
  forward kinematics is a total oracle here. pinocchio's `framesForwardKinematics` raises
  `ValueError` when the configuration's length `7 + num_dof` differs from the robot's `nq`,
  for example a 23-DoF motion on a 29-DoF robot. The model does not raise there, so such a
  motion runs to the end, and "finishes exactly when" omits that condition.
- Loader.ToFloat: a nested Python list is not represented (`Matrix` is a numpy array), so
  `float([[30.0]])`, which raises, is not modelled; nor is a string `fps`, which `float` parses.
- Kinematics.FrameIdSpec: on a miss `getFrameId` returns the size of the frame table, and
  the indexing that follows raises. The model returns None, and each caller treats it as that
  raise. When several frames share a name, the model takes the first; pinocchio versions
  that check for duplicate names raise in `getFrameId` there instead.
- Visualizer.InitTraceEntries: it states each entry's path, kind, static flag and time, but
  not the transformed mesh it carries. Only `InitTrace` itself states that.

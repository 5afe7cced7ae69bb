/**
 * `load_g1_motion_pkl` and `load_g1_motions_from_dir`. The unpickled
 * dictionary is a map from key to `Field`; the file system is a map from path
 * to the dictionary its file unpickles to.
 */
module Loader {
  import opened Wrappers
  import opened MotionData
  import Strings

  type Pickle = map<string, Field>

  /** Paths that open and unpickle; any other path fails to load. */
  type Disk = map<string, Pickle>

  datatype LoadError =
    | KeyError(key: string)
    | TypeError(key: string)
    | NotAnArray(key: string)
    | Unreadable(path: string)

  const DEFAULT_FPS: real := 30.0
  const PKL: string := ".pkl"

  /** `float(v)`: a number, or a numpy array holding exactly one number. */
  function ToFloat(v: Field): (r: Option<real>)
    ensures v.Number? ==> r == Some(v.x)
    ensures v.NoneValue? || v.Names? ==> r.None?
    ensures v.Matrix? ==> (r.Some? <==> |v.m.rows| == 1 && |v.m.rows[0]| == 1)
    ensures v.Matrix? && r.Some? ==> r.value == v.m.rows[0][0]
    ensures v.Tensor? ==> (r.Some? <==> |v.t| == 1 && |v.t[0]| == 1 && |v.t[0][0]| == 1)
    ensures v.Tensor? && r.Some? ==> r.value == v.t[0][0][0]
  {
    match v
    case Number(x) => Some(x)
    case Matrix(a) =>
      if |a.rows| == 1 && |a.rows[0]| == 1 then Some(a.rows[0][0]) else None
    case Tensor(t) =>
      if |t| == 1 && |t[0]| == 1 && |t[0][0]| == 1 then Some(t[0][0][0]) else None
    case _ => None
  }

  /** `np.array(data[key])` for one of the three mandatory arrays. */
  function MandatoryArray(data: Pickle, key: string): (r: Result<Array2, LoadError>)
    ensures key !in data ==> r == Err(KeyError(key))
    ensures r.Ok? <==> key in data && data[key].Matrix?
    ensures r.Ok? ==> r.value == data[key].m
  {
    if key !in data then Err(KeyError(key))
    else if data[key].Matrix? then Ok(data[key].m)
    else Err(NotAnArray(key))
  }

  /** The motion's name: the file's base name with every ".pkl" removed. */
  function MotionName(path: string): (name: string)
    ensures '/' !in name
    ensures |name| <= |Strings.Basename(path)|
    ensures !Strings.IsInfix(PKL, Strings.Basename(path)) ==> name == Strings.Basename(path)
  {
    Strings.RemoveAll(Strings.Basename(path), PKL)
  }

  /**
   * `load_g1_motion_pkl`: the arguments are evaluated in the order the
   * constructor call lists them, so the first missing array is the one
   * reported; `fps` defaults to 30.0, `link_body_list` to the empty list and
   * `local_body_pos` to None.
   */
  function LoadMotionPkl(path: string, data: Pickle): (r: Result<Motion, LoadError>)
    ensures "root_pos" !in data ==> r == Err(KeyError("root_pos"))
    ensures "root_pos" in data && data["root_pos"].Matrix? && "root_rot" !in data ==>
      r == Err(KeyError("root_rot"))
    ensures "root_pos" in data && data["root_pos"].Matrix? &&
            "root_rot" in data && data["root_rot"].Matrix? && "dof_pos" !in data ==>
      r == Err(KeyError("dof_pos"))
    ensures r.Ok? <==>
      && "root_pos" in data && data["root_pos"].Matrix?
      && "root_rot" in data && data["root_rot"].Matrix?
      && "dof_pos" in data && data["dof_pos"].Matrix?
      && ("fps" in data ==> ToFloat(data["fps"]).Some?)
    ensures r.Ok? ==>
      && r.value.rootPos == data["root_pos"].m
      && r.value.rootRot == data["root_rot"].m
      && r.value.dofPos == data["dof_pos"].m
      && r.value.fps == (if "fps" in data then ToFloat(data["fps"]).value else DEFAULT_FPS)
      && r.value.linkBodyList == (if "link_body_list" in data then data["link_body_list"] else Names([]))
      && r.value.localBodyPos == (if "local_body_pos" in data then Some(data["local_body_pos"]) else None)
      && r.value.name == MotionName(path)
  {
    match MandatoryArray(data, "root_pos")
    case Err(e) => Err(e)
    case Ok(rootPos) =>
      match MandatoryArray(data, "root_rot")
      case Err(e) => Err(e)
      case Ok(rootRot) =>
        match MandatoryArray(data, "dof_pos")
        case Err(e) => Err(e)
        case Ok(dofPos) =>
          var localBodyPos := if "local_body_pos" in data then Some(data["local_body_pos"]) else None;
          var linkBodyList := if "link_body_list" in data then data["link_body_list"] else Names([]);
          var fps := ToFloat(if "fps" in data then data["fps"] else Number(DEFAULT_FPS));
          if fps.None? then Err(TypeError("fps"))
          else Ok(Motion(rootPos, rootRot, dofPos, localBodyPos, linkBodyList, fps.value, MotionName(path)))
  }

  /** Opening and unpickling `path`, then `load_g1_motion_pkl`. */
  function LoadFile(disk: Disk, path: string): (r: Result<Motion, LoadError>)
    ensures path !in disk ==> r == Err(Unreadable(path))
    ensures path in disk ==> r == LoadMotionPkl(path, disk[path])
  {
    if path in disk then LoadMotionPkl(path, disk[path]) else Err(Unreadable(path))
  }

  /** `if max_files:` is false for None and for 0. */
  function Truthy(maxFiles: Option<int>): (b: bool)
    ensures b <==> maxFiles != None && maxFiles != Some(0)
  {
    maxFiles.Some? && maxFiles.value != 0
  }

  /** Python's `files[:k]`; a negative `k` drops that many entries from the end. */
  function Head(files: seq<string>, k: int): (r: seq<string>)
    ensures 0 <= k ==> |r| == if k < |files| then k else |files|
    ensures k < 0 ==> |r| == if |files| + k < 0 then 0 else |files| + k
    ensures r == files[..|r|]
  {
    var n := if 0 <= k then (if k < |files| then k else |files|)
             else (if |files| + k < 0 then 0 else |files| + k);
    files[..n]
  }

  /** The files directory mode reads: the sorted list, cut when `max_files` is truthy. */
  function SelectFiles(found: seq<string>, maxFiles: Option<int>): seq<string> {
    var files := Strings.Sort(found);
    if Truthy(maxFiles) then Head(files, maxFiles.value) else files
  }

  /** The motions of the files that load, in the order of `files`. */
  function LoadAll(disk: Disk, files: seq<string>): seq<Motion> {
    if files == [] then []
    else
      var last := LoadFile(disk, files[|files| - 1]);
      LoadAll(disk, files[..|files| - 1]) + (if last.Ok? then [last.value] else [])
  }

  /** The files that load, in the order of `files`. */
  function LoadedPaths(disk: Disk, files: seq<string>): seq<string> {
    if files == [] then []
    else
      var last := files[|files| - 1];
      LoadedPaths(disk, files[..|files| - 1]) + (if LoadFile(disk, last).Ok? then [last] else [])
  }

  /**
   * `load_g1_motions_from_dir`, given the paths the recursive glob found:
   * sort, cut to `max_files` when it is truthy, then load each file in turn,
   * skipping any that raises.
   */
  method LoadMotionsFromDir(disk: Disk, found: seq<string>, maxFiles: Option<int>)
    returns (motions: seq<Motion>)
    ensures motions == LoadAll(disk, SelectFiles(found, maxFiles))
  {
    var files := Strings.Sort(found);
    if Truthy(maxFiles) {
      files := Head(files, maxFiles.value);
    }
    assert files == SelectFiles(found, maxFiles);
    motions := [];
    for i := 0 to |files|
      invariant motions == LoadAll(disk, files[..i])
    {
      var motion := LoadFile(disk, files[i]);
      assert files[..i + 1][..i] == files[..i] && files[..i + 1][i] == files[i];
      assert LoadAll(disk, files[..i + 1]) == motions + (if motion.Ok? then [motion.value] else []);
      if motion.Ok? {
        motions := motions + [motion.value];
      }
    }
    assert files[..|files|] == files;
  }

  /**
   * The selection is a prefix of the sorted listing and is itself sorted;
   * it is the whole listing unless `max_files` is truthy, and then it holds
   * `max_files` files (or all of them, if fewer) for a positive value.
   */
  lemma SelectFilesSpec(found: seq<string>, maxFiles: Option<int>)
    ensures var sel := SelectFiles(found, maxFiles);
      && sel == Strings.Sort(found)[..|sel|]
      && Strings.Sorted(sel)
      && multiset(sel) <= multiset(found)
      && (!Truthy(maxFiles) ==> |sel| == |found|)
      && (Truthy(maxFiles) && maxFiles.value > 0 ==>
            |sel| == if maxFiles.value < |found| then maxFiles.value else |found|)
  {
    var sorted := Strings.Sort(found);
    var sel := SelectFiles(found, maxFiles);
    Strings.PrefixSorted(sorted, |sel|);
    assert sorted == sel + sorted[|sel|..];
    assert multiset(sorted) == multiset(sel) + multiset(sorted[|sel|..]);
  }

  /** Directory mode yields one motion per file that loads, never more motions than files. */
  lemma {:induction false} LoadAllLength(disk: Disk, files: seq<string>)
    ensures |LoadAll(disk, files)| == |LoadedPaths(disk, files)| <= |files|
  {
    if files != [] {
      LoadAllLength(disk, files[..|files| - 1]);
    }
  }

  /** The j-th motion is the one loaded from the j-th file that loads. */
  lemma {:induction false} LoadAllFromAt(disk: Disk, files: seq<string>, j: nat)
    requires j < |LoadAll(disk, files)| && j < |LoadedPaths(disk, files)|
    ensures LoadFile(disk, LoadedPaths(disk, files)[j]) == Ok(LoadAll(disk, files)[j])
  {
    var init, last := files[..|files| - 1], files[|files| - 1];
    LoadAllLength(disk, init);
    var ms', ps' := LoadAll(disk, init), LoadedPaths(disk, init);
    var loaded := LoadFile(disk, last);
    if loaded.Ok? {
      assert LoadAll(disk, files) == ms' + [loaded.value];
      assert LoadedPaths(disk, files) == ps' + [last];
      if j < |ms'| {
        LoadAllFromAt(disk, init, j);
      }
    } else {
      assert LoadAll(disk, files) == ms';
      assert LoadedPaths(disk, files) == ps';
      LoadAllFromAt(disk, init, j);
    }
  }

  /** Every motion is the one loaded from the corresponding file that loads. */
  lemma LoadAllFrom(disk: Disk, files: seq<string>)
    ensures |LoadAll(disk, files)| == |LoadedPaths(disk, files)|
    ensures forall j :: 0 <= j < |LoadedPaths(disk, files)| ==>
      LoadFile(disk, LoadedPaths(disk, files)[j]) == Ok(LoadAll(disk, files)[j])
  {
    LoadAllLength(disk, files);
    forall j | 0 <= j < |LoadedPaths(disk, files)|
      ensures LoadFile(disk, LoadedPaths(disk, files)[j]) == Ok(LoadAll(disk, files)[j])
    {
      LoadAllFromAt(disk, files, j);
    }
  }

  /** Directory mode keeps exactly the listed files that load. */
  lemma {:induction false} LoadedPathsMembers(disk: Disk, files: seq<string>)
    ensures forall p :: p in LoadedPaths(disk, files) <==> p in files && LoadFile(disk, p).Ok?
  {
    if files != [] {
      var init, last := files[..|files| - 1], files[|files| - 1];
      assert files == init + [last];
      LoadedPathsMembers(disk, init);
    }
  }

  /** A bound on every listed file bounds every loaded path. */
  lemma {:induction false} LoadedPathsBounded(disk: Disk, files: seq<string>, x: string)
    requires forall i :: 0 <= i < |files| ==> Strings.LessEq(files[i], x)
    ensures forall i :: 0 <= i < |LoadedPaths(disk, files)| ==> Strings.LessEq(LoadedPaths(disk, files)[i], x)
  {
    if files != [] {
      var init, last := files[..|files| - 1], files[|files| - 1];
      assert forall i :: 0 <= i < |init| ==> init[i] == files[i];
      LoadedPathsBounded(disk, init, x);
    }
  }

  /** A sorted listing gives sorted loaded paths: skipping files keeps the order. */
  lemma {:induction false} LoadedPathsSorted(disk: Disk, files: seq<string>)
    requires Strings.Sorted(files)
    ensures Strings.Sorted(LoadedPaths(disk, files))
  {
    if files != [] {
      var init, last := files[..|files| - 1], files[|files| - 1];
      assert forall i :: 0 <= i < |init| ==> init[i] == files[i];
      assert Strings.Sorted(init);
      LoadedPathsSorted(disk, init);
      LoadedPathsBounded(disk, init, last);
      var lp := LoadedPaths(disk, init);
      if LoadFile(disk, last).Ok? {
        var lp' := lp + [last];
        assert LoadedPaths(disk, files) == lp';
        forall a, b | 0 <= a < b < |lp'| ensures Strings.LessEq(lp'[a], lp'[b]) {
          assert lp'[a] == lp[a];
          if b < |lp| {
            assert lp'[b] == lp[b];
          }
        }
      } else {
        assert LoadedPaths(disk, files) == lp;
      }
    }
  }

  /** Each loaded motion is named after the file it came from. */
  lemma LoadedNames(disk: Disk, files: seq<string>, j: nat)
    requires j < |LoadAll(disk, files)|
    ensures j < |LoadedPaths(disk, files)|
    ensures LoadAll(disk, files)[j].name == MotionName(LoadedPaths(disk, files)[j])
  {
    LoadAllFrom(disk, files);
  }

  /**
   * A stem with no ".pkl" in it loses exactly the ".pkl" appended to it: an
   * occurrence cannot start inside the stem and run into the suffix, because
   * '.' appears in ".pkl" only at its start.
   */
  lemma StripStem(stem: string)
    requires !Strings.IsInfix(PKL, stem)
    ensures Strings.RemoveAll(stem + PKL, PKL) == stem
  {
    var s := stem + PKL + [];
    forall i | 0 <= i < |stem| ensures !Strings.OccursAt(PKL, s, i) {
      if i + |PKL| <= |stem| {
        assert s[i..i + |PKL|] == stem[i..i + |PKL|];
        assert !Strings.OccursAt(PKL, stem, i);
      } else {
        assert s[i..i + |PKL|][|stem| - i] == '.';
        assert PKL[|stem| - i] != '.';
      }
    }
    assert Strings.NoneBefore(PKL, s, |stem|);
    Strings.RemoveAllLeftmost(stem, PKL, []);
    assert s == stem + PKL;
  }

  /** A file `dir/stem.pkl` whose stem holds no '/' and no ".pkl" gives a motion named `stem`. */
  lemma MotionNameOfFile(dir: string, stem: string)
    requires '/' !in stem && !Strings.IsInfix(PKL, stem)
    ensures MotionName(dir + "/" + stem + PKL) == stem
  {
    assert dir + "/" + stem + PKL == dir + "/" + (stem + PKL);
    Strings.BasenameAfterSlash(dir, stem + PKL);
    StripStem(stem);
  }

  /** No ".pkl" starts among the first three characters of "a.p.pklkl". */
  lemma NoPklBeforeThree()
    ensures Strings.NoneBefore(PKL, "a.p.pklkl", 3)
  {
    var s := "a.p.pklkl";
    forall i | 0 <= i < 3 ensures !Strings.OccursAt(PKL, s, i) {
      assert s[i..i + |PKL|][0] == s[i];
      if i == 1 {
        assert s[i..i + |PKL|][2] == s[3];
      }
    }
  }

  /** The name of "a.p.pklkl" is "a.pkl": removal is a single pass, so a ".pkl" can remain. */
  lemma SinglePassRemoval()
    ensures MotionName("a.p.pklkl") == "a.pkl"
  {
    var s := "a.p.pklkl";
    assert Strings.Basename(s) == s by {
      assert '/' !in s;
    }
    assert s == "a.p" + PKL + "kl";
    NoPklBeforeThree();
    Strings.RemoveAllLeftmost("a.p", PKL, "kl");
    assert Strings.RemoveAll("kl", PKL) == "kl";
    assert "a.p" + "kl" == "a.pkl";
  }
}

/**
 * The string handling the loader relies on: `os.path.basename` on a POSIX path,
 * `str.replace(pat, '')`, and the ordering `sorted` uses for a list of paths
 * (lexicographic by code point, a proper prefix first).
 */
module Strings {

  /** `pat` occurs in `s` starting at index `i`. */
  predicate OccursAt(pat: string, s: string, i: int) {
    0 <= i <= |s| - |pat| && s[i..i + |pat|] == pat
  }

  /** `pat` occurs in `s` at some position. */
  ghost predicate IsInfix(pat: string, s: string) {
    exists i :: OccursAt(pat, s, i)
  }

  /** `os.path.basename`: the part of `path` after its last '/'. */
  function Basename(path: string): (b: string)
    ensures '/' !in b
    ensures |b| <= |path| && b == path[|path| - |b|..]
    ensures |b| < |path| ==> path[|path| - |b| - 1] == '/'
    ensures '/' !in path ==> b == path
  {
    if path == [] then []
    else if path[|path| - 1] == '/' then []
    else
      var rest := path[..|path| - 1];
      assert path == rest + [path[|path| - 1]];
      Basename(rest) + [path[|path| - 1]]
  }

  /** The base name of `dir/name` is `name` when `name` has no '/'. */
  lemma {:induction false} BasenameAfterSlash(dir: string, name: string)
    requires '/' !in name
    ensures Basename(dir + "/" + name) == name
  {
    var path := dir + "/" + name;
    if name == [] {
      assert path[|path| - 1] == '/';
    } else {
      var init := name[..|name| - 1];
      assert path[..|path| - 1] == dir + "/" + init;
      assert path[|path| - 1] == name[|name| - 1];
      BasenameAfterSlash(dir, init);
      assert name == init + [name[|name| - 1]];
    }
  }

  /**
   * The scan of `s.replace(pat, '')` from index `i`: where `pat` starts it is
   * dropped and the scan resumes after it, elsewhere one character is kept.
   * The scan does not look again at what the deletions bring together.
   */
  function RemoveFrom(s: string, pat: string, i: nat): (r: string)
    requires |pat| > 0 && i <= |s|
    ensures |r| <= |s| - i
    decreases |s| - i
  {
    if |s| - i < |pat| then s[i..]
    else if OccursAt(pat, s, i) then RemoveFrom(s, pat, i + |pat|)
    else [s[i]] + RemoveFrom(s, pat, i + 1)
  }

  /** `s.replace(pat, '')`: the scan from the start. */
  function RemoveAll(s: string, pat: string): (r: string)
    requires |pat| > 0
    ensures |r| <= |s|
    ensures forall c :: c in r ==> c in s
    ensures !IsInfix(pat, s) ==> r == s
  {
    RemoveFromChars(s, pat, 0);
    RemoveFromNone(s, pat, 0);
    RemoveFrom(s, pat, 0)
  }

  /** The scan keeps only characters of the scanned part. */
  lemma {:induction false} RemoveFromChars(s: string, pat: string, i: nat)
    requires |pat| > 0 && i <= |s|
    ensures forall c :: c in RemoveFrom(s, pat, i) ==> c in s[i..]
    decreases |s| - i
  {
    if |s| - i < |pat| {
    } else if OccursAt(pat, s, i) {
      RemoveFromChars(s, pat, i + |pat|);
      assert forall c :: c in s[i + |pat|..] ==> c in s[i..];
    } else {
      RemoveFromChars(s, pat, i + 1);
      assert s[i..] == [s[i]] + s[i + 1..];
    }
  }

  /** Where no occurrence starts from `i` on, the scan keeps everything. */
  lemma {:induction false} RemoveFromNone(s: string, pat: string, i: nat)
    requires |pat| > 0 && i <= |s|
    ensures (forall j :: i <= j ==> !OccursAt(pat, s, j)) ==> RemoveFrom(s, pat, i) == s[i..]
    decreases |s| - i
  {
    if (forall j :: i <= j ==> !OccursAt(pat, s, j)) && |s| - i >= |pat| {
      RemoveFromNone(s, pat, i + 1);
      assert s[i..] == [s[i]] + s[i + 1..];
    }
  }

  /** No occurrence of `pat` in `s` starts before index `k`. */
  predicate NoneBefore(pat: string, s: string, k: int) {
    forall i :: 0 <= i < k ==> !OccursAt(pat, s, i)
  }

  /** Where `pat` does not start, the scan keeps one character and moves on. */
  lemma RemoveFromKeep(s: string, pat: string, i: nat, next: nat)
    requires |pat| > 0 && i + |pat| <= |s| && !OccursAt(pat, s, i) && next == i + 1
    ensures RemoveFrom(s, pat, i) == [s[i]] + RemoveFrom(s, pat, next)
  {
  }

  /** Where `pat` starts, the scan drops it and resumes after it. */
  lemma RemoveFromDrop(s: string, pat: string, i: nat, next: nat)
    requires |pat| > 0 && OccursAt(pat, s, i) && next == i + |pat|
    ensures RemoveFrom(s, pat, i) == RemoveFrom(s, pat, next)
  {
  }

  /** A kept character in front of a kept stretch is the longer kept stretch. */
  lemma KeptStretch(s: string, i: nat, k: nat, whole: string, tail: string, rest: string)
    requires i < k <= |s|
    requires whole == [s[i]] + tail && tail == s[i + 1..k] + rest
    ensures whole == s[i..k] + rest
  {
    assert s[i..k] == [s[i]] + s[i + 1..k];
  }

  /**
   * The scan from `i` reaches the first occurrence at or after `i`, at `k`,
   * keeping everything before it, drops it and resumes after it.
   */
  lemma {:induction false} RemoveFromAt(s: string, pat: string, i: nat, k: nat)
    requires |pat| > 0 && i <= k && OccursAt(pat, s, k)
    requires forall j :: i <= j < k ==> !OccursAt(pat, s, j)
    ensures RemoveFrom(s, pat, i) == s[i..k] + RemoveFrom(s, pat, k + |pat|)
    decreases k - i
  {
    if i == k {
      RemoveFromDrop(s, pat, i, k + |pat|);
      assert s[i..k] == [];
    } else {
      RemoveFromKeep(s, pat, i, i + 1);
      RemoveFromAt(s, pat, i + 1, k);
      KeptStretch(s, i, k, RemoveFrom(s, pat, i), RemoveFrom(s, pat, i + 1), RemoveFrom(s, pat, k + |pat|));
    }
  }

  /** Near the end, where `pat` no longer fits, the scan keeps the rest. */
  lemma RemoveFromEnd(s: string, pat: string, i: nat)
    requires |pat| > 0 && i <= |s| < i + |pat|
    ensures RemoveFrom(s, pat, i) == s[i..]
  {
  }

  /** An occurrence in `v` is an occurrence in `x + v`, |x| places later. */
  lemma OccursAppended(x: string, v: string, pat: string, j: nat)
    ensures OccursAt(pat, x + v, |x| + j) <==> OccursAt(pat, v, j)
  {
    if j + |pat| <= |v| {
      assert (x + v)[|x| + j..|x| + j + |pat|] == v[j..j + |pat|];
    }
  }

  /** Where `pat` no longer fits, both scans keep the same rest. */
  lemma ShiftEnd(x: string, v: string, pat: string, j: nat)
    requires |pat| > 0 && j <= |v| < j + |pat|
    ensures RemoveFrom(x + v, pat, |x| + j) == RemoveFrom(v, pat, j)
  {
    RemoveFromEnd(x + v, pat, |x| + j);
    RemoveFromEnd(v, pat, j);
    assert (x + v)[|x| + j..] == v[j..];
  }

  /** Where `pat` starts in `v`, both scans drop it and go on alike. */
  lemma ShiftDrop(x: string, v: string, pat: string, j: nat)
    requires |pat| > 0 && OccursAt(pat, v, j)
    requires RemoveFrom(x + v, pat, |x| + (j + |pat|)) == RemoveFrom(v, pat, j + |pat|)
    ensures RemoveFrom(x + v, pat, |x| + j) == RemoveFrom(v, pat, j)
  {
    OccursAppended(x, v, pat, j);
    RemoveFromDrop(x + v, pat, |x| + j, |x| + (j + |pat|));
    RemoveFromDrop(v, pat, j, j + |pat|);
  }

  /** Where `pat` does not start in `v`, both scans keep the same character and go on alike. */
  lemma ShiftKeep(x: string, v: string, pat: string, j: nat)
    requires |pat| > 0 && j + |pat| <= |v| && !OccursAt(pat, v, j)
    requires RemoveFrom(x + v, pat, |x| + (j + 1)) == RemoveFrom(v, pat, j + 1)
    ensures RemoveFrom(x + v, pat, |x| + j) == RemoveFrom(v, pat, j)
  {
    OccursAppended(x, v, pat, j);
    RemoveFromKeep(x + v, pat, |x| + j, |x| + (j + 1));
    RemoveFromKeep(v, pat, j, j + 1);
    assert (x + v)[|x| + j] == v[j];
  }

  /**
   * The scan of `x + v` from inside `v` sees what the scan of `v` alone sees,
   * so it produces the same result.
   */
  lemma {:induction false} RemoveFromShift(x: string, v: string, pat: string, j: nat)
    requires |pat| > 0 && j <= |v|
    ensures RemoveFrom(x + v, pat, |x| + j) == RemoveFrom(v, pat, j)
    decreases |v| - j
  {
    if |v| < j + |pat| {
      ShiftEnd(x, v, pat, j);
    } else if OccursAt(pat, v, j) {
      RemoveFromShift(x, v, pat, j + |pat|);
      ShiftDrop(x, v, pat, j);
    } else {
      RemoveFromShift(x, v, pat, j + 1);
      ShiftKeep(x, v, pat, j);
    }
  }

  /** `RemoveAll` is the scan from index 0. */
  lemma RemoveAllScan(s: string, pat: string)
    requires |pat| > 0
    ensures RemoveAll(s, pat) == RemoveFrom(s, pat, 0)
  {
  }

  /**
   * The scan reaches the leftmost occurrence of `pat` with everything before it
   * kept, drops that occurrence and goes on after it.
   */
  lemma RemoveAllLeftmost(u: string, pat: string, v: string)
    requires |pat| > 0 && NoneBefore(pat, u + pat + v, |u|)
    ensures RemoveAll(u + pat + v, pat) == u + RemoveAll(v, pat)
  {
    var s := u + pat + v;
    assert OccursAt(pat, s, |u|) by {
      assert s[|u|..|u| + |pat|] == pat;
    }
    RemoveFromAt(s, pat, 0, |u|);
    RemoveFromShift(u + pat, v, pat, 0);
    RemoveAllScan(s, pat);
    RemoveAllScan(v, pat);
    assert s[0..|u|] == u;
  }

  /** Python's `a <= b` on strings: code point by code point, a proper prefix first. */
  predicate LessEq(a: string, b: string) {
    a == [] || (b != [] && (a[0] < b[0] || (a[0] == b[0] && LessEq(a[1..], b[1..]))))
  }

  lemma {:induction false} LessEqTotal(a: string, b: string)
    ensures LessEq(a, b) || LessEq(b, a)
  {
    if a != [] && b != [] && a[0] == b[0] {
      LessEqTotal(a[1..], b[1..]);
    }
  }

  lemma {:induction false} LessEqTransitive(a: string, b: string, c: string)
    requires LessEq(a, b) && LessEq(b, c)
    ensures LessEq(a, c)
  {
    if a != [] && b != [] && c != [] && a[0] == b[0] && b[0] == c[0] {
      LessEqTransitive(a[1..], b[1..], c[1..]);
    }
  }

  /** Every earlier element is at most every later one. */
  predicate Sorted(s: seq<string>) {
    forall i, j :: 0 <= i < j < |s| ==> LessEq(s[i], s[j])
  }

  /** Inserts `x` before the first element that is not below it. */
  function Insert(x: string, s: seq<string>): (r: seq<string>)
    requires Sorted(s)
    ensures Sorted(r)
    ensures multiset(r) == multiset(s) + multiset{x}
    ensures |r| == |s| + 1
  {
    if s == [] then [x]
    else if LessEq(x, s[0]) then
      forall j | 0 < j < |s| ensures LessEq(x, s[j]) {
        LessEqTransitive(x, s[0], s[j]);
      }
      [x] + s
    else
      LessEqTotal(x, s[0]);
      var t := Insert(x, s[1..]);
      assert multiset(t) == multiset(s[1..]) + multiset{x};
      assert s == [s[0]] + s[1..];
      var r := [s[0]] + t;
      forall j | 0 < j < |r| ensures LessEq(s[0], r[j]) {
        assert r[j] in multiset(t);
        assert r[j] in multiset(s[1..]) || r[j] == x;
        if r[j] != x {
          var k :| 0 <= k < |s[1..]| && s[1..][k] == r[j];
          assert s[k + 1] == r[j];
        }
      }
      r
  }

  /** `sorted(files)`: a permutation of the input in ascending order. */
  function Sort(s: seq<string>): (r: seq<string>)
    ensures Sorted(r)
    ensures multiset(r) == multiset(s)
    ensures |r| == |s|
  {
    if s == [] then []
    else
      assert s == [s[0]] + s[1..];
      Insert(s[0], Sort(s[1..]))
  }

  /** A prefix of a sorted list is sorted. */
  lemma PrefixSorted(s: seq<string>, n: nat)
    requires Sorted(s) && n <= |s|
    ensures Sorted(s[..n])
  {
  }
}

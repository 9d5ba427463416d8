/** Pathnames as java.io.File treats them: a sequence of name segments.
    `new File(dir, location)` appends the location's segments to the
    directory's; `getParentFile()` drops the last segment. Repeated and
    trailing '/' are collapsed, as java.io.File normalises them; "." and
    ".." are kept as ordinary segments, since java.io.File does not
    resolve them either. */
module FilePaths {

  type Path = seq<string>

  /** The name segments of a pathname string: the pieces between '/'
      characters, empty pieces dropped. */
  function Segments(s: string): (r: Path)
    ensures forall k :: 0 <= k < |r| ==> r[k] != [] && '/' !in r[k]
  {
    SplitFrom(s, [])
  }

  /** Segments of `s`, where `cur` is the part of the current segment
      already read. */
  function SplitFrom(s: string, cur: string): (r: Path)
    requires '/' !in cur
    ensures forall k :: 0 <= k < |r| ==> r[k] != [] && '/' !in r[k]
    decreases |s|
  {
    if s == [] then Piece(cur)
    else if s[0] == '/' then Piece(cur) + SplitFrom(s[1..], [])
    else SplitFrom(s[1..], cur + [s[0]])
  }

  function Piece(cur: string): Path {
    if cur == [] then [] else [cur]
  }

  /** The pathname string of a path, segments separated by '/'. */
  function JoinPath(p: Path): string {
    if p == [] then []
    else if |p| == 1 then p[0]
    else p[0] + "/" + JoinPath(p[1..])
  }

  /** `new File(dir, location)`. */
  function Resolve(dir: Path, location: string): (r: Path)
    ensures dir <= r
  {
    dir + Segments(location)
  }

  /** `getParentFile()`; the parent of a one-segment path is the empty
      (current-directory) path, which is how `new File(null, location)`
      then reads a location. */
  function ParentDir(p: Path): (r: Path)
    ensures p != [] ==> |r| == |p| - 1 && r + [p[|p| - 1]] == p
    ensures p == [] ==> r == []
  {
    if p == [] then [] else p[..|p| - 1]
  }

  ghost predicate WellFormedPath(p: Path) {
    forall k :: 0 <= k < |p| ==> p[k] != [] && '/' !in p[k]
  }

  /** Reading a segment free of '/' just extends the current segment. */
  lemma {:induction false} SplitFromPlain(s: string, rest: string, cur: string)
    requires '/' !in cur && '/' !in s
    ensures SplitFrom(s + rest, cur) == SplitFrom(rest, cur + s)
    decreases |s|
  {
    if s == [] {
      assert s + rest == rest;
      assert cur + s == cur;
    } else {
      assert (s + rest)[0] == s[0];
      assert (s + rest)[1..] == s[1..] + rest;
      SplitFromPlain(s[1..], rest, cur + [s[0]]);
      assert cur + [s[0]] + s[1..] == cur + s;
    }
  }

  /** Segments and JoinPath are inverse on well-formed paths. */
  lemma {:induction false} SegmentsOfJoinPath(p: Path)
    requires WellFormedPath(p)
    ensures Segments(JoinPath(p)) == p
    decreases |p|
  {
    if p == [] {
    } else if |p| == 1 {
      SplitFromPlain(p[0], [], []);
      assert p[0] + [] == p[0];
      assert [] + p[0] == p[0];
    } else {
      var rest := JoinPath(p[1..]);
      assert JoinPath(p) == p[0] + ("/" + rest);
      SplitFromPlain(p[0], "/" + rest, []);
      assert [] + p[0] == p[0];
      assert ("/" + rest)[1..] == rest;
      assert SplitFrom("/" + rest, p[0]) == [p[0]] + SplitFrom(rest, []);
      SegmentsOfJoinPath(p[1..]);
      assert p == [p[0]] + p[1..];
    }
  }

  /** A location written as a segment path lands under the directory of
      the referring file, segment by segment. */
  lemma ResolveJoined(dir: Path, segs: Path)
    requires WellFormedPath(segs)
    ensures Resolve(dir, JoinPath(segs)) == dir + segs
  {
    SegmentsOfJoinPath(segs);
  }

  /** A bare file name is resolved into the referring file's directory
      itself: the resolved file's parent is that directory. */
  lemma ResolveBareName(dir: Path, name: string)
    requires name != [] && '/' !in name
    ensures Resolve(dir, name) == dir + [name]
    ensures ParentDir(Resolve(dir, name)) == dir
  {
    SegmentsOfJoinPath([name]);
    assert dir + [name] != [];
    assert (dir + [name])[..|dir + [name]| - 1] == dir;
  }
}

/** The two POSIX path operations of Node's `path` module that the merge
    controller uses. `path.join` is modelled without its normalisation step:
    the directory is taken to be normalised already and the joined name to be
    an ordinary file name. */
module Paths {

  /** `p` with every trailing `/` removed. */
  function TrimTrailingSlashes(p: string): string
  {
    if |p| > 0 && p[|p| - 1] == '/' then TrimTrailingSlashes(p[..|p| - 1]) else p
  }

  /** The longest suffix of `p` that holds no `/`. */
  function LastSegment(p: string): (r: string)
    ensures '/' !in r
  {
    if |p| == 0 || p[|p| - 1] == '/' then "" else LastSegment(p[..|p| - 1]) + [p[|p| - 1]]
  }

  /** `path.basename(p)`: the last path component, trailing slashes ignored. */
  function Basename(p: string): (r: string)
    ensures '/' !in r
  {
    LastSegment(TrimTrailingSlashes(p))
  }

  /** Trimming removes only slashes, from the end, and all of them. */
  lemma {:induction false} TrimmedIsPrefix(p: string)
    ensures var t := TrimTrailingSlashes(p);
      && |t| <= |p| && t == p[..|t|]
      && (forall i :: |t| <= i < |p| ==> p[i] == '/')
      && (|t| == 0 || t[|t| - 1] != '/')
    decreases |p|
  {
    if |p| > 0 && p[|p| - 1] == '/' {
      var q := p[..|p| - 1];
      TrimmedIsPrefix(q);
      var t := TrimTrailingSlashes(q);
      assert p[..|t|] == q[..|t|];
    }
  }

  /** The last segment is a suffix of `p` that is all of `p` or follows a `/`. */
  lemma {:induction false} LastSegmentIsSuffix(p: string)
    ensures var r := LastSegment(p);
      && |r| <= |p| && r == p[|p| - |r|..]
      && (|r| == |p| || p[|p| - |r| - 1] == '/')
    decreases |p|
  {
    if |p| > 0 && p[|p| - 1] != '/' {
      var q := p[..|p| - 1];
      LastSegmentIsSuffix(q);
      var r := LastSegment(q);
      assert p[|p| - |r| - 1..] == q[|q| - |r|..] + [p[|p| - 1]];
    }
  }

  /** `path.basename(p)` is the last component: with the trailing slashes
      of `p` dropped, it is the slash-free suffix that is either the whole
      remaining text or follows its last `/`. */
  lemma BasenameIsLastComponent(p: string)
    ensures var t, r := TrimTrailingSlashes(p), Basename(p);
      && |t| <= |p| && t == p[..|t|] && (forall i :: |t| <= i < |p| ==> p[i] == '/')
      && (|t| == 0 || t[|t| - 1] != '/')
      && '/' !in r && |r| <= |t| && r == t[|t| - |r|..]
      && (|r| == |t| || t[|t| - |r| - 1] == '/')
  {
    TrimmedIsPrefix(p);
    LastSegmentIsSuffix(TrimTrailingSlashes(p));
  }

  /** `path.join(dir, name)` for a normalised `dir` and a plain file name. */
  function PathJoin(dir: string, name: string): string
  {
    dir + "/" + name
  }

  /** The last segment of `x + "/" + name` is `name` when `name` holds no slash. */
  lemma {:induction false} LastSegmentAfterSlash(x: string, name: string)
    requires '/' !in name
    ensures LastSegment(x + "/" + name) == name
    decreases |name|
  {
    var t := x + "/" + name;
    if |name| > 0 {
      var ni := name[..|name| - 1];
      assert t[..|t| - 1] == x + "/" + ni;
      assert t[|t| - 1] == name[|name| - 1];
      LastSegmentAfterSlash(x, ni);
      assert ni + [name[|name| - 1]] == name;
    }
  }

  /** The staged file keeps the name it is joined under. */
  lemma BasenameOfJoin(dir: string, name: string)
    requires name != [] && '/' !in name
    ensures Basename(PathJoin(dir, name)) == name
  {
    var t := PathJoin(dir, name);
    assert t[|t| - 1] == name[|name| - 1];
    assert name[|name| - 1] in name;
    LastSegmentAfterSlash(dir, name);
  }

  /** A name without any slash is its own basename. */
  lemma {:induction false} BasenameOfPlainName(name: string)
    requires '/' !in name
    ensures Basename(name) == name
    decreases |name|
  {
    if |name| > 0 {
      var ni := name[..|name| - 1];
      assert name[|name| - 1] in name;
      BasenameOfPlainName(ni);
      assert TrimTrailingSlashes(ni) == ni;
      assert ni + [name[|name| - 1]] == name;
    }
  }
}

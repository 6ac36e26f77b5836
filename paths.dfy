/** The two path rules of the plugin: Node's POSIX `path.basename`, which decides
    whether a file is excluded, and the name of the temporary gzip file. */
module Paths {

  /** Drops every trailing '/' of `p`. */
  function StripTrailingSlashes(p: string): (r: string)
    ensures |r| <= |p| && r == p[..|r|]
    ensures r == [] || r[|r| - 1] != '/'
    ensures forall i :: |r| <= i < |p| ==> p[i] == '/'
  {
    if p != [] && p[|p| - 1] == '/' then StripTrailingSlashes(p[..|p| - 1]) else p
  }

  /** The part of `p` after its last '/' (all of `p` when it has none). */
  function LastSegment(p: string): (r: string)
    ensures '/' !in r
    ensures |r| <= |p| && r == p[|p| - |r|..]
    ensures |r| < |p| ==> p[|p| - |r| - 1] == '/'
  {
    if p == [] || p[|p| - 1] == '/' then []
    else LastSegment(p[..|p| - 1]) + [p[|p| - 1]]
  }

  /** `path.basename(p)` on POSIX: the last non-empty segment, ignoring trailing
      separators; "" for "", "/" and "///". */
  function Basename(p: string): (r: string)
    ensures '/' !in r
    ensures r == [] <==> forall i :: 0 <= i < |p| ==> p[i] == '/'
  {
    LastSegment(StripTrailingSlashes(p))
  }

  /** index.js:93: `path.basename(file.path)[0] === '_'`. Indexing an empty
      string gives `undefined`, which is not '_'. */
  predicate Excluded(p: string)
    ensures Excluded(p) ==> '_' in p
    ensures (forall i :: 0 <= i < |p| ==> p[i] == '/') ==> !Excluded(p)
  {
    var b := Basename(p);
    b != [] && b[0] == '_'
  }

  lemma {:induction false} LastSegmentAfterSlash(dir: string, name: string)
    requires '/' !in name
    ensures LastSegment(dir + "/" + name) == name
    decreases |name|
  {
    var p := dir + "/" + name;
    if name == [] {
      assert p[|p| - 1] == '/';
    } else {
      var init := name[..|name| - 1];
      assert p[..|p| - 1] == dir + "/" + init;
      assert p[|p| - 1] == name[|name| - 1];
      LastSegmentAfterSlash(dir, init);
      assert init + [name[|name| - 1]] == name;
    }
  }

  /** The base name of a file inside a directory is the file's own name. */
  lemma {:induction false} BasenameOfChild(dir: string, name: string)
    requires name != [] && '/' !in name
    ensures Basename(dir + "/" + name) == name
  {
    var p := dir + "/" + name;
    assert p[|p| - 1] == name[|name| - 1];
    assert StripTrailingSlashes(p) == p;
    LastSegmentAfterSlash(dir, name);
  }

  /** A file whose own name starts with '_' is excluded wherever it lives. */
  lemma ExcludedChild(dir: string, name: string)
    requires name != [] && '/' !in name
    ensures Excluded(dir + "/" + name) <==> name[0] == '_'
  {
    BasenameOfChild(dir, name);
  }

  /** index.js:197: the gzip output of `source` is written next to it as
      `source + '.zip'`. */
  function TempName(source: string): (r: string)
    ensures |r| == |source| + 4 && r[..|source|] == source && r[|source|..] == ".zip"
  {
    source + ".zip"
  }

  /** Distinct sources never share a temporary file, and a temporary file is
      never its own source, so unlinking it never removes an input file. */
  lemma TempNameInjective(a: string, b: string)
    ensures TempName(a) != a
    ensures TempName(a) == TempName(b) ==> a == b
  {
    if TempName(a) == TempName(b) {
      assert a == TempName(a)[..|a|];
    }
  }
}

/** The file-name arithmetic of os.path.basename and pathlib's name, suffix and stem. */
module Paths {

  /** os.path.basename: everything after the last '/'. */
  function Basename(path: string): (r: string)
    ensures |r| <= |path| && r == path[|path| - |r|..]
    ensures forall i :: 0 <= i < |r| ==> r[i] != '/'
    ensures |r| < |path| ==> path[|path| - |r| - 1] == '/'
  {
    if path == [] || path[|path| - 1] == '/' then []
    else Basename(path[..|path| - 1]) + [path[|path| - 1]]
  }

  /** Position of the last `c` in `s`, or -1. */
  function LastIndexOf(s: string, c: char): (r: int)
    ensures -1 <= r < |s|
    ensures r >= 0 ==> s[r] == c
    ensures forall j :: r < j < |s| ==> s[j] != c
  {
    if s == [] then -1
    else if s[|s| - 1] == c then |s| - 1
    else LastIndexOf(s[..|s| - 1], c)
  }

  /** pathlib's rule: the last dot counts only when it is neither the first nor the last character of the name. */
  predicate HasSuffix(name: string) {
    var i := LastIndexOf(name, '.');
    0 < i < |name| - 1
  }

  /** PurePath.suffix: the file name's extension, dot included, or "". */
  function Suffix(path: string): (r: string)
    ensures r == [] || r[0] == '.'
  {
    var name := Basename(path);
    if HasSuffix(name) then name[LastIndexOf(name, '.')..] else ""
  }

  /** PurePath.stem: the file name without its extension. */
  function Stem(path: string): string {
    var name := Basename(path);
    if HasSuffix(name) then name[..LastIndexOf(name, '.')] else name
  }

  /** Stem and suffix split the file name without losing a character. */
  lemma StemSuffixSplitName(path: string)
    ensures Stem(path) + Suffix(path) == Basename(path)
  {
  }

  predicate Free(s: string, c: char) {
    forall i :: 0 <= i < |s| ==> s[i] != c
  }

  /** The base name of "dir/name" is name, when name has no '/'. */
  lemma {:induction false} BasenameAfterSlash(dir: string, name: string)
    requires Free(name, '/')
    ensures Basename(dir + "/" + name) == name
    decreases |name|
  {
    var p := dir + "/" + name;
    if name == [] {
      assert p[|p| - 1] == '/';
    } else {
      var init := name[..|name| - 1];
      BasenameAfterSlash(dir, init);
      assert p[..|p| - 1] == dir + "/" + init;
    }
  }

  /** The last dot of "stem.ext" is the one after stem, when ext has no dot. */
  lemma {:induction false} LastDot(stem: string, ext: string)
    requires Free(ext, '.')
    ensures LastIndexOf(stem + "." + ext, '.') == |stem|
    decreases |ext|
  {
    var s := stem + "." + ext;
    if ext != [] {
      var init := ext[..|ext| - 1];
      LastDot(stem, init);
      assert s[..|s| - 1] == stem + "." + init;
    }
  }

  /** A base name built from parts free of '/' is free of '/'. */
  lemma DotJoinFree(stem: string, ext: string)
    requires Free(stem, '/') && Free(ext, '/')
    ensures Free(stem + "." + ext, '/')
  {
    var name := stem + "." + ext;
    forall i | 0 <= i < |name| ensures name[i] != '/' {
      if i < |stem| {
        assert name[i] == stem[i];
      } else if i > |stem| {
        assert name[i] == ext[i - |stem| - 1];
      }
    }
  }

  /** For "dir/stem.ext" with a non-empty stem and extension, the suffix is ".ext" and the stem is stem. */
  lemma {:induction false} SuffixOfPath(dir: string, stem: string, ext: string)
    requires stem != "" && ext != ""
    requires Free(stem, '/') && Free(ext, '/') && Free(ext, '.')
    ensures Suffix(dir + "/" + stem + "." + ext) == "." + ext
    ensures Stem(dir + "/" + stem + "." + ext) == stem
  {
    var name := stem + "." + ext;
    var path := dir + "/" + stem + "." + ext;
    DotJoinFree(stem, ext);
    assert path == dir + "/" + name;
    BasenameAfterSlash(dir, name);
    assert Basename(path) == name;
    LastDot(stem, ext);
    assert HasSuffix(name);
    assert name[..|stem|] == stem;
    assert name[|stem|..] == "." + ext;
  }

  /** A name whose only dot is its first character ("dir/.ext") has no suffix. */
  lemma {:induction false} DotFileHasNoSuffix(dir: string, ext: string)
    requires Free(ext, '/') && Free(ext, '.')
    ensures Suffix(dir + "/." + ext) == ""
    ensures Stem(dir + "/." + ext) == "." + ext
  {
    var name := "." + ext;
    DotJoinFree("", ext);
    assert "" + "." + ext == name;
    assert dir + "/." + ext == dir + "/" + name;
    BasenameAfterSlash(dir, name);
    LastDot("", ext);
  }
}

/**
 * The slice of Go's `path/filepath` package that the upload handler uses, with
 * the Unix separator: `Base` picks the last element of the uploaded name, and
 * `Join` of the uploads directory and that element builds the path the file is
 * saved under.
 */
module Paths {

  const Separator: char := '/'

  /** The directory uploads are saved into. */
  const UploadsDir: string := "uploads"

  predicate AllSeparators(s: string) {
    forall i :: 0 <= i < |s| ==> s[i] == Separator
  }

  /** `path` with every trailing separator removed. */
  function StripTrailing(path: string): (r: string)
    ensures |r| <= |path| && path[..|r|] == r
    ensures r == [] || r[|r| - 1] != Separator
    ensures AllSeparators(path[|r|..])
  {
    if path != [] && path[|path| - 1] == Separator then StripTrailing(path[..|path| - 1]) else path
  }

  /** The suffix of `path` after its last separator (all of `path` if it has none). */
  function LastElement(path: string): (r: string)
    ensures Separator !in r
    ensures path != [] && path[|path| - 1] != Separator ==> r != []
  {
    if path == [] || path[|path| - 1] == Separator then []
    else LastElement(path[..|path| - 1]) + [path[|path| - 1]]
  }

  /**
   * `filepath.Base` on Unix: "." for the empty path, "/" for a path made of
   * separators only, otherwise the last element once trailing separators are
   * dropped.
   */
  function Base(path: string): (r: string)
    ensures r != []
    ensures r == [Separator] || Separator !in r
    ensures path == [] ==> r == "."
    ensures r == [Separator] <==> path != [] && AllSeparators(path)
  {
    if path == [] then "."
    else
      var stripped := StripTrailing(path);
      if stripped == [] then [Separator] else LastElement(stripped)
  }

  /**
   * `filepath.Join(UploadsDir, name)` for a `name` that `Base` can return:
   * Join cleans its result, so "." and "/" collapse onto the directory itself
   * and ".." climbs out of it.
   */
  function SavePath(name: string): (r: string)
    requires name == [Separator] || Separator !in name
    ensures name !in {".", "..", [Separator]} ==> r == UploadsDir + [Separator] + name
    ensures name in {".", [Separator]} ==> r == UploadsDir
    ensures name == ".." ==> r == "."
  {
    if name == "." || name == [Separator] then UploadsDir
    else if name == ".." then "."
    else UploadsDir + [Separator] + name
  }

  lemma {:induction false} StripTrailingSeparators(s: string, trailing: string)
    requires s == [] || s[|s| - 1] != Separator
    requires AllSeparators(trailing)
    ensures StripTrailing(s + trailing) == s
    decreases |trailing|
  {
    if trailing == [] {
      assert s + trailing == s;
    } else {
      var shorter := trailing[..|trailing| - 1];
      assert (s + trailing)[..|s + trailing| - 1] == s + shorter;
      StripTrailingSeparators(s, shorter);
    }
  }

  lemma {:induction false} LastElementAfterSeparator(dir: string, name: string)
    requires dir == [] || dir[|dir| - 1] == Separator
    requires Separator !in name
    ensures LastElement(dir + name) == name
    decreases |name|
  {
    if name == [] {
      assert dir + name == dir;
    } else {
      var path := dir + name;
      var init, last := name[..|name| - 1], name[|name| - 1];
      assert path[|path| - 1] == last && last != Separator;
      assert path[..|path| - 1] == dir + init;
      assert LastElement(path) == LastElement(dir + init) + [last];
      assert Separator !in init by {
        assert name == init + [last];
      }
      LastElementAfterSeparator(dir, init);
      assert init + [last] == name;
    }
  }

  /**
   * `Base` inverts the way a path is assembled: a non-empty element without
   * separators, after any directory prefix and before any trailing
   * separators, is exactly what `Base` returns.
   */
  lemma BaseOfPath(dir: string, name: string, trailing: string)
    requires dir == [] || dir[|dir| - 1] == Separator
    requires name != [] && Separator !in name
    requires AllSeparators(trailing)
    ensures Base(dir + name + trailing) == name
  {
    StripTrailingSeparators(dir + name, trailing);
    LastElementAfterSeparator(dir, name);
  }

  /** Taking the base name twice changes nothing. */
  lemma BaseIdempotent(path: string)
    ensures Base(Base(path)) == Base(path)
  {
    var r := Base(path);
    if r != [Separator] {
      BaseOfPath([], r, []);
      assert [] + r + [] == r;
    }
  }

  /** A saved file's base name is the session key it was saved for. */
  lemma BaseOfSavePath(name: string)
    requires name != [] && Separator !in name && name !in {".", ".."}
    ensures Base(SavePath(name)) == name
  {
    BaseOfPath(UploadsDir + [Separator], name, []);
    assert UploadsDir + [Separator] + name + [] == SavePath(name);
  }
}

/** The parts of `std::path::Path` the core uses, on `/`-separated path strings. */
module Paths {
  import opened Wrappers

  /** The index of the last `c` in `s`. */
  function LastIndexOf(s: string, c: char): (r: Option<nat>)
    ensures r.Some? ==> r.value < |s| && s[r.value] == c
    ensures r.Some? ==> forall j :: r.value < j < |s| ==> s[j] != c
    ensures r.None? ==> forall j :: 0 <= j < |s| ==> s[j] != c
  {
    if s == [] then None
    else if s[|s| - 1] == c then Some(|s| - 1)
    else LastIndexOf(s[..|s| - 1], c)
  }

  /** Where the last path segment starts. */
  function FileNameStart(path: string): (k: nat)
    ensures k <= |path|
  {
    match LastIndexOf(path, '/')
    case None => 0
    case Some(i) => i + 1
  }

  /** `path.file_name()`: the last segment, unless it is empty, `.` or `..`. */
  function FileName(path: string): Option<string> {
    var name := path[FileNameStart(path)..];
    if name == "" || name == "." || name == ".." then None else Some(name)
  }

  /** The length of the file stem of a file name: the name up to its last `.`,
      or the whole name when it has no `.` other than a leading one. */
  function StemLength(name: string): (k: nat)
    ensures k <= |name|
  {
    match LastIndexOf(name, '.')
    case None => |name|
    case Some(i) => if i == 0 then |name| else i
  }

  /** `path.extension()`: the text after the last `.` of the file name, if the
      name has a `.` that is not its first character. */
  function Extension(path: string): Option<string> {
    match FileName(path)
    case None => None
    case Some(name) =>
      var k := StemLength(name);
      if k == |name| then None else Some(name[k + 1..])
  }

  /** `path.set_extension(ext)`: replaces the extension of the file name (or adds
      one); an empty `ext` only removes it; a path without a file name is unchanged. */
  function SetExtension(path: string, ext: string): string {
    match FileName(path)
    case None => path
    case Some(name) =>
      var stem := path[..FileNameStart(path) + StemLength(name)];
      if ext == "" then stem else stem + "." + ext
  }

  /** A path whose file name has extension `e` is its stem, a dot and `e`. */
  lemma ExtensionSplit(path: string, e: string)
    requires Extension(path) == Some(e)
    ensures var name := FileName(path).value;
      path == path[..FileNameStart(path) + StemLength(name)] + "." + e
  {
    var name := FileName(path).value;
    var k := StemLength(name);
    var start := FileNameStart(path);
    assert name == path[start..];
    assert name[k] == '.';
    assert path == path[..start + k] + [path[start + k]] + path[start + k + 1..];
  }

  /** Appending text without `c` does not move the last `c`. */
  lemma {:induction false} LastIndexAppend(s: string, t: string, c: char)
    requires c !in t
    ensures LastIndexOf(s + t, c) == LastIndexOf(s, c)
  {
    if t != [] {
      var u := t[..|t| - 1];
      assert (s + t)[..|s + t| - 1] == s + u;
      LastIndexAppend(s, u, c);
    } else {
      assert s + t == s;
    }
  }

  /** The file name of `dir/name`, for a name without `/`, is that name. */
  lemma FileNameOfJoin(dir: string, name: string)
    requires '/' !in name
    ensures FileNameStart(dir + "/" + name) == |dir| + 1
  {
    LastIndexAppend(dir + "/", name, '/');
  }
}

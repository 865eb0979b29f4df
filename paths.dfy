/** The POSIX `os.path` functions the modelled code calls, on `/`-separated strings. */
module Paths {
  import opened Strings
  import opened Wrappers

  /** The position of the last occurrence of `c` in `s`. */
  function LastIndexOf(s: string, c: char): (r: Option<nat>)
    ensures r.Some? ==> r.value < |s| && s[r.value] == c && forall j :: r.value < j < |s| ==> s[j] != c
    ensures r.None? ==> c !in s
  {
    if s == [] then None
    else if s[|s| - 1] == c then Some(|s| - 1)
    else LastIndexOf(s[..|s| - 1], c)
  }

  /** `os.path.basename(p)`: everything after the last '/'. */
  function BaseName(p: string): (r: string)
    ensures '/' !in r
    ensures |r| <= |p| && r == p[|p| - |r|..]
    ensures |r| < |p| ==> p[|p| - |r| - 1] == '/'
  {
    match LastIndexOf(p, '/')
    case Some(i) => p[i + 1..]
    case None => p
  }

  /** `os.path.join(a, b)` for two components. */
  function Join(a: string, b: string): (r: string)
    ensures StartsWith(b, "/") ==> r == b
    ensures !StartsWith(b, "/") && a != [] && a[|a| - 1] != '/' ==> r == a + "/" + b
    ensures !StartsWith(b, "/") ==> EndsWith(r, b) && StartsWith(r, a)
  {
    if StartsWith(b, "/") then b
    else if a == [] || a[|a| - 1] == '/' then a + b
    else a + "/" + b
  }

  /** The components of a relative path joined by '/' (`os.path.join(*parts)` for plain names). */
  function JoinAll(parts: seq<string>): string {
    if parts == [] then ""
    else if |parts| == 1 then parts[0]
    else parts[0] + "/" + JoinAll(parts[1..])
  }

  /**
   * The extension `os.path.splitext(name)[1]` of a file name without '/': the text from the last
   * '.', provided some character before that dot is not a '.'; otherwise empty (so ".bashrc" has none).
   */
  function SplitExt(name: string): (ext: string)
    ensures ext == [] || (ext[0] == '.' && '.' !in ext[1..] && EndsWith(name, ext) && |ext| < |name|)
  {
    match LastIndexOf(name, '.')
    case None => ""
    case Some(i) =>
      if exists k :: 0 <= k < i && name[k] != '.' then
        assert forall j :: i + 1 <= j < |name| ==> name[j] != '.';
        assert name[i..][1..] == name[i + 1..];
        name[i..]
      else ""
  }
}

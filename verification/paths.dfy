/** The POSIX path operations of Python's `os.path` that the pipeline uses
    to name its directories and files. */
module Paths {
  import opened Common
  import opened Text

  /** The index of the last `c` among the first `n` characters of `s`. */
  function LastIndexBefore(s: string, c: char, n: nat): (r: Option<nat>)
    requires n <= |s|
    ensures r.Some? ==> r.value < n && s[r.value] == c
    ensures forall k :: (if r.Some? then r.value + 1 else 0) <= k < n ==> s[k] != c
    decreases n
  {
    if n == 0 then None
    else if s[n - 1] == c then Some(n - 1)
    else LastIndexBefore(s, c, n - 1)
  }

  /** The index of the last `c` in `s`, if any (`s.rfind(c)`). */
  function LastIndexOf(s: string, c: char): (r: Option<nat>)
    ensures r.Some? ==> r.value < |s| && s[r.value] == c
    ensures forall k :: (if r.Some? then r.value + 1 else 0) <= k < |s| ==> s[k] != c
  {
    LastIndexBefore(s, c, |s|)
  }

  /** Where the last path component starts (`p.rfind('/') + 1`). */
  function TailStart(p: string): (i: nat)
    ensures i <= |p|
  {
    match LastIndexOf(p, '/')
    case None => 0
    case Some(k) => k + 1
  }

  /** `os.path.basename(p)`: the text after the last '/'. */
  function BaseName(p: string): (b: string)
    ensures '/' !in b
    ensures |b| <= |p| && p[|p| - |b|..] == b
  {
    p[TailStart(p)..]
  }

  /** `os.path.dirname(p)`: the text before the last '/', with trailing
      slashes removed unless it consists of slashes only. */
  function DirName(p: string): (d: string)
    ensures |d| <= |p| && d == p[..|d|]
  {
    var head := p[..TailStart(p)];
    if head != [] && (exists k :: 0 <= k < |head| && head[k] != '/') then
      TrimEndDrops(head, {'/'});
      TrimEnd(head, {'/'})
    else
      head
  }

  /** `os.path.join(a, b)` for two components. */
  function PathJoin(a: string, b: string): string
  {
    if StartsWith(b, "/") then b
    else if a == [] || EndsWith(a, "/") then a + b
    else a + "/" + b
  }

  /** Joining a plain file name onto a directory gives a path whose last
      component is that name. */
  lemma JoinBaseName(a: string, b: string)
    requires b != [] && '/' !in b
    ensures BaseName(PathJoin(a, b)) == b
  {
    var p := PathJoin(a, b);
    assert !StartsWith(b, "/") by {
      assert b[0] != '/';
    }
    assert p[|p| - |b|..] == b;
    var r := LastIndexOf(p, '/');
    if a == [] {
      assert p == b;
      assert r.None?;
    } else {
      var j := |p| - |b| - 1;
      assert p[j] == '/';
      assert r.Some? && r.value >= j;
      assert r.value == j;
    }
  }

  /** `os.path.splitext(name)[0]` for a name without '/': the text before
      the last '.', unless every character before that dot is a dot too. */
  function StemOf(name: string): (stem: string)
    ensures |stem| <= |name| && stem == name[..|stem|]
  {
    match LastIndexOf(name, '.')
    case None => name
    case Some(k) =>
      if exists i :: 0 <= i < k && name[i] != '.' then name[..k] else name
  }

  lemma StemExamples()
    ensures StemOf("movie.mp4") == "movie"
    ensures StemOf("my.movie.mkv") == "my.movie"
    ensures StemOf(".hidden") == ".hidden"
    ensures StemOf("noext") == "noext"
  {
    assert LastIndexBefore("movie.mp4", '.', 9) == Some(5);
    assert "movie.mp4"[0] != '.';
    assert LastIndexBefore("my.movie.mkv", '.', 12) == Some(8);
    assert "my.movie.mkv"[0] != '.';
    assert LastIndexBefore(".hidden", '.', 7) == Some(0);
  }
}

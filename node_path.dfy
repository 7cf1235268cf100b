/** The part of Node's POSIX `path` module the servers use: `extname`. */
module NodePath {
  import opened Text

  /** Index of the last `c` in `s`, or -1. */
  function LastIndex(s: string, c: char): (r: int)
    ensures -1 <= r < |s|
    ensures r >= 0 ==> s[r] == c
    ensures forall j | r < j < |s| :: s[j] != c
  {
    if |s| == 0 then -1
    else if s[|s| - 1] == c then |s| - 1
    else LastIndex(s[..|s| - 1], c)
  }

  /** The last occurrence is pinned by its position and the absence of later ones. */
  lemma LastIndexAt(s: string, c: char, k: int)
    requires -1 <= k < |s| && (k >= 0 ==> s[k] == c)
    requires forall j | k < j < |s| :: s[j] != c
    ensures LastIndex(s, c) == k
  {
  }

  /** The path without its trailing separators. */
  function TrimTrailingSlashes(p: string): (r: string)
    ensures |r| <= |p| && r == p[..|r|]
    ensures r == "" || r[|r| - 1] != '/'
    ensures forall j | |r| <= j < |p| :: p[j] == '/'
  {
    if |p| > 0 && p[|p| - 1] == '/' then TrimTrailingSlashes(p[..|p| - 1]) else p
  }

  /** The last path segment, trailing separators ignored. */
  function Basename(p: string): (r: string)
    ensures '/' !in r
  {
    var t := TrimTrailingSlashes(p);
    t[LastIndex(t, '/') + 1..]
  }

  /**
   * `path.extname`: from the last `.` of the last segment to its end; ""
   * when the segment has no `.`, starts with its only leading `.` run
   * (`.bashrc`), or is `..`.
   */
  function Extname(p: string): (r: string)
    ensures r == "" || (r[0] == '.' && '/' !in r && '.' !in r[1..])
    ensures r != "" ==> EndsWith(Basename(p), r) && |r| < |Basename(p)|
  {
    var b := Basename(p);
    var d := LastIndex(b, '.');
    if d <= 0 || b == ".." then "" else
      assert b[d..][0] == '.';
      assert b[d..][1..] == b[d + 1..];
      b[d..]
  }

  /** A one-character path never has an extension. */
  lemma ExtnameOfOneCharacter(c: char)
    ensures Extname([c]) == ""
  {
    if c != '/' {
      assert TrimTrailingSlashes([c]) == [c];
      LastIndexAt([c], '/', -1);
      assert Basename([c]) == [c];
      LastIndexAt([c], '.', if c == '.' then 0 else -1);
    } else {
      assert TrimTrailingSlashes([c]) == [];
    }
  }

  lemma ExtnameOfFile()
    ensures Extname("a/b.txt") == ".txt"
  {
    assert TrimTrailingSlashes("a/b.txt") == "a/b.txt";
    LastIndexAt("a/b.txt", '/', 1);
    assert Basename("a/b.txt") == "b.txt";
    LastIndexAt("b.txt", '.', 1);
  }

  /** A leading dot marks a hidden file, not an extension. */
  lemma ExtnameOfHiddenFile()
    ensures Extname(".bashrc") == ""
  {
    assert TrimTrailingSlashes(".bashrc") == ".bashrc";
    LastIndexAt(".bashrc", '/', -1);
    assert Basename(".bashrc") == ".bashrc";
    LastIndexAt(".bashrc", '.', 0);
  }

  /** Only the last dot counts, and trailing separators are ignored. */
  lemma ExtnameOfDirectoryPath()
    ensures Extname("x.tar.gz/") == ".gz"
  {
    assert "x.tar.gz/"[..8] == "x.tar.gz";
    assert TrimTrailingSlashes("x.tar.gz") == "x.tar.gz";
    assert TrimTrailingSlashes("x.tar.gz/") == "x.tar.gz";
    LastIndexAt("x.tar.gz", '/', -1);
    assert Basename("x.tar.gz/") == "x.tar.gz";
    LastIndexAt("x.tar.gz", '.', 5);
  }
}

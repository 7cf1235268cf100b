/** Naming and path pattern of the route that serves a disk's files. */
module Routes {
  import opened Text

  /** `drive.<disk>.serve` */
  function RouteName(disk: string): (r: string)
    ensures StartsWith(r, "drive.") && EndsWith(r, ".serve")
    ensures |r| == |disk| + 12 && r[6..|r| - 6] == disk
  {
    var r := "drive." + disk + ".serve";
    assert r[6..|r| - 6] == disk;
    r
  }

  /** `s.replace(/\/$/, '')`: drop one trailing separator, if there is one. */
  function DropOneTrailingSlash(s: string): (r: string)
    ensures EndsWith(s, "/") ==> r + "/" == s
    ensures !EndsWith(s, "/") ==> r == s
  {
    if |s| > 0 && s[|s| - 1] == '/' then s[..|s| - 1] else s
  }

  /** The wildcard pattern registered under `basePath`. */
  function RoutePattern(basePath: string): (r: string)
    ensures EndsWith(r, "/*")
    ensures r[..|r| - 2] == DropOneTrailingSlash(basePath)
  {
    var r := DropOneTrailingSlash(basePath) + "/*";
    assert r[..|r| - 2] == DropOneTrailingSlash(basePath);
    r
  }

  /** With or without its trailing separator, a base path gives the same pattern; only one is dropped. */
  lemma RoutePatternExamples()
    ensures RoutePattern("uploads") == "uploads/*"
    ensures RoutePattern("uploads/") == "uploads/*"
    ensures RoutePattern("/uploads//") == "/uploads//*"
  {
    assert "uploads/"[..7] == "uploads";
    assert "/uploads//"[..9] == "/uploads/";
  }

  /** Distinct disks get distinct route names. */
  lemma RouteNameInjective(a: string, b: string)
    requires RouteName(a) == RouteName(b)
    ensures a == b
  {
  }
}

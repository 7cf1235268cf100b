/**
 * Path prefixing and traversal protection for disk drivers.
 *
 * Every local-driver operation turns a caller-supplied location into a
 * backend path through `PathPrefixer.PrefixPath`, so `Normalize` is the
 * security boundary: a location may never climb above the prefix.
 *
 * Windows separators are converted first, as `slash` does for an ASCII
 * path: `..\x` climbs just like `../x`.
 */
module PathPrefix {
  import opened Wrappers
  import opened Text

  datatype PathError = PathTraversalDetected(path: string)

  /** `slash(s)` on an ASCII path: every `\` becomes `/`. */
  function Slash(s: string): (r: string)
    ensures |r| == |s|
    ensures forall i :: 0 <= i < |s| ==> r[i] == (if s[i] == '\\' then '/' else s[i])
    ensures '\\' !in r
    ensures '\\' !in s ==> r == s
  {
    if s == [] then [] else [if s[0] == '\\' then '/' else s[0]] + Slash(s[1..])
  }

  /** `s.split('/')`: always one more piece than there are separators. */
  function Split(s: string): (r: seq<string>)
    ensures |r| >= 1
    ensures forall i :: 0 <= i < |r| ==> '/' !in r[i]
    ensures '\\' !in s ==> forall i :: 0 <= i < |r| ==> '\\' !in r[i]
  {
    if |s| == 0 then [""]
    else
      var rest := Split(s[1..]);
      if s[0] == '/' then [""] + rest
      else [[s[0]] + rest[0]] + rest[1..]
  }

  /** `parts.join('/')` */
  function Join(parts: seq<string>): string {
    if |parts| == 0 then ""
    else if |parts| == 1 then parts[0]
    else parts[0] + "/" + Join(parts[1..])
  }

  /** A segment that is kept by normalisation: not empty, not `.` and not `..`. */
  predicate Named(part: string) {
    part != "" && part != "." && part != ".."
  }

  /** Segments of a canonical path: each named and free of both separators. */
  predicate Clean(parts: seq<string>) {
    forall i :: 0 <= i < |parts| ==> Named(parts[i]) && '/' !in parts[i] && '\\' !in parts[i]
  }

  /** The segments `normalizePath` walks through. */
  function Segments(path: string): (r: seq<string>)
    ensures |r| >= 1
    ensures forall i :: 0 <= i < |r| ==> '/' !in r[i] && '\\' !in r[i]
  {
    Split(Slash(path))
  }

  /**
   * One iteration of the normalisation loop: skip empty and `.` segments,
   * pop on `..` (failing when nothing is left to pop), push anything else.
   */
  function Step(stack: seq<string>, part: string): Option<seq<string>> {
    if part == "" || part == "." then Some(stack)
    else if part == ".." then (if |stack| == 0 then None else Some(stack[..|stack| - 1]))
    else Some(stack + [part])
  }

  /** The segment stack after processing `parts` in order, or `None` on underflow. */
  function Resolve(stack: seq<string>, parts: seq<string>): Option<seq<string>>
    decreases |parts|
  {
    if |parts| == 0 then Some(stack)
    else match Step(stack, parts[0])
      case None => None
      case Some(next) => Resolve(next, parts[1..])
  }

  /** `normalizePath`: the canonical form of `path`, or a traversal error naming `path` as given. */
  function Normalize(path: string): Result<string, PathError> {
    match Resolve([], Segments(path))
    case None => Err(PathTraversalDetected(path))
    case Some(parts) => Ok(Join(parts))
  }

  // ---------------------------------------------------------------------
  // An independent description of when normalisation fails: count the
  // segments like parentheses, named ones opening and `..` closing.
  // ---------------------------------------------------------------------

  function Weight(part: string): int {
    if part == "" || part == "." then 0 else if part == ".." then -1 else 1
  }

  /** Named segments minus `..` segments. */
  function Balance(parts: seq<string>): int {
    if |parts| == 0 then 0 else Balance(parts[..|parts| - 1]) + Weight(parts[|parts| - 1])
  }

  /** Some prefix of `parts` closes more than `depth` plus what it opened. */
  predicate Underflows(depth: int, parts: seq<string>) {
    exists k | 0 <= k <= |parts| :: depth + Balance(parts[..k]) < 0
  }

  lemma {:induction false} BalanceCons(x: string, s: seq<string>)
    ensures Balance([x] + s) == Weight(x) + Balance(s)
    decreases |s|
  {
    if |s| > 0 {
      var t := [x] + s;
      assert t[..|t| - 1] == [x] + s[..|s| - 1];
      BalanceCons(x, s[..|s| - 1]);
    } else {
      assert [x] + s == [x];
      assert ([x] + s)[..0] == [];
    }
  }

  /**
   * `Resolve` fails exactly when some prefix of the segments pops more
   * than the stack plus that prefix pushed; on success the stack ends at
   * the balance.
   */
  lemma {:induction false} ResolveFailsIffUnderflow(stack: seq<string>, parts: seq<string>)
    ensures Resolve(stack, parts).None? <==> Underflows(|stack|, parts)
    ensures Resolve(stack, parts).Some? ==> |Resolve(stack, parts).value| == |stack| + Balance(parts)
    decreases |parts|
  {
    if |parts| == 0 {
      assert parts[..0] == [];
      assert !Underflows(|stack|, parts);
    } else {
      var x, rest := parts[0], parts[1..];
      assert parts == [x] + rest;
      assert parts[..0] == [];
      forall k | 0 <= k <= |rest|
        ensures Balance(parts[..k + 1]) == Weight(x) + Balance(rest[..k])
      {
        assert parts[..k + 1] == [x] + rest[..k];
        BalanceCons(x, rest[..k]);
      }
      BalanceCons(x, rest);
      assert rest[..|rest|] == rest;
      assert parts[..|parts|] == parts;
      match Step(stack, x)
      case None =>
        assert |stack| + Balance(parts[..1]) < 0;
      case Some(next) =>
        assert |next| == |stack| + Weight(x);
        ResolveFailsIffUnderflow(next, rest);
        if Underflows(|stack|, parts) {
          var k :| 0 <= k <= |parts| && |stack| + Balance(parts[..k]) < 0;
          assert k > 0;
          assert |next| + Balance(rest[..k - 1]) < 0;
        }
        if Underflows(|next|, rest) {
          var k :| 0 <= k <= |rest| && |next| + Balance(rest[..k]) < 0;
          assert |stack| + Balance(parts[..k + 1]) < 0;
        }
    }
  }

  /**
   * `normalizePath` throws exactly when a `..` would climb above the root,
   * counting segments after `\` has been turned into `/`.
   */
  lemma NormalizeFailsIffUnderflow(path: string)
    ensures Normalize(path).Err? <==> Underflows(0, Split(Slash(path)))
    ensures Normalize(path).Err? ==> Normalize(path).error == PathTraversalDetected(path)
  {
    ResolveFailsIffUnderflow([], Segments(path));
  }

  /** A Windows-style traversal is caught like a POSIX one. */
  lemma BackslashTraversalDetected()
    ensures Normalize("..\\x") == Err(PathTraversalDetected("..\\x"))
  {
    var p := "..\\x";
    assert Slash(p) == "../x" by {
      assert Slash(p)[2] == '/';
    }
    assert Split("../x") == ["..", "x"] by {
      assert "../x" == ".." + "/" + "x";
      SplitAfterWord("..", "x");
      SplitNoSeparator("x");
    }
    assert Resolve([], ["..", "x"]) == None;
  }

  /** A `\\` inside a name separates two segments. */
  lemma BackslashSeparates()
    ensures Normalize("a\\b") == Ok("a/b")
  {
    var p := "a\\b";
    assert Slash(p) == "a/b" by {
      assert Slash(p)[1] == '/';
    }
    assert Split("a/b") == ["a", "b"] by {
      assert "a/b" == "a" + "/" + "b";
      SplitAfterWord("a", "b");
      SplitNoSeparator("b");
    }
    assert Resolve([], ["a", "b"]) == Some(["a", "b"]) by {
      assert Clean(["a", "b"]);
      ResolveClean([], ["a", "b"]);
      assert [] + ["a", "b"] == ["a", "b"];
    }
    assert Join(["a", "b"]) == "a/b";
  }

  lemma {:induction false} BalanceNonNegative(parts: seq<string>)
    requires forall i :: 0 <= i < |parts| ==> parts[i] != ".."
    ensures Balance(parts) >= 0
    decreases |parts|
  {
    if |parts| > 0 {
      BalanceNonNegative(parts[..|parts| - 1]);
    }
  }

  /**
   * A `..` that is only part of a longer segment name (`a..b`, `...`)
   * never triggers the traversal guard: without a segment equal to `..`
   * normalisation always succeeds.
   */
  lemma NoParentSegmentNeverFails(path: string)
    requires forall i :: 0 <= i < |Split(Slash(path))| ==> Split(Slash(path))[i] != ".."
    ensures Normalize(path).Ok?
  {
    var parts := Segments(path);
    forall k | 0 <= k <= |parts| ensures Balance(parts[..k]) >= 0 {
      BalanceNonNegative(parts[..k]);
    }
    NormalizeFailsIffUnderflow(path);
  }

  // ---------------------------------------------------------------------
  // Shape of a successful result.
  // ---------------------------------------------------------------------

  lemma {:induction false} ResolveKeepsClean(stack: seq<string>, parts: seq<string>)
    requires Clean(stack)
    requires forall i :: 0 <= i < |parts| ==> '/' !in parts[i] && '\\' !in parts[i]
    requires Resolve(stack, parts).Some?
    ensures Clean(Resolve(stack, parts).value)
    decreases |parts|
  {
    if |parts| > 0 {
      var next := Step(stack, parts[0]).value;
      assert Clean(next);
      ResolveKeepsClean(next, parts[1..]);
    }
  }

  /** Named segments are pushed one by one, so a clean path resolves to itself. */
  lemma {:induction false} ResolveClean(stack: seq<string>, parts: seq<string>)
    requires Clean(parts)
    ensures Resolve(stack, parts) == Some(stack + parts)
    decreases |parts|
  {
    if |parts| > 0 {
      ResolveClean(stack + [parts[0]], parts[1..]);
      assert stack + [parts[0]] + parts[1..] == stack + parts;
    } else {
      assert stack + parts == stack;
    }
  }

  /** Joining clean segments never puts a separator first or last. */
  lemma {:induction false} JoinCleanEnds(parts: seq<string>)
    requires Clean(parts) && |parts| > 0
    ensures |Join(parts)| > 0
    ensures Join(parts)[0] != '/' && Join(parts)[|Join(parts)| - 1] != '/'
    ensures Join(parts)[0] == parts[0][0]
    decreases |parts|
  {
    if |parts| > 1 {
      JoinCleanEnds(parts[1..]);
      assert parts[0][0] in parts[0];
      var last := Join(parts[1..]);
      assert Join(parts)[|Join(parts)| - 1] == last[|last| - 1];
    } else {
      assert parts[0][0] in parts[0];
      assert parts[0][|parts[0]| - 1] in parts[0];
    }
  }

  /** Joining clean segments never produces an empty segment. */
  lemma {:induction false} JoinCleanNoDoubleSlash(parts: seq<string>)
    requires Clean(parts)
    ensures !Contains(Join(parts), "//")
    decreases |parts|
  {
    var j := Join(parts);
    if |parts| > 1 {
      var head, tail := parts[0], Join(parts[1..]);
      JoinCleanNoDoubleSlash(parts[1..]);
      JoinCleanEnds(parts[1..]);
      assert j == head + "/" + tail;
      forall i | 0 <= i <= |j| - 2 ensures !OccursAt(j, "//", i) {
        SeparatorPairAt(j, i);
        if i < |head| {
          assert j[i] == head[i] && head[i] in head;
        } else if i == |head| {
          assert j[i + 1] == tail[0];
        } else {
          var k := i - |head| - 1;
          SeparatorPairAt(tail, k);
          assert !OccursAt(tail, "//", k);
          assert j[i] == tail[k] && j[i + 1] == tail[k + 1];
        }
      }
    } else if |parts| == 1 {
      forall i | 0 <= i <= |j| - 2 ensures !OccursAt(j, "//", i) {
        SeparatorPairAt(j, i);
        assert j[i] in parts[0];
      }
    }
  }

  /** `//` occurs at `i` exactly when the characters at `i` and `i + 1` are separators. */
  lemma SeparatorPairAt(s: string, i: int)
    requires 0 <= i <= |s| - 2
    ensures OccursAt(s, "//", i) <==> s[i] == '/' && s[i + 1] == '/'
  {
    if s[i] == '/' && s[i + 1] == '/' {
      assert s[i..i + 2] == "//";
    }
  }

  /**
   * A successful result has no empty, `.` or `..` segment: it never starts
   * or ends with `/` and never contains `//`.
   */
  lemma NormalizeIsCanonical(path: string)
    requires Normalize(path).Ok?
    ensures var r := Normalize(path).value;
      && (|r| > 0 ==> r[0] != '/' && r[|r| - 1] != '/')
      && !Contains(r, "//")
      && (exists parts :: Clean(parts) && r == Join(parts))
  {
    var parts := Resolve([], Segments(path)).value;
    ResolveKeepsClean([], Segments(path));
    JoinCleanNoDoubleSlash(parts);
    if |parts| > 0 {
      JoinCleanEnds(parts);
    }
  }

  lemma {:induction false} SplitNoSeparator(w: string)
    requires '/' !in w
    ensures Split(w) == [w]
    decreases |w|
  {
    if |w| > 0 {
      SplitNoSeparator(w[1..]);
      assert [w[0]] + w[1..] == w;
    }
  }

  lemma {:induction false} SplitAfterWord(w: string, t: string)
    requires '/' !in w
    ensures Split(w + "/" + t) == [w] + Split(t)
    decreases |w|
  {
    var s := w + "/" + t;
    if |w| == 0 {
      assert s[1..] == t;
    } else {
      assert s[1..] == w[1..] + "/" + t;
      SplitAfterWord(w[1..], t);
      assert [w[0]] + w[1..] == w;
    }
  }

  /** Splitting undoes joining, for segments without separators. */
  lemma {:induction false} SplitJoin(parts: seq<string>)
    requires |parts| > 0
    requires forall i :: 0 <= i < |parts| ==> '/' !in parts[i]
    ensures Split(Join(parts)) == parts
    decreases |parts|
  {
    if |parts| == 1 {
      SplitNoSeparator(parts[0]);
    } else {
      SplitJoin(parts[1..]);
      SplitAfterWord(parts[0], Join(parts[1..]));
      assert [parts[0]] + parts[1..] == parts;
    }
  }

  /** Joining segments without `\\` gives a path without `\\`. */
  lemma {:induction false} JoinNoBackslash(parts: seq<string>)
    requires forall i :: 0 <= i < |parts| ==> '\\' !in parts[i]
    ensures '\\' !in Join(parts)
    decreases |parts|
  {
    if |parts| > 1 {
      JoinNoBackslash(parts[1..]);
    }
  }

  /** A canonical path is its own normal form. */
  lemma CleanJoinIsFixedPoint(parts: seq<string>)
    requires Clean(parts)
    ensures Normalize(Join(parts)) == Ok(Join(parts))
  {
    JoinNoBackslash(parts);
    if |parts| == 0 {
      assert Split("") == [""];
      assert Resolve([], [""]) == Resolve([], []);
    } else {
      SplitJoin(parts);
      ResolveClean([], parts);
      assert [] + parts == parts;
    }
  }

  /** `normalizePath` is idempotent on its successful outputs. */
  lemma NormalizeIdempotent(path: string)
    requires Normalize(path).Ok?
    ensures Normalize(Normalize(path).value) == Normalize(path)
  {
    var parts := Resolve([], Segments(path)).value;
    ResolveKeepsClean([], Segments(path));
    CleanJoinIsFixedPoint(parts);
  }

  // ---------------------------------------------------------------------
  // The prefix kept by a PathPrefixer.
  // ---------------------------------------------------------------------

  /** `prefix.replace(/\/+$/g, '')`: drop every trailing separator. */
  function StripTrailingSlashes(s: string): (r: string)
    ensures |r| <= |s| && s[..|r|] == r
    ensures r == "" || r[|r| - 1] != '/'
    ensures forall i :: |r| <= i < |s| ==> s[i] == '/'
  {
    if |s| > 0 && s[|s| - 1] == '/' then StripTrailingSlashes(s[..|s| - 1]) else s
  }

  /** The prefix the constructor settles on for `p`. */
  function CanonicalPrefix(p: string): string {
    var stripped := StripTrailingSlashes(p);
    if stripped != "" || p == "/" then stripped + "/" else stripped
  }

  /** Empty, or ending in exactly one separator. */
  predicate ValidPrefix(prefix: string) {
    prefix == "" || (prefix[|prefix| - 1] == '/' && (|prefix| == 1 || prefix[|prefix| - 2] != '/'))
  }

  lemma CanonicalPrefixValid(p: string)
    ensures ValidPrefix(CanonicalPrefix(p))
    ensures CanonicalPrefix(p) == "" <==> (p != "/" && forall i :: 0 <= i < |p| ==> p[i] == '/')
    ensures CanonicalPrefix(p) != "" ==> CanonicalPrefix(p) == StripTrailingSlashes(p) + "/"
  {
    var stripped := StripTrailingSlashes(p);
    if stripped != "" {
      KeptCharacterIsNotSeparator(p);
      var r := stripped + "/";
      assert r[|r| - 2] == stripped[|stripped| - 1];
    }
  }

  /** When something is kept, `p` is not made of separators only. */
  lemma KeptCharacterIsNotSeparator(p: string)
    requires StripTrailingSlashes(p) != ""
    ensures p[|StripTrailingSlashes(p)| - 1] != '/'
  {
    var stripped := StripTrailingSlashes(p);
    assert p[..|stripped|][|stripped| - 1] == p[|stripped| - 1];
  }

  /** The constructor adds only `/`, so a prefix built from a path without `\\` has none. */
  lemma CanonicalPrefixHasNoBackslash(p: string)
    requires '\\' !in p
    ensures '\\' !in CanonicalPrefix(p)
  {
    var stripped := StripTrailingSlashes(p);
    assert stripped == p[..|stripped|];
    assert forall c | c in stripped :: c in p;
  }

  /** A Windows-style trailing separator becomes the prefix's one `/`: `fromPath('a\\')` is rooted at `a/`. */
  lemma SlashedPrefixExample()
    ensures CanonicalPrefix(Slash("a\\")) == "a/"
  {
    assert Slash("a\\") == "a/" by {
      assert Slash("a\\")[1] == '/';
    }
    assert StripTrailingSlashes("a/") == StripTrailingSlashes("a");
  }

  /** `''` stays empty and `'/'` stays the root. */
  lemma CanonicalPrefixExamples()
    ensures CanonicalPrefix("") == ""
    ensures CanonicalPrefix("/") == "/"
    ensures CanonicalPrefix("/with/multiple//") == "/with/multiple/"
    ensures CanonicalPrefix("dir") == "dir/"
  {
    var m := "/with/multiple";
    assert (m + "//")[..|m| + 1] == m + "/";
    assert (m + "/")[..|m|] == m;
    assert StripTrailingSlashes(m + "//") == StripTrailingSlashes(m + "/") == StripTrailingSlashes(m);
    assert "/with/multiple//" == m + "//";
  }

  /**
   * The root spelled with two separators is not recognised as the root:
   * it becomes the empty prefix, which scopes nothing.
   */
  lemma DoubleSlashRootBecomesEmpty()
    ensures CanonicalPrefix("//") == ""
  {
    assert StripTrailingSlashes("//") == StripTrailingSlashes("/");
  }

  /** A valid prefix is its own canonical form. */
  lemma CanonicalPrefixIdempotent(prefix: string)
    requires ValidPrefix(prefix)
    ensures CanonicalPrefix(prefix) == prefix
  {
    if prefix != "" && prefix != "/" {
      var body := prefix[..|prefix| - 1];
      assert StripTrailingSlashes(body) == body;
      assert prefix[..|prefix| - 1] == body;
      assert StripTrailingSlashes(prefix) == body;
      assert body + "/" == prefix;
    } else if prefix == "/" {
      assert StripTrailingSlashes("/") == StripTrailingSlashes("");
    }
  }

  /**
   * `PathPrefixer`: a prefix that is empty or ends in one separator, and
   * the translations between caller locations and prefixed paths.
   */
  class PathPrefixer {
    const separator: char := '/'
    var prefix: string

    constructor (p: string)
      ensures prefix == CanonicalPrefix(p)
      ensures ValidPrefix(prefix)
    {
      var stripped := StripTrailingSlashes(p);
      prefix := stripped;
      if stripped != "" || p == "/" {
        prefix := stripped + "/";
      }
      CanonicalPrefixValid(p);
    }

    /** The loop of `normalizePath`, pushing and popping the `parts` stack. */
    method NormalizePath(path: string) returns (r: Result<string, PathError>)
      ensures r == Normalize(path)
      ensures r.Err? <==> Underflows(0, Split(Slash(path)))
    {
      var pieces := Split(Slash(path));
      var parts: seq<string> := [];
      var i := 0;
      while i < |pieces|
        invariant 0 <= i <= |pieces|
        invariant Resolve([], pieces) == Resolve(parts, pieces[i..])
      {
        var part := pieces[i];
        assert pieces[i..][1..] == pieces[i + 1..];
        if part == "" || part == "." {
          i := i + 1;
          continue;
        }
        if part == ".." {
          if |parts| == 0 {
            NormalizeFailsIffUnderflow(path);
            return Err(PathTraversalDetected(path));
          }
          parts := parts[..|parts| - 1];
        } else {
          parts := parts + [part];
        }
        i := i + 1;
      }
      NormalizeFailsIffUnderflow(path);
      r := Ok(Join(parts));
    }

    /** `prefixPath`: the prefix followed by the canonical location. */
    function PrefixPath(location: string): (r: Result<string, PathError>)
      reads this
      ensures r.Err? <==> Normalize(location).Err?
      ensures r.Err? ==> r.error == PathTraversalDetected(location)
      ensures r.Ok? ==> r.value == prefix + Normalize(location).value
      ensures r.Ok? ==> (StartsWith(r.value, prefix)
                         && Normalize(r.value[|prefix|..]) == Ok(r.value[|prefix|..]))
    {
      match Normalize(location)
      case Err(e) => Err(e)
      case Ok(path) =>
        NormalizeIdempotent(location);
        var r := prefix + path;
        assert r[..|prefix|] == prefix && r[|prefix|..] == path;
        Ok(r)
    }

    /** `prefixDirectoryPath`: `prefixPath` with a separator appended, always. */
    function PrefixDirectoryPath(location: string): (r: Result<string, PathError>)
      reads this
      ensures r.Err? <==> PrefixPath(location).Err?
      ensures r.Ok? ==> EndsWith(r.value, "/") && r.value[..|r.value| - 1] == PrefixPath(location).value
    {
      match PrefixPath(location)
      case Err(e) => Err(e)
      case Ok(path) =>
        var r := path + [separator];
        assert r[..|r| - 1] == path;
        Ok(r)
    }

    /**
     * `stripPrefix`: normalise what `relative(prefix, slash(location))`
     * returns. Node's `relative` is not part of this model and is passed in.
     */
    function StripPrefix(location: string, relative: (string, string) -> string): (r: Result<string, PathError>)
      reads this
      ensures r == Normalize(relative(prefix, Slash(location)))
      ensures r.Err? <==> Underflows(0, Split(Slash(relative(prefix, Slash(location)))))
      ensures r.Ok? ==> Normalize(r.value) == r
    {
      var rel := relative(prefix, Slash(location));
      NormalizeFailsIffUnderflow(rel);
      var r := Normalize(rel);
      if r.Ok? then NormalizeIdempotent(rel); r else r
    }

    /** `withStrippedPrefix`: a new prefixer; the receiver keeps its prefix. */
    method WithStrippedPrefix(path: string, relative: (string, string) -> string)
      returns (r: Result<PathPrefixer, PathError>)
      ensures r.Err? <==> StripPrefix(path, relative).Err?
      ensures r.Ok? ==> fresh(r.value) && r.value.prefix == CanonicalPrefix(StripPrefix(path, relative).value)
    {
      var stripped := StripPrefix(path, relative);
      if stripped.Err? {
        return Err(stripped.error);
      }
      var p := new PathPrefixer(stripped.value);
      r := Ok(p);
    }

    /** `withPrefix`: a new prefixer rooted at `prefixPath(p)`; the receiver keeps its prefix. */
    method WithPrefix(p: string) returns (r: Result<PathPrefixer, PathError>)
      ensures r.Err? <==> Normalize(p).Err?
      ensures r.Ok? ==> fresh(r.value) && r.value.prefix == CanonicalPrefix(prefix + Normalize(p).value)
    {
      var prefixed := PrefixPath(p);
      if prefixed.Err? {
        return Err(prefixed.error);
      }
      var q := new PathPrefixer(prefixed.value);
      r := Ok(q);
    }

    /** `fromPath`: a prefixer rooted at the platform-normalised path; `normalize` is Node's. */
    static method FromPath(path: string, normalize: string -> string) returns (r: PathPrefixer)
      ensures fresh(r) && r.prefix == CanonicalPrefix(Slash(normalize(path)))
      ensures ValidPrefix(r.prefix) && '\\' !in r.prefix
    {
      r := new PathPrefixer(Slash(normalize(path)));
      CanonicalPrefixHasNoBackslash(Slash(normalize(path)));
    }
  }

  // ---------------------------------------------------------------------
  // Laws relating the operations.
  // ---------------------------------------------------------------------

  /** `prefixPath` never lets a location escape the prefix. */
  lemma PrefixPathStaysInside(prefix: string, location: string, p: PathPrefixer)
    requires p.prefix == prefix
    requires p.PrefixPath(location).Ok?
    ensures StartsWith(p.PrefixPath(location).value, prefix)
    ensures var rest := p.PrefixPath(location).value[|prefix|..];
      && (|rest| > 0 ==> rest[0] != '/')
      && !Contains(rest, "//")
      && (exists parts :: Clean(parts) && Join(parts) == rest)
  {
    NormalizeIsCanonical(location);
    assert p.PrefixPath(location).value[|prefix|..] == Normalize(location).value;
  }

  /** `prefixDirectoryPath('.')` under the empty prefix is `'/'`, not the empty root. */
  lemma DirectoryOfRootUnderEmptyPrefix(p: PathPrefixer)
    requires p.prefix == ""
    ensures p.PrefixDirectoryPath(".") == Ok("/")
  {
    assert Split(".") == ["."] by { SplitNoSeparator("."); }
    assert Resolve([], ["."]) == Some([]);
  }

  /**
   * With `relative` behaving as prefix removal, stripping the prefix from
   * a prefixed location gives the location's canonical form.
   */
  lemma StripAfterPrefix(p: PathPrefixer, location: string, relative: (string, string) -> string)
    requires Normalize(location).Ok?
    requires relative(p.prefix, Slash(p.prefix + Normalize(location).value)) == Normalize(location).value
    ensures p.PrefixPath(location).Ok?
    ensures p.StripPrefix(p.PrefixPath(location).value, relative) == Normalize(location)
  {
    NormalizeIdempotent(location);
  }

  /**
   * With `relative` behaving as prefix removal, prefixing what was
   * stripped from `prefix + q` gives `prefix` followed by the canonical `q`.
   */
  lemma PrefixAfterStrip(p: PathPrefixer, q: string, relative: (string, string) -> string)
    requires relative(p.prefix, Slash(p.prefix + q)) == q
    requires Normalize(q).Ok?
    ensures p.StripPrefix(p.prefix + q, relative).Ok?
    ensures p.PrefixPath(p.StripPrefix(p.prefix + q, relative).value) == Ok(p.prefix + Normalize(q).value)
  {
    NormalizeIdempotent(q);
  }
}

/**
 * `StorageController.download`: serve a file of a disk with the
 * validators, conditional responses and single byte ranges of RFC 7233.
 * Numbers follow JavaScript: `parseInt` may yield `NaN`, arithmetic on
 * `NaN` yields `NaN`, and every comparison with `NaN` is false.
 */
module StorageController {
  import opened Wrappers
  import opened Text
  import opened Errors
  import opened Http
  import opened NodePath

  // ---------------------------------------------------------------------
  // JavaScript numbers, as far as the range arithmetic needs them.
  // ---------------------------------------------------------------------

  datatype JsNum = Num(n: int) | NaN

  function Sub(a: JsNum, b: JsNum): JsNum {
    if a.Num? && b.Num? then Num(a.n - b.n) else NaN
  }

  function AddOne(a: JsNum): JsNum {
    if a.Num? then Num(a.n + 1) else NaN
  }

  /** `a >= b`, false whenever `a` is `NaN`. */
  predicate AtLeast(a: JsNum, b: int) {
    a.Num? && a.n >= b
  }

  /** `String(a)` */
  function NumText(a: JsNum): string {
    if a.Num? then Decimal(a.n) else "NaN"
  }

  // ---------------------------------------------------------------------
  // `parseInt(s, 10)`
  // ---------------------------------------------------------------------

  /** The blanks `parseInt` skips (the ASCII ones, no-break space and the byte-order mark). */
  predicate IsSpace(c: char) {
    c == ' ' || c == '\t' || c == '\n' || c == '\r' || c == '\U{000B}' || c == '\U{000C}'
    || c == '\U{00A0}' || c == '\U{FEFF}'
  }

  predicate IsDigit(c: char) {
    '0' <= c <= '9'
  }

  function TrimStart(s: string): (r: string)
    ensures |r| <= |s| && r == s[|s| - |r|..]
    ensures r == "" || !IsSpace(r[0])
    decreases |s|
  {
    if |s| > 0 && IsSpace(s[0]) then TrimStart(s[1..]) else s
  }

  /** The longest prefix of decimal digits. */
  function LeadingDigits(s: string): (r: string)
    ensures |r| <= |s| && r == s[..|r|]
    ensures forall i | 0 <= i < |r| :: IsDigit(r[i])
    ensures |r| < |s| ==> !IsDigit(s[|r|])
  {
    if |s| > 0 && IsDigit(s[0]) then [s[0]] + LeadingDigits(s[1..]) else ""
  }

  function DigitValue(c: char): nat
    requires IsDigit(c)
  {
    c as int - '0' as int
  }

  /** The value of a digit string, most significant digit first. */
  function DigitsValue(ds: string): nat
    requires forall i | 0 <= i < |ds| :: IsDigit(ds[i])
  {
    if ds == "" then 0 else DigitsValue(ds[..|ds| - 1]) * 10 + DigitValue(ds[|ds| - 1])
  }

  /** `parseInt(s, 10)`: optional leading blanks and sign, then as many digits as there are; `NaN` without any. */
  function ParseInt(s: string): (r: JsNum)
    ensures '-' !in s ==> r.NaN? || r.n >= 0
  {
    var t := TrimStart(s);
    var negative := |t| > 0 && t[0] == '-';
    var u := if |t| > 0 && (t[0] == '-' || t[0] == '+') then t[1..] else t;
    var ds := LeadingDigits(u);
    if ds == "" then NaN
    else
      assert negative ==> '-' in s by {
        if negative { assert s[|s| - |t|] == '-'; }
      }
      var v: int := DigitsValue(ds);
      Num(if negative then -v else v)
  }

  lemma {:induction false} DigitsValueOfNatDigits(n: nat)
    ensures forall i | 0 <= i < |NatDigits(n, 10)| :: IsDigit(NatDigits(n, 10)[i])
    ensures DigitsValue(NatDigits(n, 10)) == n
    decreases n
  {
    var ds := NatDigits(n, 10);
    if n < 10 {
      assert ds[..0] == "";
    } else {
      NatDigitsSplit(n, 10);
      QuotientSmaller(n, 10);
      DigitsValueOfNatDigits(n / 10);
      assert ds == NatDigits(n / 10, 10) + [DigitChar(n % 10)];
    }
  }

  /** `parseInt` reads back every integer that `String` writes. */
  lemma ParseIntOfDecimal(n: int)
    ensures ParseInt(Decimal(n)) == Num(n)
  {
    var m := if n < 0 then -n else n;
    var ds := NatDigits(m, 10);
    DigitsValueOfNatDigits(m);
    LeadingDigitsOfDigits(ds);
    var t := Decimal(n);
    assert !IsSpace(t[0]);
    assert TrimStart(t) == t;
    if n < 0 {
      assert t[0] == '-' && t[1..] == ds;
    } else {
      assert t == ds && IsDigit(t[0]);
    }
  }

  lemma {:induction false} LeadingDigitsOfDigits(ds: string)
    requires forall i | 0 <= i < |ds| :: IsDigit(ds[i])
    ensures LeadingDigits(ds) == ds
    decreases |ds|
  {
    if |ds| > 0 {
      LeadingDigitsOfDigits(ds[1..]);
      assert ds == [ds[0]] + ds[1..];
    }
  }

  // ---------------------------------------------------------------------
  // The `Range` header
  // ---------------------------------------------------------------------

  /** `s.replace(/bytes=/, '')`: the first `bytes=`, wherever it is, removed. */
  function DropUnit(s: string): (r: string)
    ensures !Contains(s, "bytes=") ==> r == s
    ensures StartsWith(s, "bytes=") ==> r == s[6..]
    decreases |s|
  {
    if |s| < 6 then s
    else if s[..6] == "bytes=" then
      assert OccursAt(s, "bytes=", 0);
      s[6..]
    else
      var r := [s[0]] + DropUnit(s[1..]);
      OccursAtShift(s, "bytes=");
      assert !Contains(s, "bytes=") ==> s == [s[0]] + s[1..];
      r
  }

  /**
   * Wherever the first `bytes=` sits (at index `i`), `DropUnit` cuts out
   * exactly that occurrence.
   */
  lemma {:induction false} DropUnitRemovesFirst(s: string) returns (i: nat)
    requires Contains(s, "bytes=")
    ensures OccursAt(s, "bytes=", i) && forall j | 0 <= j < i :: !OccursAt(s, "bytes=", j)
    ensures DropUnit(s) == s[..i] + s[i + 6..]
    decreases |s|
  {
    if OccursAt(s, "bytes=", 0) {
      i := 0;
      assert s[..0] + s[6..] == s[6..];
    } else {
      var t := s[1..];
      OccursAtShift(s, "bytes=");
      var k :| 0 <= k <= |s| - 6 && OccursAt(s, "bytes=", k);
      assert OccursAt(t, "bytes=", k - 1);
      var i' := DropUnitRemovesFirst(t);
      i := i' + 1;
      forall j | 0 <= j < i ensures !OccursAt(s, "bytes=", j) {
        if j > 0 {
          assert !OccursAt(t, "bytes=", j - 1);
        }
      }
      DropUnitStep(s);
      CutAfterHead(s, i');
    }
  }

  /** Without `bytes=` at the front, the first character is kept and the rest is searched. */
  lemma DropUnitStep(s: string)
    requires |s| >= 6 && !OccursAt(s, "bytes=", 0)
    ensures DropUnit(s) == [s[0]] + DropUnit(s[1..])
  {
    assert s[..6] == s[0..6];
  }

  /** Cutting six characters at `i + 1` out of `s` keeps the head and cuts them at `i` out of the tail. */
  lemma CutAfterHead(s: string, i: nat)
    requires i + 7 <= |s|
    ensures s[..i + 1] + s[i + 7..] == [s[0]] + (s[1..][..i] + s[1..][i + 6..])
  {
    assert s[..i + 1] == [s[0]] + s[1..][..i];
    assert s[i + 7..] == s[1..][i + 6..];
  }

  /** Occurrences in `s[1..]` are the occurrences in `s` shifted by one. */
  lemma OccursAtShift(s: string, t: string)
    requires |s| >= 1
    ensures forall i | 0 <= i :: OccursAt(s[1..], t, i) <==> OccursAt(s, t, i + 1)
  {
    forall i | 0 <= i
      ensures OccursAt(s[1..], t, i) <==> OccursAt(s, t, i + 1)
    {
      if 0 <= i <= |s[1..]| - |t| {
        assert s[1..][i..i + |t|] == s[i + 1..i + 1 + |t|];
      }
    }
  }

  /** `s.split('-')[0]`: everything before the first `-`. */
  function FirstPart(s: string): (r: string)
    ensures '-' !in r
    ensures |r| <= |s| && r == s[..|r|] && (|r| < |s| ==> s[|r|] == '-')
  {
    var k := FirstIndex(s, '-');
    assert forall j | 0 <= j < k :: s[..k][j] != '-';
    s[..k]
  }

  /**
   * `s.split('-')[1]`: the text between the first `-` and the next one (or
   * the end); `None` (undefined) when `s` has no `-`.
   */
  function SecondPart(s: string): (r: Option<string>)
    ensures r.None? <==> '-' !in s
    ensures r.Some? ==> '-' !in r.value
    ensures r.Some? ==> var k := |FirstPart(s)| + 1;
      && k + |r.value| <= |s| && s[k..k + |r.value|] == r.value
      && (k + |r.value| < |s| ==> s[k + |r.value|] == '-')
  {
    var k := FirstIndex(s, '-');
    if k == |s| then None else Some(FirstPart(s[k + 1..]))
  }

  /** Splitting `a-b…` on `-` gives back `a` and `b` when neither holds a `-`. */
  lemma SplitParts(a: string, b: string, rest: string)
    requires '-' !in a && '-' !in b
    requires rest == "" || rest[0] == '-'
    ensures FirstPart(a + "-" + b + rest) == a
    ensures SecondPart(a + "-" + b + rest) == Some(b)
  {
    var s := a + "-" + b + rest;
    assert s[|a|] == '-' && forall j | 0 <= j < |a| :: s[j] != '-' by {
      forall j | 0 <= j < |a| ensures s[j] != '-' { assert s[j] == a[j]; }
    }
    FirstIndexAt(s, '-', |a|);
    assert s[..|a|] == a;
    var t := s[|a| + 1..];
    assert t == b + rest;
    assert |b| <= |t| && (|b| < |t| ==> t[|b|] == '-') && forall j | 0 <= j < |b| :: t[j] != '-' by {
      forall j | 0 <= j < |b| ensures t[j] != '-' { assert t[j] == b[j]; }
    }
    FirstIndexAt(t, '-', |b|);
    assert t[..|b|] == b;
  }

  /** The parsed `start` and `end` before any adjustment (`parseInt(undefined)` is `NaN`). */
  function Bounds(range: string): (JsNum, JsNum) {
    var v := DropUnit(range);
    (ParseInt(FirstPart(v)), match SecondPart(v) { case None => NaN case Some(p) => ParseInt(p) })
  }

  /** Neither bound can be negative as parsed: `-` only separates them. */
  lemma BoundsNotNegative(range: string)
    ensures Bounds(range).0.NaN? || Bounds(range).0.n >= 0
    ensures Bounds(range).1.NaN? || Bounds(range).1.n >= 0
  {
  }

  datatype RangeDecision = Unsatisfiable | Partial(start: JsNum, end: JsNum)

  /**
   * The controller's decision from the parsed bounds: a missing start takes
   * the suffix form, a missing end runs to the last byte, and a bound at
   * or past the size is refused.
   */
  function Decide(start: JsNum, end: JsNum, size: nat): (d: RangeDecision)
    ensures d.Partial? ==> !AtLeast(d.start, size) && !AtLeast(d.end, size)
    ensures start.Num? && end.Num? ==> (d.Unsatisfiable? <==> start.n >= size || end.n >= size)
    ensures start.Num? && end.NaN? ==> (d.Unsatisfiable? <==> start.n >= size)
    ensures start.NaN? && end.Num? ==> (d.Unsatisfiable? <==> end.n <= 0)
    ensures start.NaN? && end.NaN? ==> d == Partial(NaN, Num(size - 1))
  {
    var (start', end') :=
      if start.NaN? then (Sub(Num(size), end), Num(size - 1))
      else if end.NaN? then (start, Num(size - 1))
      else (start, end);
    if AtLeast(start', size) || AtLeast(end', size) then Unsatisfiable else Partial(start', end')
  }

  /** The range the controller serves for a non-empty `Range` header on a file of `size` bytes. */
  function RangeAsWritten(range: string, size: nat): (d: RangeDecision)
    ensures d.Partial? ==> !AtLeast(d.start, size) && !AtLeast(d.end, size)
  {
    Decide(Bounds(range).0, Bounds(range).1, size)
  }

  /** The reassignments of `start` and `end`, step by step. */
  method ResolveRange(range: string, size: nat) returns (d: RangeDecision)
    ensures d == RangeAsWritten(range, size)
  {
    var parts := DropUnit(range);
    var start := ParseInt(FirstPart(parts));
    var end := match SecondPart(parts) { case None => NaN case Some(p) => ParseInt(p) };
    if start.NaN? {
      start := Sub(Num(size), end);
      end := Num(size - 1);
    } else if end.NaN? {
      end := Num(size - 1);
    }
    if AtLeast(start, size) || AtLeast(end, size) {
      return Unsatisfiable;
    }
    return Partial(start, end);
  }

  /** `Content-Length` of a partial response: `(end - start) + 1`. */
  function PartLength(d: RangeDecision): JsNum
    requires d.Partial?
  {
    AddOne(Sub(d.end, d.start))
  }

  /** A well-formed range inside the file is served as asked, with a length between 1 and the size. */
  lemma WellFormedRangeIsServed(start: nat, end: nat, size: nat)
    requires start <= end < size
    ensures Decide(Num(start), Num(end), size) == Partial(Num(start), Num(end))
    ensures PartLength(Decide(Num(start), Num(end), size)).Num?
    ensures 1 <= PartLength(Decide(Num(start), Num(end), size)).n <= size
  {
  }

  /** A suffix range within the size serves the last bytes of the file. */
  lemma SuffixRangeIsServed(suffix: nat, size: nat)
    requires 0 < suffix <= size
    ensures Decide(NaN, Num(suffix), size) == Partial(Num(size - suffix), Num(size - 1))
    ensures PartLength(Decide(NaN, Num(suffix), size)) == Num(suffix)
  {
  }

  lemma BoundsOfReversed()
    ensures Bounds("bytes=5-2") == (Num(5), Num(2))
  {
    assert DropUnit("bytes=5-2") == "5-2";
    assert FirstIndex("5-2", '-') == 1;
    assert FirstPart("5-2") == "5";
    assert "5-2"[2..] == "2";
    assert FirstIndex("2", '-') == 1;
    assert FirstPart("2") == "2";
    assert SecondPart("5-2") == Some("2");
    ParseIntOfDecimal(5);
    ParseIntOfDecimal(2);
  }

  lemma BoundsOfLongSuffix()
    ensures Bounds("bytes=-20") == (NaN, Num(20))
  {
    assert DropUnit("bytes=-20") == "-20";
    assert FirstIndex("-20", '-') == 0;
    assert FirstPart("-20") == "";
    assert "-20"[1..] == "20";
    assert FirstIndex("20", '-') == 2;
    assert FirstPart("20") == "20";
    assert SecondPart("-20") == Some("20");
    assert Decimal(20) == "20" by {
      assert NatDigits(20, 10) == NatDigits(2, 10) + [DigitChar(0)];
    }
    ParseIntOfDecimal(20);
  }

  lemma BoundsOfEmptySuffix()
    ensures Bounds("bytes=-") == (NaN, NaN)
  {
    assert DropUnit("bytes=-") == "-";
    assert FirstIndex("-", '-') == 0;
    assert FirstPart("-") == "";
    assert "-"[1..] == "";
    assert SecondPart("-") == Some("");
  }

  /** A reversed range such as `bytes=5-2` (`BoundsOfReversed`) passes the guard on a 10-byte file: a 206 with `Content-Length` -2. */
  lemma ReversedRangePasses(range: string)
    requires Bounds(range) == (Num(5), Num(2))
    ensures RangeAsWritten(range, 10) == Partial(Num(5), Num(2))
    ensures PartLength(RangeAsWritten(range, 10)) == Num(-2)
  {
  }

  /** A suffix longer than the file, such as `bytes=-20` (`BoundsOfLongSuffix`) on 10 bytes, passes with start -10 and length 20. */
  lemma LongSuffixPasses(range: string)
    requires Bounds(range) == (NaN, Num(20))
    ensures RangeAsWritten(range, 10) == Partial(Num(-10), Num(9))
    ensures PartLength(RangeAsWritten(range, 10)) == Num(20)
  {
  }

  /** A last position past the file, such as `bytes=5-100` on 10 bytes, is refused outright with a 416. */
  lemma LongEndRefused(range: string)
    requires Bounds(range) == (Num(5), Num(100))
    ensures RangeAsWritten(range, 10) == Unsatisfiable
  {
  }

  /** A range with no number at all, such as `bytes=-` (`BoundsOfEmptySuffix`), passes with a `NaN` start and length. */
  lemma EmptySuffixPasses(range: string, size: nat)
    requires Bounds(range) == (NaN, NaN)
    ensures RangeAsWritten(range, size) == Partial(NaN, Num(size - 1))
    ensures PartLength(RangeAsWritten(range, size)) == NaN
  {
  }

  // ---------------------------------------------------------------------
  // The evidently intended range check
  // ---------------------------------------------------------------------

  datatype Window = NoWindow | Window(first: nat, last: nat)

  /**
   * The check section 2.1 of RFC 7233 asks for, from the parsed bounds
   * (never negative): a suffix needs a positive length and is clamped to
   * the file, a last position past the end of the file is clamped to the
   * last byte, a start after the end or past the file is unsatisfiable,
   * and so is a pair with no number.
   */
  function CheckedWindow(start: JsNum, end: JsNum, size: nat): (w: Window)
    requires start.NaN? || start.n >= 0
    requires end.NaN? || end.n >= 0
    ensures w.Window? ==> w.first <= w.last < size
    ensures w.Window? ==> 1 <= w.last - w.first + 1 <= size
    ensures start.Num? && end.Num? ==> (w.Window? <==> start.n <= end.n && start.n < size)
    ensures start.Num? && end.Num? && w.Window? ==>
      w.first == start.n && w.last == if end.n < size then end.n else size - 1
    ensures start.Num? && end.NaN? ==> (w.Window? <==> start.n < size)
    ensures start.Num? && end.NaN? && w.Window? ==> w == Window(start.n, size - 1)
    ensures start.NaN? && end.Num? ==> (w.Window? <==> 0 < end.n && 0 < size)
    ensures start.NaN? && end.Num? && w.Window? ==>
      w.last == size - 1 && w.last - w.first + 1 == if end.n < size then end.n else size
    ensures start.NaN? && end.NaN? ==> w == NoWindow
  {
    if start.NaN? && end.NaN? then NoWindow
    else if start.NaN? then
      if end.n == 0 || size == 0 then NoWindow
      else Window(if end.n >= size then 0 else size - end.n, size - 1)
    else
      var last := if end.NaN? || end.n >= size then size - 1 else end.n;
      if start.n >= size || (end.Num? && start.n > end.n) then NoWindow
      else Window(start.n, last)
  }

  function CheckedRange(range: string, size: nat): (w: Window)
    ensures w.Window? ==> w.first <= w.last < size
    ensures w.Window? ==> 1 <= w.last - w.first + 1 <= size
  {
    BoundsNotNegative(range);
    CheckedWindow(Bounds(range).0, Bounds(range).1, size)
  }

  /** Where the controller's answer is a sound window, the checked version gives the same one. */
  lemma CheckedWindowAgrees(start: JsNum, end: JsNum, size: nat)
    requires start.NaN? || start.n >= 0
    requires end.NaN? || end.n >= 0
    requires Decide(start, end, size).Partial?
    requires var d := Decide(start, end, size); d.start.Num? && d.end.Num? && 0 <= d.start.n <= d.end.n
    ensures CheckedWindow(start, end, size) == Window(Decide(start, end, size).start.n, Decide(start, end, size).end.n)
  {
  }

  /** The checked version refuses a reversed range. */
  lemma CheckedRangeRefusesReversed(range: string)
    requires Bounds(range) == (Num(5), Num(2))
    ensures CheckedRange(range, 10) == NoWindow
  {
  }

  /** The checked version refuses a range without any number. */
  lemma CheckedRangeRefusesEmptySuffix(range: string, size: nat)
    requires Bounds(range) == (NaN, NaN)
    ensures CheckedRange(range, size) == NoWindow
  {
  }

  /** The checked version clamps a last position past the file to the last byte. */
  lemma CheckedRangeClampsLongEnd(range: string)
    requires Bounds(range) == (Num(5), Num(100))
    ensures CheckedRange(range, 10) == Window(5, 9)
  {
  }

  /** The checked version refuses a start past the file. */
  lemma CheckedRangeRefusesStartPastEnd(range: string)
    requires Bounds(range) == (Num(10), Num(12))
    ensures CheckedRange(range, 10) == NoWindow
  {
  }

  /** The checked version clamps a suffix longer than the file to the whole file. */
  lemma CheckedRangeClampsLongSuffix(range: string)
    requires Bounds(range) == (NaN, Num(20))
    ensures CheckedRange(range, 10) == Window(0, 9)
  {
  }

  // ---------------------------------------------------------------------
  // Content-Disposition file name
  // ---------------------------------------------------------------------

  /**
   * The name offered for download: `filename` followed by the extension of
   * `path[path.length - 1]`, the path's last character; `extname` of
   * `undefined` throws for an empty path.
   */
  function DispositionNameAsWritten(filename: string, path: string): (r: Result<string, TypeError>)
    ensures r.Err? <==> path == ""
  {
    if path == "" then Err(TypeError) else Ok(filename + Extname([path[|path| - 1]]))
  }

  /** The extension is never added: a single character has none. */
  lemma DispositionDropsExtension(filename: string, path: string)
    requires path != ""
    ensures DispositionNameAsWritten(filename, path) == Ok(filename)
  {
    ExtnameOfOneCharacter(path[|path| - 1]);
    assert filename + "" == filename;
  }

  /** The evidently intended name: `filename` followed by the extension of the whole path. */
  function DispositionName(filename: string, path: string): (r: string)
    ensures StartsWith(r, filename) && EndsWith(r, Extname(path))
    ensures |r| == |filename| + |Extname(path)|
  {
    var r := filename + Extname(path);
    assert r[..|filename|] == filename;
    r
  }

  /** `filename=invoice` on `a/b.txt`: the download is offered as `invoice`, where `invoice.txt` was meant. */
  lemma DispositionNameKeepsExtension()
    ensures DispositionName("invoice", "a/b.txt") == "invoice.txt"
  {
    ExtnameOfFile();
    assert "invoice" + ".txt" == "invoice.txt";
  }

  // ---------------------------------------------------------------------
  // `download`
  // ---------------------------------------------------------------------

  /** What `$disk.stat` reports. */
  datatype Stat = Stat(modifiedUtc: string, mimetype: string, etag: string, size: nat)

  /** The request: method, `filename` query input ("" when absent), freshness and `Range` header ("" when absent). */
  datatype Request = Request(verb: Method, filename: string, isFresh: bool, range: string)

  datatype StreamOptions = WholeFile | Slice(start: JsNum, end: JsNum)

  datatype Outcome =
    | StatFailed(error: Thrown)
    | Crashed(typeError: TypeError)
    | Sent(response: Response<Body>)
    | Streamed(response: Response<Body>, options: StreamOptions)

  /** The validators and `Accept-Ranges`, set before any decision, and `Content-Disposition` exactly when a value is given. */
  predicate HasBaseHeaders(h: map<Header, string>, st: Stat, disposition: Option<string>) {
    && LastModified in h && h[LastModified] == st.modifiedUtc
    && ContentType in h && h[ContentType] == st.mimetype
    && ETag in h && h[ETag] == st.etag
    && AcceptRanges in h && h[AcceptRanges] == "bytes"
    && (ContentDisposition in h <==> disposition.Some?)
    && (disposition.Some? ==> h[ContentDisposition] == disposition.value)
  }

  /** The body and final status once the pipe reports: 404 for a missing file, 500 for any other failure. */
  function AfterPipe(status: int, pipeError: Option<string>): (r: (int, Body))
    ensures pipeError.None? ==> r == (status, FileStream)
    ensures pipeError == Some("ENOENT") ==> r == (404, Text("File not found"))
    ensures pipeError.Some? && pipeError != Some("ENOENT") ==> r == (500, Text("Cannot process file"))
  {
    match pipeError
    case None => (status, FileStream)
    case Some(code) => if code == "ENOENT" then (404, Text("File not found")) else (500, Text("Cannot process file"))
  }

  function RangeHeader(d: RangeDecision, size: nat): string {
    match d
    case Unsatisfiable => "bytes */" + Decimal(size)
    case Partial(start, end) => "bytes " + NumText(start) + "-" + NumText(end) + "/" + Decimal(size)
  }

  /** The file can be answered: its stat succeeded and the download name could be computed. */
  predicate Answerable(path: string, req: Request, stat: Result<Stat, Thrown>) {
    stat.Ok? && !(req.filename != "" && path == "")
  }

  /**
   * The `Content-Disposition` value, when a download name is asked for and
   * can be computed; as written it always carries the bare `filename`.
   */
  function DispositionHeader(filename: string, path: string, contentDisposition: string -> string): (r: Option<string>)
    ensures r.Some? <==> filename != "" && path != ""
    ensures r.Some? ==> r.value == contentDisposition(filename)
  {
    if filename == "" || path == "" then None
    else
      DispositionDropsExtension(filename, path);
      Some(contentDisposition(DispositionNameAsWritten(filename, path).value))
  }

  /** The headers set before any decision: the validators, `Accept-Ranges`, and the download name if any. */
  function BaseHeaders(st: Stat, disposition: Option<string>): (h: map<Header, string>)
    ensures HasBaseHeaders(h, st, disposition)
    ensures ContentRange !in h && ContentLength !in h
  {
    var h := map[LastModified := st.modifiedUtc, ContentType := st.mimetype, ETag := st.etag, AcceptRanges := "bytes"];
    if disposition.Some? then h[ContentDisposition := disposition.value] else h
  }

  /** A GET that is not fresh and carries a `Range` header. */
  predicate ReachesRange(path: string, req: Request, stat: Result<Stat, Thrown>) {
    Answerable(path, req, stat) && req.verb == Get && !req.isFresh && req.range != ""
  }

  /**
   * `download`: `stat` is the disk's answer, `pipeError` the code of the
   * error the stream pipeline reports (if any), and `contentDisposition`
   * the header formatter. Every response carries the base headers
   * (`BaseHeaders`) plus what its branch adds.
   */
  method Download(path: string, req: Request, stat: Result<Stat, Thrown>, pipeError: Option<string>,
                  contentDisposition: string -> string) returns (out: Outcome)
    ensures stat.Err? <==> out.StatFailed?
    ensures out.StatFailed? ==> out.error == stat.error
    ensures stat.Ok? ==> (out.Crashed? <==> req.filename != "" && path == "")
    // HEAD and fresh requests: an empty body and no range processing
    ensures Answerable(path, req, stat) && req.verb == Head ==>
      var base := BaseHeaders(stat.value, DispositionHeader(req.filename, path, contentDisposition));
      out == Sent(Response(if req.isFresh then 304 else 200, base, Text("")))
    ensures Answerable(path, req, stat) && req.verb == Get && req.isFresh ==>
      var base := BaseHeaders(stat.value, DispositionHeader(req.filename, path, contentDisposition));
      out == Sent(Response(304, base, Text("")))
    // an unsatisfiable range: 416 naming the size, nothing streamed
    ensures ReachesRange(path, req, stat) && RangeAsWritten(req.range, stat.value.size).Unsatisfiable? ==>
      var base := BaseHeaders(stat.value, DispositionHeader(req.filename, path, contentDisposition));
      var d := RangeAsWritten(req.range, stat.value.size);
      out == Sent(Response(416, base[ContentRange := RangeHeader(d, stat.value.size)], Text("")))
    // a satisfiable range: 206 with the part's bounds and length, streaming that slice
    ensures ReachesRange(path, req, stat) && RangeAsWritten(req.range, stat.value.size).Partial? ==>
      var base := BaseHeaders(stat.value, DispositionHeader(req.filename, path, contentDisposition));
      var d := RangeAsWritten(req.range, stat.value.size);
      var (status, body) := AfterPipe(206, pipeError);
      out == Streamed(Response(status, base[ContentRange := RangeHeader(d, stat.value.size)]
                                             [ContentLength := NumText(PartLength(d))], body),
                      Slice(d.start, d.end))
    // no range: 200 with the whole size
    ensures Answerable(path, req, stat) && req.verb == Get && !req.isFresh && req.range == "" ==>
      var base := BaseHeaders(stat.value, DispositionHeader(req.filename, path, contentDisposition));
      var (status, body) := AfterPipe(200, pipeError);
      out == Streamed(Response(status, base[ContentLength := Decimal(stat.value.size)], body), WholeFile)
  {
    if stat.Err? {
      return StatFailed(stat.error);
    }
    var st := stat.value;
    var base := ValidatorHeaders(st, req.filename, path, contentDisposition);
    if base.Err? {
      return Crashed(base.error);
    }
    var headers := base.value;
    if req.verb == Head {
      return Sent(Response(if req.isFresh then 304 else 200, headers, Text("")));
    }
    if req.isFresh {
      return Sent(Response(304, headers, Text("")));
    }
    if req.range != "" {
      out := RangedResponse(headers, req.range, st.size, pipeError);
    } else {
      headers := headers[ContentLength := Decimal(st.size)];
      var (finalStatus, body) := AfterPipe(200, pipeError);
      out := Streamed(Response(finalStatus, headers, body), WholeFile);
    }
  }

  /**
   * The four headers set first, then `Content-Disposition` when a download
   * name is asked for; computing that name fails on an empty path.
   */
  method ValidatorHeaders(st: Stat, filename: string, path: string, contentDisposition: string -> string)
    returns (r: Result<map<Header, string>, TypeError>)
    ensures r.Err? <==> filename != "" && path == ""
    ensures r.Ok? ==> r.value == BaseHeaders(st, DispositionHeader(filename, path, contentDisposition))
  {
    var headers: map<Header, string> := map[];
    headers := headers[LastModified := st.modifiedUtc];
    headers := headers[ContentType := st.mimetype];
    headers := headers[ETag := st.etag];
    headers := headers[AcceptRanges := "bytes"];
    ghost var disposition: Option<string> := None;
    if filename != "" {
      var name := DispositionNameAsWritten(filename, path);
      if name.Err? {
        return Err(name.error);
      }
      headers := headers[ContentDisposition := contentDisposition(name.value)];
      disposition := Some(contentDisposition(name.value));
    }
    assert disposition == DispositionHeader(filename, path, contentDisposition);
    assert headers == BaseHeaders(st, disposition);
    return Ok(headers);
  }

  /** The `Range` branch: 416 with the size, or 206 streaming the part. */
  method RangedResponse(headers: map<Header, string>, range: string, size: nat, pipeError: Option<string>)
    returns (out: Outcome)
    ensures var d := RangeAsWritten(range, size);
      d.Unsatisfiable? ==> out == Sent(Response(416, headers[ContentRange := RangeHeader(d, size)], Text("")))
    ensures var d := RangeAsWritten(range, size);
      d.Partial? ==> out == Streamed(Response(AfterPipe(206, pipeError).0,
        headers[ContentRange := RangeHeader(d, size)][ContentLength := NumText(PartLength(d))],
        AfterPipe(206, pipeError).1), Slice(d.start, d.end))
  {
    var d := ResolveRange(range, size);
    if d.Unsatisfiable? {
      return Sent(Response(416, headers[ContentRange := RangeHeader(d, size)], Text("")));
    }
    var h := headers[ContentRange := RangeHeader(d, size)];
    h := h[ContentLength := NumText(PartLength(d))];
    var (finalStatus, body) := AfterPipe(206, pipeError);
    return Streamed(Response(finalStatus, h, body), Slice(d.start, d.end));
  }
}

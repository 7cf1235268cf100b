/**
 * The `LocalFileSystem` driver of the older storage layer: `stat` with
 * its weak etag and MIME fallback, and the shape of `list`.
 */
module LocalFileSystem {
  import opened Wrappers
  import opened Text
  import opened NodePath

  /** What `fs.stat` reports: the size in bytes and the modification time in milliseconds. */
  datatype FsStat = FsStat(size: nat, mtimeMs: int)

  /** An error from `fs.stat`, with its `code`. */
  datatype FsError = FsError(code: string)

  datatype StatError = FileNotFound(location: string) | Rethrown(error: FsError)

  datatype Stat = Stat(size: nat, modifiedMs: int, mimetype: string, etag: string)

  /** `W/"<size in hex>-<mtime in hex>"`, a weak validator (section 2.3 of RFC 7232). */
  function Etag(size: nat, mtimeMs: int): (r: string)
    ensures StartsWith(r, "W/\"") && EndsWith(r, "\"")
  {
    var r := "W/\"" + Hex(size) + "-" + Hex(mtimeMs) + "\"";
    assert r[..3] == "W/\"";
    r
  }

  /** The etag determines both the size and the modification time. */
  lemma EtagInjective(s1: nat, m1: int, s2: nat, m2: int)
    requires Etag(s1, m1) == Etag(s2, m2)
    ensures s1 == s2 && m1 == m2
  {
    var e1, e2 := Etag(s1, m1), Etag(s2, m2);
    var core1 := Hex(s1) + ['-'] + Hex(m1);
    var core2 := Hex(s2) + ['-'] + Hex(m2);
    assert e1 == "W/\"" + core1 + "\"";
    assert e2 == "W/\"" + core2 + "\"";
    assert core1 == e1[3..|e1| - 1];
    assert core2 == e2[3..|e2| - 1];
    SplitAtFirst(Hex(s1), Hex(m1), Hex(s2), Hex(m2), '-');
    IntToStringInjective(s1, s2, 16);
    IntToStringInjective(m1, m2, 16);
  }

  /** `mime.lookup(extname(location)) || 'application/octet-stream'`; `lookup` yields `None` for `false`. */
  function MimeType(location: string, lookup: string -> Option<string>): (r: string)
    ensures lookup(Extname(location)).Some? && lookup(Extname(location)).value != "" ==> r == lookup(Extname(location)).value
    ensures lookup(Extname(location)).None? || lookup(Extname(location)).value == "" ==> r == "application/octet-stream"
  {
    match lookup(Extname(location))
    case Some(m) => if m != "" then m else "application/octet-stream"
    case None => "application/octet-stream"
  }

  /** `stat`: the file's stats, `FileNotFound` for `ENOENT`, any other error rethrown as it is. */
  function StatOf(location: string, fsStat: Result<FsStat, FsError>, lookup: string -> Option<string>): (r: Result<Stat, StatError>)
    ensures fsStat.Ok? <==> r.Ok?
    ensures r.Ok? ==> r.value.size == fsStat.value.size && r.value.modifiedMs == fsStat.value.mtimeMs
    ensures r.Ok? ==> r.value.etag == Etag(fsStat.value.size, fsStat.value.mtimeMs)
    ensures r.Ok? ==> r.value.mimetype == MimeType(location, lookup)
    ensures fsStat.Err? && fsStat.error.code == "ENOENT" ==> r == Err(FileNotFound(location))
    ensures fsStat.Err? && fsStat.error.code != "ENOENT" ==> r == Err(Rethrown(fsStat.error))
  {
    match fsStat
    case Ok(st) => Ok(Stat(st.size, st.mtimeMs, MimeType(location, lookup), Etag(st.size, st.mtimeMs)))
    case Err(e) => if e.code == "ENOENT" then Err(FileNotFound(location)) else Err(Rethrown(e))
  }

  // ---------------------------------------------------------------------
  // `list`
  // ---------------------------------------------------------------------

  /** A directory entry as `readdir` returns it, with a directory's own contents. */
  datatype Node = File(name: string) | Dir(name: string, children: seq<Node>)

  datatype EntryType = FileEntry | DirEntry

  datatype Item = Item(kind: EntryType, path: string)

  function Child(dir: string, name: string): string {
    dir + "/" + name
  }

  function ItemOf(dir: string, n: Node): Item {
    Item(if n.Dir? then DirEntry else FileEntry, Child(dir, n.name))
  }

  /** The items `list` yields for the entries of `dir`: each entry, then its subtree when recursive. */
  function Listed(dir: string, entries: seq<Node>, recursive: bool): seq<Item>
    decreases entries
  {
    if entries == [] then []
    else
      [ItemOf(dir, entries[0])] + Subtree(dir, entries[0], recursive) + Listed(dir, entries[1..], recursive)
  }

  /** The items below entry `n` of `dir`: none unless listing recursively into a directory. */
  function Subtree(dir: string, n: Node, recursive: bool): seq<Item>
    decreases n
  {
    if recursive && n.Dir? then Listed(Child(dir, n.name), n.children, true) else []
  }

  /** The generator: one item per entry in order, descending into directories when recursive. */
  method List(dir: string, entries: seq<Node>, recursive: bool) returns (out: seq<Item>)
    ensures out == Listed(dir, entries, recursive)
    decreases entries
  {
    out := [];
    var i := 0;
    while i < |entries|
      invariant 0 <= i <= |entries|
      invariant out + Listed(dir, entries[i..], recursive) == Listed(dir, entries, recursive)
    {
      var n := entries[i];
      assert entries[i..][1..] == entries[i + 1..];
      assert Listed(dir, entries[i..], recursive)
          == [ItemOf(dir, n)] + Subtree(dir, n, recursive) + Listed(dir, entries[i + 1..], recursive);
      var sub: seq<Item> := [];
      if recursive && n.Dir? {
        sub := List(Child(dir, n.name), n.children, true);
      }
      assert sub == Subtree(dir, n, recursive);
      out := out + [ItemOf(dir, n)] + sub;
      i := i + 1;
    }
    assert entries[i..] == [];
  }

  /** Without `recursive`, one item per entry in `readdir` order, typed by whether it is a directory. */
  lemma {:induction false} FlatListing(dir: string, entries: seq<Node>)
    ensures |Listed(dir, entries, false)| == |entries|
    ensures forall k | 0 <= k < |entries| :: Listed(dir, entries, false)[k] == ItemOf(dir, entries[k])
    decreases entries
  {
    if entries != [] {
      FlatListing(dir, entries[1..]);
    }
  }

  /** Every listed path lies under the listed directory. */
  lemma {:induction false} ListedUnder(dir: string, entries: seq<Node>, recursive: bool)
    ensures forall it | it in Listed(dir, entries, recursive) :: StartsWith(it.path, dir + "/")
    decreases entries
  {
    if entries != [] {
      var n := entries[0];
      assert Listed(dir, entries, recursive)
          == [ItemOf(dir, n)] + Subtree(dir, n, recursive) + Listed(dir, entries[1..], recursive);
      ListedUnder(dir, entries[1..], recursive);
      assert StartsWith(Child(dir, n.name), dir + "/") by {
        assert Child(dir, n.name)[..|dir + "/"|] == dir + "/";
      }
      if recursive && n.Dir? {
        ListedUnder(Child(dir, n.name), n.children, true);
        forall it | it in Listed(Child(dir, n.name), n.children, true)
          ensures StartsWith(it.path, dir + "/")
        {
          assert it.path[..|dir + "/"|] == Child(dir, n.name)[..|dir + "/"|];
        }
      }
    }
  }

  /** Listing two runs of entries one after the other lists each run in turn. */
  lemma {:induction false} ListedAppend(dir: string, a: seq<Node>, b: seq<Node>, recursive: bool)
    ensures Listed(dir, a + b, recursive) == Listed(dir, a, recursive) + Listed(dir, b, recursive)
    decreases a
  {
    if a != [] {
      assert (a + b)[0] == a[0];
      assert (a + b)[1..] == a[1..] + b;
      ListedAppend(dir, a[1..], b, recursive);
      var head := [ItemOf(dir, a[0])] + Subtree(dir, a[0], recursive);
      calc {
        Listed(dir, a + b, recursive);
        head + Listed(dir, a[1..] + b, recursive);
        head + (Listed(dir, a[1..], recursive) + Listed(dir, b, recursive));
        (head + Listed(dir, a[1..], recursive)) + Listed(dir, b, recursive);
        Listed(dir, a, recursive) + Listed(dir, b, recursive);
      }
    } else {
      assert a + b == b;
    }
  }

  /**
   * Pre-order: wherever a directory stands among the entries, its own item
   * is followed at once by the whole of its subtree, between the items of
   * the entries before it and those of the entries after it.
   */
  lemma DirectoryBeforeSubtree(dir: string, entries: seq<Node>, k: nat)
    requires k < |entries| && entries[k].Dir?
    ensures Listed(dir, entries, true)
         == Listed(dir, entries[..k], true)
          + [Item(DirEntry, Child(dir, entries[k].name))]
          + Listed(Child(dir, entries[k].name), entries[k].children, true)
          + Listed(dir, entries[k + 1..], true)
  {
    assert entries == entries[..k] + entries[k..];
    ListedAppend(dir, entries[..k], entries[k..], true);
    assert entries[k..][0] == entries[k];
    assert entries[k..][1..] == entries[k + 1..];
  }

  /** What the driver reaches when it builds an item: `resolve` is not bound in its module. */
  datatype ReferenceError = ReferenceError(name: string)

  /** `list` as written: it throws as soon as a directory has an entry. */
  function ListAsWritten(entries: seq<Node>): (r: Result<seq<Item>, ReferenceError>)
    ensures r.Ok? <==> entries == []
  {
    if entries == [] then Ok([]) else Err(ReferenceError("resolve"))
  }

  lemma ListAsWrittenFailsOnOneFile(dir: string)
    ensures ListAsWritten([File("a.txt")]) == Err(ReferenceError("resolve"))
    ensures Listed(dir, [File("a.txt")], false) == [Item(FileEntry, dir + "/a.txt")]
  {
    assert [File("a.txt")][1..] == [];
    assert Child(dir, "a.txt") == dir + "/a.txt";
  }
}

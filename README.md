# AdonisJS Drive — a verified model of its core

This project models the parts of AdonisJS Drive that make decisions, and
proves properties of them:

- `PathPrefixer`: path normalisation with its traversal guard, and the disk prefix.
- `DirectoryListing`: the lazy listing with its chain of `filter`/`map`/`pipe` stages.
- The two file-serving handlers, `file_server.ts` and the older `LocalFileServer`.
  Both combine access control, signed-only header overrides and conditional GET/HEAD.
- `CannotServeFileException`: root-cause walk, classification, response and log level.
- The legacy `StorageController.download`: `Range` parsing with 206/416 decisions and pipe-error mapping.
- The fake registries: `DriveManager` fakes and readiness, and `FakeDrive`.
- `defineConfig` and its `services.fs` resolver.
- The legacy `LocalFileSystem` driver: stat with a weak ETag, and the listing shape.

Each source file has its own Dafny module:

| module | file | source |
|---|---|---|
| `PathPrefix` | path_prefixer.dfy | src/PathPrefixer/index.ts |
| `Listing` | directory_listing.dfy | src/DirectoryListing/index.ts |
| `FileServer` | file_server.dfy | src/file_server.ts |
| `LocalFileServer` | local_file_server.dfy | src/LocalFileServer/index.ts |
| `Errors` | errors.dfy | src/errors.ts |
| `StorageController` | storage_controller.dfy | src/Controllers/StorageController.js |
| `Manager` | drive_manager.dfy | src/DriveManager/index.ts |
| `Fake` | fake_drive.dfy | src/Fake/index.ts |
| `Config` | define_config.dfy | src/define_config.ts |
| `LocalFileSystem` | local_file_system.dfy | src/Drivers/LocalFileSystem.js |

Five helper modules are shared between them:

- `Wrappers` holds `Option` and `Result`.
- `Text` holds string search, decimal and hexadecimal formatting, and their injectivity.
- `Http` holds the response record, header names and `decodeLocation`.
- `Routes` holds the route name and route pattern, which `LocalFileServer` and `defineConfig` both derive.
- `NodePath` holds Node's `path.extname` for POSIX paths.

The source's state is kept where the source mutates it:

- `PathPrefixer.prefix`, set in the constructor.
- `DirectoryListing.chain`, which `pipe` pushes onto.
- The `fakes` maps of `FakeDrive` and `DriveManager`, and `DriveManager.isReady`.
- These are class fields, updated by methods with `modifies` clauses.

The handlers and loops are methods proved against specification functions:

- the response of each handler;
- `normalizePath`'s segment stack;
- the `defineConfig` loop;
- the recursive `list`.

The rest is datatypes and functions.

Header names are case-insensitive (section 5.1 of RFC 9110). The header map is keyed by an enumeration, so `etag`/`Etag` and `Content-length`/`Content-Length` are one header each.

## Model

| member | source | states |
|---|---|---|
| PathPrefix.PathPrefixer.constructor | src/PathPrefixer/index.ts:30-38 | the prefix is the input with trailing `/` removed plus one `/`, unless nothing but separators was given; it is always `''` or ends in exactly one `/` |
| PathPrefix.CanonicalPrefixValid | src/PathPrefixer/index.ts:30-38 | the prefix is valid; it is `''` exactly when the input is made of separators only and is not `'/'` itself |
| PathPrefix.CanonicalPrefixExamples | src/PathPrefixer/index.ts:30-38 | `''` stays `''`, `'/'` stays `'/'`, `/with/multiple//` becomes `/with/multiple/`, `dir` becomes `dir/` |
| PathPrefix.DoubleSlashRootBecomesEmpty | src/PathPrefixer/index.ts:32-37 | `'//'` is not recognised as the root and yields the empty prefix |
| PathPrefix.CanonicalPrefixIdempotent | src/PathPrefixer/index.ts:30-38 | a valid prefix is left unchanged by the constructor |
| PathPrefix.Slash | src/PathPrefixer/index.ts:47 | `slash` keeps the length, turns each `\` into `/` and nothing else, and leaves no `\` behind |
| PathPrefix.PathPrefixer.NormalizePath | src/PathPrefixer/index.ts:44-65 | the stack loop over the `/`-segments of `slash(path)` computes `Normalize`, and fails exactly when some `..` arrives while the stack is empty |
| PathPrefix.ResolveFailsIffUnderflow | src/PathPrefixer/index.ts:47-62 | resolving fails iff a `..` underflows the stack; on success the stack depth grows by the segments' balance |
| PathPrefix.NormalizeFailsIffUnderflow | src/PathPrefixer/index.ts:47-56 | `normalizePath` throws `PathTraversalDetected(path)`, naming the path as given, exactly when a `..` among the segments of `slash(path)` underflows |
| PathPrefix.BackslashTraversalDetected | src/PathPrefixer/index.ts:47-56 | `..\x` is refused as a traversal, like `../x` |
| PathPrefix.BackslashSeparates | src/PathPrefixer/index.ts:47-64 | `a\b` normalises to `a/b` |
| PathPrefix.NoParentSegmentNeverFails | src/PathPrefixer/index.ts:52-56 | a path none of whose segments is exactly `..` never fails, whatever `..` its names contain |
| PathPrefix.NormalizeIsCanonical | src/PathPrefixer/index.ts:47-64 | a result never starts or ends with `/`, never contains `//`, and joins segments that are not empty, `.` or `..` |
| PathPrefix.SplitJoin | src/PathPrefixer/index.ts:47-64 | splitting a join of separator-free segments gives those segments back |
| PathPrefix.CleanJoinIsFixedPoint | src/PathPrefixer/index.ts:44-65 | a join of clean segments normalises to itself |
| PathPrefix.NormalizeIdempotent | src/PathPrefixer/index.ts:44-65 | normalising a normalised path gives the same result |
| PathPrefix.PathPrefixer.PrefixPath | src/PathPrefixer/index.ts:70-72 | fails iff `normalizePath` fails, with the same error; otherwise it is the prefix followed by the normalised location |
| PathPrefix.PrefixPathStaysInside | src/PathPrefixer/index.ts:70-72 | a prefixed path starts with the prefix, and what follows does not start with `/`, has no `//`, and is the join of a list of clean segments |
| PathPrefix.PathPrefixer.PrefixDirectoryPath | src/PathPrefixer/index.ts:78-80 | fails iff `prefixPath` fails; otherwise it is `prefixPath` followed by one `/` |
| PathPrefix.DirectoryOfRootUnderEmptyPrefix | src/PathPrefixer/index.ts:78-80 | with prefix `''`, `prefixDirectoryPath('.')` is `'/'` |
| PathPrefix.PathPrefixer.StripPrefix | src/PathPrefixer/index.ts:86-89 | is `normalizePath(relative(prefix, slash(location)))`: fails iff that underflows, and any result is already normal |
| PathPrefix.StripAfterPrefix | src/PathPrefixer/index.ts:70-89 | when `relative` removes the prefix, stripping a prefixed path gives the normalised location |
| PathPrefix.PrefixAfterStrip | src/PathPrefixer/index.ts:70-89 | when `relative` removes the prefix, prefixing a stripped `prefix + q` gives `prefix + normalize(q)` |
| PathPrefix.PathPrefixer.WithStrippedPrefix | src/PathPrefixer/index.ts:94-96 | a new instance whose prefix is built from `stripPrefix(path)`; the receiver is untouched |
| PathPrefix.PathPrefixer.WithPrefix | src/PathPrefixer/index.ts:101-103 | a new instance whose prefix is the constructor applied to `prefixPath(p)`; the receiver is untouched |
| PathPrefix.PathPrefixer.FromPath | src/PathPrefixer/index.ts:108-110 | a new instance whose prefix is the constructor applied to `slash` of the normalised path, so it holds no `\` |
| PathPrefix.SlashedPrefixExample | src/PathPrefixer/index.ts:108-110 | the prefix built from `a\` through `slash` and the constructor is `a/` |
| Listing.RunChainSnoc | src/DirectoryListing/index.ts:70-75 | the chain folds left to right: one more stage applies to the output of the earlier ones |
| Listing.TwoStagesCompose | src/DirectoryListing/index.ts:70-75 | two stages added in turn apply in that order |
| Listing.FilterSnoc | src/DirectoryListing/index.ts:31-41 | one more input item is kept exactly when the predicate holds for it at its input position |
| Listing.FilterMembers | src/DirectoryListing/index.ts:31-41 | an item is in the output iff the predicate holds for it at some input index k |
| Listing.FilterExtremes | src/DirectoryListing/index.ts:31-41 | an always-true predicate keeps everything; an always-false one keeps nothing |
| Listing.MappedAt | src/DirectoryListing/index.ts:46-54 | the output has the input's length, and its k-th item is `mapper(item_k, k)` |
| Listing.FilterItems | src/DirectoryListing/index.ts:32-40 | the index-counting loop produces the filtered sequence |
| Listing.MapItems | src/DirectoryListing/index.ts:47-53 | the index-counting loop produces the mapped sequence |
| Listing.DirectoryListing.constructor | src/DirectoryListing/index.ts:24-26 | the chain starts empty, so the listing is yielded as produced |
| Listing.DirectoryListing.Pipe | src/DirectoryListing/index.ts:62-65 | appends to the receiver's own chain and returns the receiver; the result is the new stage applied to the previous output |
| Listing.DirectoryListing.Filter | src/DirectoryListing/index.ts:31-41 | adds one stage, keeps earlier stages, and filters the previous output |
| Listing.DirectoryListing.Map | src/DirectoryListing/index.ts:46-54 | adds one stage, keeps earlier stages, and maps the previous output |
| Listing.DirectoryListing.ToArray | src/DirectoryListing/index.ts:80-88 | drains exactly the chain's output; with an empty chain, the listing in production order |
| Listing.DirectoryListing.AsyncIterator | src/DirectoryListing/index.ts:93-95 | yields the chain folded over the listing, the same sequence as `toIterable` |
| Http.DecodeLocation | src/file_server.ts:16-22 | the decoded location, or the input unchanged when decoding fails |
| FileServer.Handle | src/file_server.ts:29-160 | a visibility error is rethrown. 401 `Access denied` with no headers iff denied. A metadata or stream error becomes `CannotServeFileException` with that cause. An admitted request whose metadata loaded is never refused and never fails unless it is a non-fresh GET whose stream fails. HEAD always gives 304/200 with no body and no length. A fresh GET always gives 304. Otherwise 200, streaming, with `Content-length` equal to the size. |
| FileServer.CacheHeaders | src/file_server.ts:87-123 | `etag` is the metadata's. Exactly one of `Cache-Control` and `Last-Modified` is set. `Content-Type` comes from the query only when signed, else from the metadata when known, else it is unset. The three signed-only headers are set iff signed and non-empty. No other header is set. |
| FileServer.AccessRule | src/file_server.ts:71-78 | denial holds iff (private and not validly signed) or (signature present and invalid) |
| Routes.RouteName | src/LocalFileServer/index.ts:26-28 | `drive.` + disk + `.serve` |
| Routes.RouteNameInjective | src/LocalFileServer/index.ts:26-28 | distinct disks get distinct route names |
| Routes.RoutePattern | src/LocalFileServer/index.ts:60-62 | the base path with one trailing `/` removed, followed by `/*` |
| Routes.RoutePatternExamples | src/LocalFileServer/index.ts:60-62 | `uploads` and `uploads/` give `uploads/*`; only one of two trailing separators is removed |
| LocalFileServer.RegisterRoute | src/LocalFileServer/index.ts:47-62 | fails with `E_MISSING_LOCAL_DRIVER_BASEPATH` (500) iff `basePath` is missing or empty; otherwise the route pattern and route name |
| LocalFileServer.Caught | src/LocalFileServer/index.ts:185-195 | `ENOENT` on the error or its original gives 404 `File not found`; anything else gives 500 `Cannot process file` plus a fatal log line; headers already set are kept |
| LocalFileServer.FileHeaders | src/LocalFileServer/index.ts:115-151 | exactly one of `Cache-Control`/`Last-Modified`. `Content-Type` comes from the query when signed, else from the location's extension. The signed-only headers are set iff signed and non-empty. `etag` is set iff the stats carry one. |
| LocalFileServer.Handle | src/LocalFileServer/index.ts:66-196 | a visibility error is rethrown. 401 iff denied. A stat error goes through `Caught`. A non-file gives 404 with no headers. HEAD gives 304/200. A fresh GET gives 304. Otherwise `Content-length` equals the size and the file streams; a stream error goes through `Caught` with the headers kept. |
| LocalFileServer.SameAccessRuleAsFileServer | src/LocalFileServer/index.ts:81-93 | when a valid signature implies one is present, both denial rules agree; they differ for a private file with an absent signature reported valid |
| Errors.NewCannotServeFile | src/errors.ts:20-26 | code `E_CANNOT_SERVE_FILE`, status 500, and the original error as its cause |
| Errors.RootCause | src/errors.ts:33-38 | the result has no `cause`; a value without one is its own root |
| Errors.RootCauseEndsChain | src/errors.ts:33-38 | the root is the last link of the cause chain, and every earlier link has a `cause` |
| Errors.ParseError | src/errors.ts:44-53 | fails (reading `message` of a nullish value) iff the root is `null`/`undefined`; otherwise the status is 404 or 500 |
| Errors.ParseErrorClassifies | src/errors.ts:44-53 | the message is the root's when non-empty, else the exception's; the status is 404 iff the code is `ENOENT` or the message mentions a directory, and the stack is the root's |
| Errors.ParseErrorSeesNestedCause | src/errors.ts:33-46 | an error nested one level deeper still supplies the message |
| Errors.ParseErrorPrimitiveCause | src/errors.ts:44-53 | a primitive cause gives the exception's own message and status 500 |
| Errors.Handle | src/errors.ts:58-81 | in production always 404 `File not found`. Otherwise the parsed status, with `message\nStack:stack` for HTML or no preference, a `title`/`meta` body for JSON:API, and `message`/`stack` for JSON. |
| Errors.Report | src/errors.ts:86-97 | logs the parsed message; any status but 401 logs at error level with the parsed stack |
| Errors.ReportNeverWarns | src/errors.ts:90-96 | the level is always `error`, since the parsed status is never 401 |
| StorageController.ParseInt | src/Controllers/StorageController.js:36-37 | `parseInt(s, 10)`: NaN, or a non-negative number when `s` has no `-` |
| StorageController.ParseIntOfDecimal | src/Controllers/StorageController.js:36-37 | parsing the decimal text of any integer gives that integer back |
| StorageController.DropUnit | src/Controllers/StorageController.js:35 | a leading `bytes=` is removed; a value without `bytes=` is unchanged |
| StorageController.DropUnitRemovesFirst | src/Controllers/StorageController.js:35 | when `bytes=` occurs, exactly its first occurrence, wherever it stands, is cut out and the text around it is kept |
| StorageController.FirstPart | src/Controllers/StorageController.js:35-36 | the first part of `split('-')` is the prefix of the value up to the first `-` (or all of it), and contains no `-` |
| StorageController.SecondPart | src/Controllers/StorageController.js:35-37 | the second part is absent iff there is no `-`, and otherwise is the text between the first `-` and the next `-` or the end |
| StorageController.SplitParts | src/Controllers/StorageController.js:35-37 | for `a-b` followed by nothing or by `-...`, with no `-` in `a` or `b`, the two parts are `a` and `b` |
| StorageController.BoundsNotNegative | src/Controllers/StorageController.js:35-37 | both parsed bounds are NaN or non-negative |
| StorageController.Decide | src/Controllers/StorageController.js:39-48 | the suffix and open-ended rewrites, then 416 iff a bound reaches the size. A served part has neither bound at or past the size. With both bounds NaN the request always passes. |
| StorageController.ResolveRange | src/Controllers/StorageController.js:34-48 | the `let start`/`let end` reassignments compute the decision on the parsed bounds |
| StorageController.WellFormedRangeIsServed | src/Controllers/StorageController.js:46-56 | `0 <= start <= end < size` gives 206 for exactly that part, whose length lies in [1, size] |
| StorageController.SuffixRangeIsServed | src/Controllers/StorageController.js:39-41 | a suffix of n bytes, 0 < n <= size, is served as the last n bytes |
| StorageController.BoundsOfReversed | src/Controllers/StorageController.js:35-37 | `bytes=5-2` parses to (5, 2) |
| StorageController.BoundsOfLongSuffix | src/Controllers/StorageController.js:35-37 | `bytes=-20` parses to (NaN, 20) |
| StorageController.BoundsOfEmptySuffix | src/Controllers/StorageController.js:35-37 | `bytes=-` parses to (NaN, NaN) |
| StorageController.ReversedRangePasses | src/Controllers/StorageController.js:46-53 | on a 10-byte file (5, 2) is answered 206 with `Content-Length` -2 |
| StorageController.LongSuffixPasses | src/Controllers/StorageController.js:39-53 | on a 10-byte file (NaN, 20) is answered 206 for bytes -10..9, length 20 |
| StorageController.LongEndRefused | src/Controllers/StorageController.js:46-48 | on a 10-byte file (5, 100) is refused with 416 although bytes 5..9 exist |
| StorageController.EmptySuffixPasses | src/Controllers/StorageController.js:39-53 | (NaN, NaN) is answered 206 with start NaN and length NaN |
| StorageController.CheckedWindow | src/Controllers/StorageController.js:39-56 | the corrected check: any window served lies inside the file and is 1..size long; two numbers are served iff `start <= end` and `start < size`, with the last position clamped to the last byte; a start alone runs to the last byte; a suffix is served iff positive on a non-empty file, and covers the last `min(suffix, size)` bytes; no number is refused |
| StorageController.CheckedRange | src/Controllers/StorageController.js:34-56 | the corrected decision on a `Range` value serves only in-file, non-empty windows |
| StorageController.CheckedWindowAgrees | src/Controllers/StorageController.js:39-56 | wherever the code as written serves a well-ordered, non-negative part, the corrected check serves the same part |
| StorageController.CheckedRangeRefusesReversed | src/Controllers/StorageController.js:46-48 | the corrected check refuses `bytes=5-2` |
| StorageController.CheckedRangeRefusesEmptySuffix | src/Controllers/StorageController.js:39-41 | the corrected check refuses `bytes=-` |
| StorageController.CheckedRangeClampsLongEnd | src/Controllers/StorageController.js:46-48 | the corrected check serves bytes 5..9 of a 10-byte file for `bytes=5-100` |
| StorageController.CheckedRangeRefusesStartPastEnd | src/Controllers/StorageController.js:46-48 | the corrected check refuses `bytes=10-12` on a 10-byte file |
| StorageController.CheckedRangeClampsLongSuffix | src/Controllers/StorageController.js:39-41 | the corrected check serves the whole 10-byte file for `bytes=-20` |
| StorageController.DispositionNameAsWritten | src/Controllers/StorageController.js:18-20 | fails with a `TypeError` iff the joined path is empty (`extname(undefined)`) |
| StorageController.DispositionDropsExtension | src/Controllers/StorageController.js:19 | the extension of the path's last character is always empty, so the name is the bare `filename` |
| StorageController.DispositionName | src/Controllers/StorageController.js:18-20 | the corrected name is `filename` followed by the path's extension |
| StorageController.DispositionNameKeepsExtension | src/Controllers/StorageController.js:18-20 | `invoice` for `a/b.txt` becomes `invoice.txt` |
| StorageController.DispositionHeader | src/Controllers/StorageController.js:18-21 | a `Content-Disposition` value exists iff a name is asked for and the path is non-empty, and it formats the bare `filename` |
| StorageController.BaseHeaders | src/Controllers/StorageController.js:13-21 | `Last-Modified`, `Content-Type`, `Etag` and `Accept-Ranges: bytes` are always present. `Content-Disposition` is present exactly when given. No range or length header is set. |
| StorageController.ValidatorHeaders | src/Controllers/StorageController.js:13-21 | fails iff a name is asked for on an empty path; otherwise it builds the base headers |
| StorageController.AfterPipe | src/Controllers/StorageController.js:68-76 | no pipe error streams with the set status; `ENOENT` gives 404 `File not found`; any other error gives 500 `Cannot process file` |
| StorageController.RangedResponse | src/Controllers/StorageController.js:34-56 | 416 with `bytes */size`, or 206 with `bytes start-end/size`, length `end - start + 1`, and a slice stream |
| StorageController.Download | src/Controllers/StorageController.js:8-80 | a stat failure is rethrown, and a name on an empty path crashes. HEAD gives 304/200 and a fresh GET 304, with no range processing. A `Range` gives 416 or 206 with the slice. Without one, 200 with the whole size. Pipe errors map to 404/500. Every response carries the base headers. |
| Manager.Validate | src/DriveManager/index.ts:78-88 | a config passes iff its default disk is named and configured |
| Manager.Resolve | src/DriveManager/index.ts:161-165 | a registered fake wins; otherwise the base instance |
| Manager.DriveManager.constructor | src/DriveManager/index.ts:66-73 | ready iff a config was given; no fakes; the default fake implementation |
| Manager.DriveManager.Create | src/DriveManager/index.ts:66-88 | construction fails with the validator's error exactly when a given config is invalid |
| Manager.DriveManager.DiskName | src/DriveManager/index.ts:93-95 | a named disk is itself; with no name, the config's default disk, and a `TypeError` when there is no config |
| Manager.DriveManager.MappingConfig | src/DriveManager/index.ts:100-102 | the disk's config entry, absent when not configured, and a `TypeError` without a config |
| Manager.DriveManager.Fake | src/DriveManager/index.ts:122-128 | installs the callback's fake only when none exists for the disk; an existing fake is kept and the other entries are unchanged; the configuration is read, and can throw, only for a disk without a fake |
| Manager.DriveManager.Restore | src/DriveManager/index.ts:133-139 | removes exactly the disk's entry |
| Manager.DriveManager.RestoreAll | src/DriveManager/index.ts:144-146 | leaves the fakes map empty |
| Manager.DriveManager.SetFakeImplementation | src/DriveManager/index.ts:171-173 | replaces the callback and nothing else |
| Manager.DriveManager.Use | src/DriveManager/index.ts:151-166 | `E_MISSING_DRIVE_CONFIG` iff not ready; otherwise the fake for the resolved disk, or its base instance |
| Manager.DriveManager.Forward | src/DriveManager/index.ts:180-273 | each file operation goes, with unchanged arguments, to `use()` of the default disk |
| Manager.OtherDisksUnaffected | src/DriveManager/index.ts:122-165 | faking or restoring one disk leaves `use` of every other disk unchanged |
| Manager.RestoreReturnsBaseInstance | src/DriveManager/index.ts:133-165 | after `restore` the base instance is used again; after a fake, the fake |
| Fake.FakeDrive.constructor | src/Fake/index.ts:19 | no fakes are registered |
| Fake.FakeDrive.Exists | src/Fake/index.ts:25-34 | true iff some registered fake has the path; false with no fakes |
| Fake.FakeDrive.Use | src/Fake/index.ts:39-41 | the entry under the disk, present iff it is faked |
| Fake.FakeDrive.IsFaked | src/Fake/index.ts:46-48 | true iff the disk is a key of the map |
| Fake.FakeDrive.Restore | src/Fake/index.ts:53-55 | removes only the disk; the other answers are unchanged; a no-op when absent |
| Fake.RestoreKeepsOtherAnswers | src/Fake/index.ts:25-55 | restoring a disk that does not hold a path leaves `exists` for that path unchanged |
| Config.FsResolver | src/define_config.ts:130-168 | rejects iff `serveFiles` is set without a `routeBasePath`, with the stated message. Location and visibility pass through. With `serveFiles`, exactly one entry is appended (service, `drive.<name>.serve`, pattern). Without it, nothing is appended and there is no URL builder. |
| Config.StepSpec | src/define_config.ts:74-81 | one loop step fails iff the service is a misconfigured fs provider, and otherwise appends exactly what that service serves |
| Config.ResolveAllFails | src/define_config.ts:74-81 | resolution fails iff some service is misconfigured, with the first such service's message |
| Config.ResolveAllContents | src/define_config.ts:74-81 | the disks map has exactly the service names as keys, and `locallyServed` lists the served services in order |
| Config.FactoryFunctionsPassThrough | src/define_config.ts:76-77 | a factory function comes out unchanged under its name |
| Config.PrefixFailurePersists | src/define_config.ts:74-81 | once a prefix of the services fails, the whole resolution fails with that error |
| Config.FakeUrl | src/define_config.ts:89-91 | `/drive/fakes/` followed by the key |
| Config.FakeSignedUrl | src/define_config.ts:92-94 | `/drive/fakes/signed/` followed by the key |
| Config.FakeUrlsOverlap | src/define_config.ts:89-94 | each URL form determines its key, but the key `signed/k` has the same plain URL as `k`'s signed URL |
| Config.MergeFakes | src/define_config.ts:86-97 | a user-supplied location or URL builder overrides the defaults (`drive-fakes` under tmp, the two fake URLs) |
| Config.DefineConfig | src/define_config.ts:48-102 | the loop's outcome is the resolution of all services: its error, or the disks map and `locallyServed`, with `default` unchanged and the fakes merged |
| LocalFileSystem.Etag | src/Drivers/LocalFileSystem.js:22 | a weak validator: starts `W/"` and ends `"` |
| LocalFileSystem.EtagInjective | src/Drivers/LocalFileSystem.js:22 | the etag determines both the size and the mtime |
| LocalFileSystem.MimeType | src/Drivers/LocalFileSystem.js:21 | the lookup of the location's extension, or `application/octet-stream` when it yields nothing |
| LocalFileSystem.StatOf | src/Drivers/LocalFileSystem.js:14-31 | size, mtime, etag and mimetype on success. `ENOENT` becomes `FileNotFound(location)`; any other error is rethrown unchanged. |
| LocalFileSystem.List | src/Drivers/LocalFileSystem.js:33-49 | the loop with its recursive call yields the pre-order listing |
| LocalFileSystem.FlatListing | src/Drivers/LocalFileSystem.js:37-43 | without recursion, one item per entry in readdir order, typed `dir` or `file` |
| LocalFileSystem.ListedAppend | src/Drivers/LocalFileSystem.js:40-47 | listing two runs of entries in turn lists each run in turn |
| LocalFileSystem.DirectoryBeforeSubtree | src/Drivers/LocalFileSystem.js:43-47 | pre-order: for a directory at any position k, the recursive listing is the items of the entries before k, the directory's own item, its whole subtree, then the items of the entries after k |
| LocalFileSystem.ListedUnder | src/Drivers/LocalFileSystem.js:40-47 | every listed path lies under the listed directory |
| LocalFileSystem.ListAsWritten | src/Drivers/LocalFileSystem.js:40 | as written, the listing throws a `ReferenceError` iff there is at least one entry |
| LocalFileSystem.ListAsWrittenFailsOnOneFile | src/Drivers/LocalFileSystem.js:40 | one file already throws, where the evident intent lists it |
| NodePath.Extname | src/LocalFileServer/index.ts:129 | Node's `extname`: empty, or a `.` followed by no `.` or `/`, ending the base name and shorter than it |
| NodePath.ExtnameOfOneCharacter | src/Controllers/StorageController.js:19 | a single character has no extension |
| NodePath.ExtnameOfFile | src/Drivers/LocalFileSystem.js:21 | `a/b.txt` has extension `.txt` |
| NodePath.ExtnameOfHiddenFile | src/Drivers/LocalFileSystem.js:21 | `.bashrc` has no extension |
| NodePath.ExtnameOfDirectoryPath | src/LocalFileServer/index.ts:129 | trailing separators are ignored: `x.tar.gz/` has extension `.gz` |

## Findings

| source | as written | input that shows it | evidently intended | confidence | as-written member | corrected member |
|---|---|---|---|---|---|---|
| src/Controllers/StorageController.js:39-48 | only `start >= size` or `end >= size` is refused | `bytes=5-2` on 10 bytes gives 206 with length -2. `bytes=-20` on 10 bytes gives start -10. `bytes=-` gives start NaN. `bytes=5-100` on 10 bytes gives 416. | refuse reversed or empty ranges, clamp an over-long suffix and an over-long end to the file (sections 2.1 and 4.4 of RFC 7233) | not executed | StorageController.ReversedRangePasses, StorageController.LongSuffixPasses, StorageController.EmptySuffixPasses, StorageController.LongEndRefused | StorageController.CheckedRange, StorageController.CheckedWindow |
| src/Controllers/StorageController.js:19 | the extension is taken from `path[path.length - 1]`, a single character | a download of `a/b.txt` named `invoice` is offered as `invoice` | the extension of the whole path (`invoice.txt`) | not executed | StorageController.DispositionDropsExtension | StorageController.DispositionName |
| src/Drivers/LocalFileSystem.js:40 | `resolve` is called but only `extname` is imported (line 7) | a directory containing one file throws a `ReferenceError` | the child path joined onto the directory | not executed | LocalFileSystem.ListAsWritten | LocalFileSystem.List |

`Download` keeps the code as written, so its range decision is `RangeAsWritten` and its name is `DispositionNameAsWritten`. The corrected members stand beside it with their own proofs.

## Left out

- I/O and foreign calls are parameters or abstract inputs:
  - freshness (`request.fresh()`), `hasValidSignature` and the visibility lookup;
  - MIME lookup (`response.type`, `mime.lookup`), `contentDisposition` and `decodeURIComponent`;
  - `path.relative` and `path.normalize`;
  - `Date.toUTCString`, which arrives already formatted;
  - the disk's metadata and stat results;
  - the stream and pipeline outcomes, given as an optional error.
- Response streaming itself is not modelled. Loggers appear only as the fatal log line of `LocalFileServer` and the level of `report`. Debug and trace output is not modelled.
- PathPrefix.Slash: `slash` leaves a path unchanged when it holds a character above U+0080 or starts with the extended-length marker `\\?\`. The model converts every `\` in every path.
- PathPrefix.PathPrefixer.StripPrefix: `path.relative` is a parameter. Its laws are proved only where it removes the prefix.
- Node's `path.resolve` in `list` is modelled as `dir + '/' + name`. Its normalisation of `.` and `..` is not modelled.
- LocalFileSystem.List: the base class's `_fullPath`, applied again to the child path in the recursive call, is not part of this model. Neither is readdir's ordering: entries come in the order given.
- Listing.DirectoryListing: stages are total functions, so a `filter` predicate, `map` mapper or `pipe` stage that throws or returns a rejected promise (src/DirectoryListing/index.ts:36, :51) cannot be expressed.
- Listing.DirectoryListing: items have one type, and each stage is a function on finite sequences. The async generator's laziness, the `driver` argument and the `recursive()` method (no source for it) are not modelled.
- Manager.DriveManager.Use: the base manager's errors for a disk that is not configured, and the construction of driver instances, are left out. A disk is named, not built.
- Manager.DriveManager.Fake: the fake callback is called as `fakeCallback(name, mapping)`. The manager itself, which src/DriveManager/index.ts:126 passes as the first argument, is dropped.
- The fake driver's in-memory file system is not modelled. A fake is the set of paths it holds.
- Config.FsResolver: the URL builder that `createURLBuilder` returns is not modelled, only whether one is set. The `s3` and `gcs` resolvers only wrap the user's options and are modelled as factories.
- Config.ServiceEntry: only the `fs`, `s3` and `gcs` providers are known. src/define_config.ts:79 calls `resolver` on any entry that is not a function, including a provider the user wrote, which may throw or push to `locallyServed`.
- Config.MergeFakes: a user field given explicitly as `undefined` counts as absent. The object spread would keep the `undefined`.
- Config.ResolveAllContents: `Object.keys` lists integer-like keys first; the model keeps the order the services are given in.
- StorageController.ParseInt: JavaScript numbers are unbounded integers here. Values of 2^53 and more and exponent notation are not modelled. Whitespace is the ASCII and common Unicode spaces, not every `\s` character.
- LocalFileServer.Caught: a thrown `null` or `undefined`, which would itself throw when its `code` is read, is not modelled. Errors are records with a code.
- Errors.Handle: the JSON and JSON:API bodies are records, not serialised text.
- FileServer.Handle: the signature check's query parsing and the router wiring are not modelled.
- The validators' message texts in `define_config` and the driver constructors in `providers/` are not modelled.

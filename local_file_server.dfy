/**
 * `LocalFileServer`: the route that serves a local disk's files, as the
 * older driver-based code registers it. The driver's answers
 * (visibility, stats, stream) are inputs of the handler.
 */
module LocalFileServer {
  import opened Wrappers
  import opened Text
  import opened Errors
  import opened Http
  import opened Routes
  import opened NodePath
  import FileServer

  /** `Exception(message, status, code)` from the utilities package. */
  datatype Exception = Exception(message: string, status: int, code: string)

  datatype Route = Route(pattern: string, name: string)

  function MissingBasePath(diskName: string): Exception {
    Exception("Missing property \"basePath\" in \"" + diskName + "\" disk config", 500, "E_MISSING_LOCAL_DRIVER_BASEPATH")
  }

  /** `registerRoute`: refuse a missing or empty base path; otherwise the wildcard pattern under it, named after the disk. */
  function RegisterRoute(diskName: string, basePath: Option<string>): (r: Result<Route, Exception>)
    ensures r.Err? <==> basePath.None? || basePath.value == ""
    ensures r.Err? ==> r.error == MissingBasePath(diskName) && r.error.status == 500
    ensures r.Ok? ==> r.value == Route(RoutePattern(basePath.value), RouteName(diskName))
  {
    if basePath.None? || basePath.value == "" then Err(MissingBasePath(diskName))
    else Ok(Route(RoutePattern(basePath.value), RouteName(diskName)))
  }

  /** A driver error as the catch block inspects it: its own `code` and its `original` error's code. */
  datatype DriverError = DriverError(code: string, originalCode: Option<string>)

  predicate IsNotFound(e: DriverError) {
    e.originalCode == Some("ENOENT") || e.code == "ENOENT"
  }

  /** What `getStats` reports; `etag` is "" when the driver gives none. */
  datatype Stats = Stats(isFile: bool, modifiedUtc: string, etag: string, size: nat)

  datatype Request = Request(verb: Method, query: FileServer.Query, hasValidSignature: bool, isFresh: bool)

  /** The outcome, with the fatal log line written on an unexpected failure. */
  datatype Outcome =
    | Served(response: Response<Body>, fatal: Option<string>)
    | Rejected(error: Thrown)

  /** The two denial checks: no signature on a private file, or a signature that is not valid. */
  predicate Denied(visibility: Visibility, usingSignature: bool, hasValidSignature: bool) {
    (!usingSignature && visibility == Private) || (usingSignature && !hasValidSignature)
  }

  const AccessDenied: Response<Body> := Response(401, map[], Text("Access denied"))

  function FatalMessage(location: string, diskName: string): string {
    "drive: Unable to serve file \"" + location + "\" from \"" + diskName + "\" disk"
  }

  /** The catch block: 404 for a missing file, else 500 and a fatal log line; headers set so far stay. */
  function Caught(e: DriverError, headers: map<Header, string>, location: string, diskName: string): (o: Outcome)
    ensures o.Served? && o.response.headers == headers
    ensures IsNotFound(e) <==> o.response.status == 404
    ensures IsNotFound(e) ==> o.response.body == Text("File not found") && o.fatal.None?
    ensures !IsNotFound(e) ==>
      o.response.status == 500 && o.response.body == Text("Cannot process file")
      && o.fatal == Some(FatalMessage(location, diskName))
  {
    if IsNotFound(e) then Served(Response(404, headers, Text("File not found")), None)
    else Served(Response(500, headers, Text("Cannot process file")), Some(FatalMessage(location, diskName)))
  }

  predicate FromQuery(headers: map<Header, string>, name: Header, usingSignature: bool, value: string) {
    (name in headers <==> usingSignature && value != "")
    && (name in headers ==> headers[name] == value)
  }

  /**
   * The headers of a file response: exactly one of `Cache-Control` and
   * `Last-Modified`, a `Content-Type` always (from the signed query, else
   * from the location's extension), the three signed-only headers, and the
   * etag when the driver has one.
   */
  predicate HeadersFor(q: FileServer.Query, signed: bool, location: string, stats: Stats,
                       typeOf: string -> string, h: map<Header, string>) {
    && (CacheControl in h <==> LastModified !in h)
    && FromQuery(h, CacheControl, signed, q.cacheControl)
    && (LastModified in h ==> h[LastModified] == stats.modifiedUtc)
    && ContentType in h
    && h[ContentType] == (if signed && q.contentType != "" then q.contentType else typeOf(Extname(location)))
    && FromQuery(h, ContentDisposition, signed, q.contentDisposition)
    && FromQuery(h, ContentEncoding, signed, q.contentEncoding)
    && FromQuery(h, ContentLanguage, signed, q.contentLanguage)
    && (ETag in h <==> stats.etag != "")
    && (ETag in h ==> h[ETag] == stats.etag)
    && h.Keys <= {ETag, CacheControl, LastModified, ContentType,
                  ContentDisposition, ContentEncoding, ContentLanguage}
  }

  method FileHeaders(q: FileServer.Query, usingSignature: bool, location: string, stats: Stats, typeOf: string -> string)
    returns (headers: map<Header, string>)
    ensures HeadersFor(q, usingSignature, location, stats, typeOf, headers)
  {
    headers := map[];
    if usingSignature && q.cacheControl != "" {
      headers := headers[CacheControl := q.cacheControl];
    } else {
      headers := headers[LastModified := stats.modifiedUtc];
    }
    if usingSignature && q.contentType != "" {
      headers := headers[ContentType := q.contentType];
    } else {
      headers := headers[ContentType := typeOf(Extname(location))];
    }
    if usingSignature && q.contentDisposition != "" {
      headers := headers[ContentDisposition := q.contentDisposition];
    }
    if usingSignature && q.contentEncoding != "" {
      headers := headers[ContentEncoding := q.contentEncoding];
    }
    if usingSignature && q.contentLanguage != "" {
      headers := headers[ContentLanguage := q.contentLanguage];
    }
    if stats.etag != "" {
      headers := headers[ETag := stats.etag];
    }
  }

  predicate Admitted(req: Request, visibility: Result<Visibility, Thrown>) {
    visibility.Ok? && !Denied(visibility.value, req.query.signature != "", req.hasValidSignature)
  }

  /** A file past the access check whose stats were read. */
  predicate IsServable(req: Request, visibility: Result<Visibility, Thrown>, stats: Result<Stats, DriverError>) {
    Admitted(req, visibility) && stats.Ok? && stats.value.isFile
  }

  /**
   * The route handler for the (already decoded) `location` on disk
   * `diskName`. `typeOf` is `response.type`'s lookup.
   */
  method Handle(diskName: string, location: string, req: Request, visibility: Result<Visibility, Thrown>,
                stats: Result<Stats, DriverError>, streamError: Option<DriverError>, typeOf: string -> string)
    returns (out: Outcome)
    ensures visibility.Err? <==> out.Rejected?
    ensures out.Rejected? ==> out.error == visibility.error
    ensures visibility.Ok? ==>
      (Denied(visibility.value, req.query.signature != "", req.hasValidSignature) <==> out == Served(AccessDenied, None))
    // a failed stat is caught before any header is set
    ensures Admitted(req, visibility) && stats.Err? ==> out == Caught(stats.error, map[], location, diskName)
    // directories are not served
    ensures Admitted(req, visibility) && stats.Ok? && !stats.value.isFile ==>
      out == Served(Response(404, map[], Text("File not found")), None)
    ensures IsServable(req, visibility, stats) ==> out.Served?
    ensures IsServable(req, visibility, stats) ==>
      HeadersFor(req.query, req.query.signature != "", location, stats.value, typeOf, out.response.headers - {ContentLength})
    ensures IsServable(req, visibility, stats) && req.verb == Head ==>
      out == Served(Response(if req.isFresh then 304 else 200, out.response.headers, NoBody), None)
      && ContentLength !in out.response.headers
    ensures IsServable(req, visibility, stats) && req.verb == Get && req.isFresh ==>
      out == Served(Response(304, out.response.headers, NoBody), None)
      && ContentLength !in out.response.headers
    // a stream failure is caught after the length header is set, so the error response keeps it
    ensures IsServable(req, visibility, stats) && req.verb == Get && !req.isFresh ==>
      ContentLength in out.response.headers
      && out.response.headers[ContentLength] == Decimal(stats.value.size)
    ensures IsServable(req, visibility, stats) && req.verb == Get && !req.isFresh && streamError.Some? ==>
      out == Caught(streamError.value, out.response.headers, location, diskName)
    ensures IsServable(req, visibility, stats) && req.verb == Get && !req.isFresh && streamError.None? ==>
      out.response.status == 200 && out.response.body == FileStream && out.fatal.None?
  {
    if visibility.Err? {
      return Rejected(visibility.error);
    }
    var usingSignature := req.query.signature != "";
    if !usingSignature && visibility.value == Private {
      return Served(AccessDenied, None);
    }
    if usingSignature && !req.hasValidSignature {
      return Served(AccessDenied, None);
    }
    if stats.Err? {
      return Caught(stats.error, map[], location, diskName);
    }
    if !stats.value.isFile {
      return Served(Response(404, map[], Text("File not found")), None);
    }
    var headers := FileHeaders(req.query, usingSignature, location, stats.value, typeOf);
    LengthIsSetLast(headers, Decimal(stats.value.size));
    if req.verb == Head {
      return Served(Response(if req.isFresh then 304 else 200, headers, NoBody), None);
    }
    if req.isFresh {
      return Served(Response(304, headers, NoBody), None);
    }
    headers := headers[ContentLength := Decimal(stats.value.size)];
    if streamError.Some? {
      return Caught(streamError.value, headers, location, diskName);
    }
    return Served(Response(200, headers, FileStream), None);
  }

  /** The file headers never hold `Content-Length`, so setting it last adds exactly that one header. */
  lemma LengthIsSetLast(h: map<Header, string>, length: string)
    requires h.Keys <= {ETag, CacheControl, LastModified, ContentType, ContentDisposition, ContentEncoding, ContentLanguage}
    ensures ContentLength !in h && h - {ContentLength} == h
    ensures h[ContentLength := length] - {ContentLength} == h
  {
  }

  /**
   * The two servers refuse the same requests whenever a valid signature
   * implies a signature was sent; they differ only on a private file
   * whose request is judged valid without one.
   */
  lemma SameAccessRuleAsFileServer(visibility: Visibility, usingSignature: bool, hasValidSignature: bool)
    ensures (hasValidSignature ==> usingSignature) ==>
      (Denied(visibility, usingSignature, hasValidSignature) <==> FileServer.Denied(visibility, usingSignature, hasValidSignature))
    ensures Denied(Private, false, true) && !FileServer.Denied(Private, false, true)
  {
  }
}

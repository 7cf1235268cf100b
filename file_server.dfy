/**
 * The request handler `createFileServer` returns for a disk: access
 * control on visibility and signatures, response headers from the file's
 * metadata (or, under a signature, from the query string), conditional
 * responses, and wrapping of every failure after access control in
 * `CannotServeFileException`.
 */
module FileServer {
  import opened Wrappers
  import opened Text
  import opened Errors
  import opened Http

  /** Query-string inputs the handler reads; "" stands for a missing or empty (falsy) value. */
  datatype Query = Query(
    signature: string,
    cacheControl: string,
    contentType: string,
    contentDisposition: string,
    contentEncoding: string,
    contentLanguage: string)

  /** What the request tells the handler. `isFresh` is the outcome of the conditional-request check. */
  datatype Request = Request(verb: Method, query: Query, hasValidSignature: bool, isFresh: bool)

  /** The file metadata the disk reports; `contentType` is `None` or "" when unknown. */
  datatype Metadata = Metadata(etag: string, lastModifiedUtc: string, contentType: Option<string>, contentLength: nat)

  datatype Outcome =
    | Served(response: Response<Body>)
    | Rejected(error: Thrown)          // thrown before the `try` and propagated as it is
    | Failed(exception: CannotServeFile)

  /** The access-control rule: refuse a private file without a valid signature, and any request with an invalid one. */
  predicate Denied(visibility: Visibility, usingSignature: bool, hasValidSignature: bool) {
    (visibility == Private && !hasValidSignature) || (usingSignature && !hasValidSignature)
  }

  /** The request got past the visibility lookup and the access check. */
  predicate Admitted(req: Request, visibility: Result<Visibility, Thrown>) {
    visibility.Ok? && !Denied(visibility.value, req.query.signature != "", req.hasValidSignature)
  }

  const AccessDenied: Response<Body> := Response(401, map[], Text("Access denied"))

  /**
   * The handler. The disk's answers are inputs: `visibility` (an error from
   * `disk.file` or `getVisibility`), `metadata` (`getMetaData`) and
   * `streamError` (`getStream`); `typeOf` is `response.type`'s lookup.
   */
  method Handle(req: Request, visibility: Result<Visibility, Thrown>, metadata: Result<Metadata, Thrown>,
                streamError: Option<Thrown>, typeOf: string -> string) returns (out: Outcome)
    // failures before the access check propagate untouched
    ensures visibility.Err? <==> out.Rejected?
    ensures out.Rejected? ==> out.error == visibility.error
    // the access check decides alone, before any metadata is read
    ensures visibility.Ok? ==>
      (Denied(visibility.value, req.query.signature != "", req.hasValidSignature) <==> out == Served(AccessDenied))
    // a metadata failure is wrapped, keeping the original as its cause
    ensures Admitted(req, visibility) && metadata.Err?
      ==> out == Failed(CannotServeFile(metadata.error))
    ensures out.Failed? ==> metadata.Err? || (req.verb == Get && !req.isFresh && streamError.Some?)
    ensures Admitted(req, visibility) && out.Served? ==> out.response.status != 401
    ensures out.Served? && out.response.status != 401 ==> metadata.Ok?
    // a HEAD or a fresh request with metadata is always answered, and never reads the stream
    ensures Admitted(req, visibility) && metadata.Ok? && (req.verb == Head || req.isFresh) ==>
      out.Served? && out.response.status == (if req.isFresh then 304 else 200) && out.response.body == NoBody
    ensures out.Served? && out.response.status != 401 ==>
      HeadersFor(req.query, req.query.signature != "", metadata.value, typeOf, out.response.headers - {ContentLength})
    // HEAD never has a body: 304 when fresh and 200 otherwise
    ensures out.Served? && out.response.status != 401 && req.verb == Head ==>
      out.response.status == (if req.isFresh then 304 else 200) && out.response.body == NoBody
      && ContentLength !in out.response.headers
    // a fresh GET is 304 without a body
    ensures out.Served? && out.response.status != 401 && req.verb == Get && req.isFresh ==>
      out.response.status == 304 && out.response.body == NoBody && ContentLength !in out.response.headers
    // otherwise the file is streamed with its length, or the stream failure is wrapped
    ensures Admitted(req, visibility) && metadata.Ok? && req.verb == Get && !req.isFresh && streamError.Some? ==>
      out == Failed(CannotServeFile(streamError.value))
    ensures Admitted(req, visibility) && metadata.Ok? && req.verb == Get && !req.isFresh && streamError.None? ==>
      && out.Served? && out.response.status == 200 && out.response.body == FileStream
      && ContentLength in out.response.headers
      && out.response.headers[ContentLength] == Decimal(metadata.value.contentLength)
  {
    if visibility.Err? {
      return Rejected(visibility.error);
    }
    var isPrivate := visibility.value == Private;
    var usingSignature := req.query.signature != "";
    var hasValidSignature := req.hasValidSignature;
    if (isPrivate && !hasValidSignature) || (usingSignature && !hasValidSignature) {
      return Served(AccessDenied);
    }
    if metadata.Err? {
      return Failed(CannotServeFile(metadata.error));
    }
    var md := metadata.value;
    var headers := CacheHeaders(req.query, usingSignature, md, typeOf);
    if req.verb == Head {
      return Served(Response(if req.isFresh then 304 else 200, headers, NoBody));
    }
    if req.isFresh {
      return Served(Response(304, headers, NoBody));
    }
    headers := headers[ContentLength := Decimal(md.contentLength)];
    if streamError.Some? {
      return Failed(CannotServeFile(streamError.value));
    }
    return Served(Response(200, headers, FileStream));
  }

  /** A header the query string may set, present exactly when a signature is used and the value is not empty. */
  predicate FromQuery(headers: map<Header, string>, name: Header, usingSignature: bool, value: string) {
    (name in headers <==> usingSignature && value != "")
    && (name in headers ==> headers[name] == value)
  }

  /**
   * The headers of every response past the access check: the etag, then
   * exactly one of `Cache-Control` (signed request that asks for one) and
   * `Last-Modified`, a `Content-Type` from the signed query or else the
   * metadata, and the three headers only a signed query can set.
   */
  predicate HeadersFor(q: Query, signed: bool, md: Metadata, typeOf: string -> string, h: map<Header, string>) {
    && ETag in h && h[ETag] == md.etag
    && (CacheControl in h <==> LastModified !in h)
    && FromQuery(h, CacheControl, signed, q.cacheControl)
    && (LastModified in h ==> h[LastModified] == md.lastModifiedUtc)
    && (signed && q.contentType != "" ==> ContentType in h && h[ContentType] == q.contentType)
    && (!(signed && q.contentType != "") ==>
          if md.contentType.Some? && md.contentType.value != ""
          then ContentType in h && h[ContentType] == typeOf(md.contentType.value)
          else ContentType !in h)
    && FromQuery(h, ContentDisposition, signed, q.contentDisposition)
    && FromQuery(h, ContentEncoding, signed, q.contentEncoding)
    && FromQuery(h, ContentLanguage, signed, q.contentLanguage)
    && h.Keys <= {ETag, CacheControl, LastModified, ContentType,
                  ContentDisposition, ContentEncoding, ContentLanguage}
  }

  /** The header-setting steps of the handler, one `response.header` call at a time. */
  method CacheHeaders(q: Query, usingSignature: bool, md: Metadata, typeOf: string -> string)
    returns (headers: map<Header, string>)
    ensures HeadersFor(q, usingSignature, md, typeOf, headers)
  {
    headers := map[];
    headers := headers[ETag := md.etag];
    if usingSignature && q.cacheControl != "" {
      headers := headers[CacheControl := q.cacheControl];
    } else {
      headers := headers[LastModified := md.lastModifiedUtc];
    }
    if usingSignature && q.contentType != "" {
      headers := headers[ContentType := q.contentType];
    } else if md.contentType.Some? && md.contentType.value != "" {
      headers := headers[ContentType := typeOf(md.contentType.value)];
    }
    if usingSignature && q.contentDisposition != "" {
      headers := headers[ContentDisposition := q.contentDisposition];
    }
    if usingSignature && q.contentEncoding != "" {
      headers := headers[ContentEncoding := q.contentEncoding];
    }
    if usingSignature && q.contentLanguage != "" {
      headers := headers[ContentLanguage := q.contentLanguage];
    }
  }

  /** A public file needs no signature; a private one needs a valid one; a forged signature is refused on any file. */
  lemma AccessRule(visibility: Visibility, usingSignature: bool, hasValidSignature: bool)
    ensures !usingSignature && visibility == Public ==> !Denied(visibility, usingSignature, hasValidSignature)
    ensures hasValidSignature ==> !Denied(visibility, usingSignature, hasValidSignature)
    ensures usingSignature && !hasValidSignature ==> Denied(visibility, usingSignature, hasValidSignature)
    ensures visibility == Private ==> (Denied(visibility, usingSignature, hasValidSignature) <==> !hasValidSignature)
  {
  }
}

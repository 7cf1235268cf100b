/** The HTTP vocabulary shared by the file-serving handlers. */
module Http {
  import opened Wrappers

  datatype Method = Get | Head

  datatype Visibility = Public | Private

  /** What a response sends: nothing, a text message, or the file's stream. */
  datatype Body = NoBody | Text(text: string) | FileStream

  /**
   * The response headers the servers set. Header names are
   * case-insensitive (section 5.1 of RFC 9110), so `etag` and `Etag`, or
   * `Content-length` and `Content-Length`, are one header.
   */
  datatype Header =
    | ETag | CacheControl | LastModified | ContentType | ContentDisposition
    | ContentEncoding | ContentLanguage | ContentLength | ContentRange | AcceptRanges

  /** A response as the handler leaves it: status, headers, and what is sent. */
  datatype Response<B> = Response(status: int, headers: map<Header, string>, body: B)

  /**
   * Decode the location taken from the wildcard route parameter;
   * `decodeURIComponent` is passed in as `decode` (`None` when it throws).
   * A location that cannot be decoded is kept as it came.
   */
  function DecodeLocation(raw: string, decode: string -> Option<string>): (r: string)
    ensures decode(raw).Some? ==> r == decode(raw).value
    ensures decode(raw).None? ==> r == raw
  {
    match decode(raw)
    case Some(decoded) => decoded
    case None => raw
  }
}

/**
 * `CannotServeFileException`: the error the file server throws when a
 * file cannot be served, how it finds the root cause of a nested error,
 * and how that cause becomes an HTTP response and a log line.
 */
module Errors {
  import opened Wrappers
  import opened Text

  /** A thrown JavaScript value, as far as the error handling inspects it. */
  datatype Thrown =
    | Nullish                   // `null` or `undefined`
    | Primitive(text: string)   // a string, number or other non-object: no property is read from it
    | Obj(message: string, code: string, stack: Option<string>, cause: Option<Thrown>)
      // an object; `cause` is `Some` when the object has a `cause` key ("" stands for a missing message or code)

  predicate HasCause(e: Thrown) {
    e.Obj? && e.cause.Some?
  }

  /** Reading a property of `null` or `undefined`. */
  datatype TypeError = TypeError

  const ServeFileMessage := "Cannot serve local file using drive"

  /** The exception wrapping whatever went wrong while serving a file. */
  datatype CannotServeFile = CannotServeFile(cause: Thrown) {
    function Message(): string { ServeFileMessage }
    function Code(): string { "E_CANNOT_SERVE_FILE" }
    function Status(): int { 500 }

    /** The exception seen as a thrown object: it always carries a `cause` key. */
    function AsThrown(): Thrown {
      Obj(Message(), Code(), None, Some(cause))
    }
  }

  /** `new CannotServeFileException(originalError)` */
  function NewCannotServeFile(originalError: Thrown): (e: CannotServeFile)
    ensures e.Code() == "E_CANNOT_SERVE_FILE" && e.Status() == 500
    ensures e.cause == originalError
    ensures HasCause(e.AsThrown()) && e.AsThrown().cause.value == originalError
  {
    CannotServeFile(originalError)
  }

  /** `#getRootCause`: follow `cause` keys until a value without one. */
  function RootCause(e: Thrown): (r: Thrown)
    ensures !HasCause(r)
    ensures !HasCause(e) ==> r == e
  {
    if HasCause(e) then RootCause(e.cause.value) else e
  }

  /** The cause chain starting at `e`, ending at the first value without a cause. */
  function CauseChain(e: Thrown): (r: seq<Thrown>)
    ensures |r| >= 1 && r[0] == e
  {
    if HasCause(e) then [e] + CauseChain(e.cause.value) else [e]
  }

  /** The root cause is the last link of the chain, and every earlier link has a cause. */
  lemma {:induction false} RootCauseEndsChain(e: Thrown)
    ensures RootCause(e) == CauseChain(e)[|CauseChain(e)| - 1]
    ensures forall i :: 0 <= i < |CauseChain(e)| - 1 ==> HasCause(CauseChain(e)[i])
  {
    if HasCause(e) {
      RootCauseEndsChain(e.cause.value);
    }
  }

  const DirectoryMetadataMessage := "Cannot get metadata of a directory"

  datatype Parsed = Parsed(stack: Option<string>, status: int, message: string)

  /** `parseError`: the root cause's message (or the exception's own), stack and status. */
  function ParseError(error: CannotServeFile): (r: Result<Parsed, TypeError>)
    ensures r.Err? <==> RootCause(error.cause).Nullish?
    ensures r.Ok? ==> r.value.status == 404 || r.value.status == 500
  {
    var root := RootCause(error.AsThrown());
    if root.Nullish? then Err(TypeError)
    else
      var message := if root.Obj? && root.message != "" then root.message else error.Message();
      var stack := if root.Obj? then root.stack else None;
      var code := if root.Obj? then root.code else "";
      var status := if code == "ENOENT" || Contains(message, DirectoryMetadataMessage) then 404 else 500;
      Ok(Parsed(stack, status, message))
  }

  /**
   * The status is 404 exactly for a missing file (`ENOENT`) or a directory
   * read as a file, and 500 for everything else; the message is the root
   * cause's own when it has one.
   */
  lemma ParseErrorClassifies(error: CannotServeFile)
    requires !RootCause(error.cause).Nullish?
    ensures var root := RootCause(error.cause);
      var p := ParseError(error).value;
      && (p.message == if root.Obj? && root.message != "" then root.message else ServeFileMessage)
      && (p.status == 404 <==> (root.Obj? && root.code == "ENOENT") || Contains(p.message, DirectoryMetadataMessage))
      && p.stack == (if root.Obj? then root.stack else None)
  {
    assert RootCause(error.AsThrown()) == RootCause(error.cause);
  }

  /** An error wrapped in another error that has a `cause` is classified by the innermost one. */
  lemma ParseErrorSeesNestedCause(message: string, code: string, stack: Option<string>, inner: Thrown)
    requires !HasCause(inner) && inner.Obj? && inner.message != ""
    ensures ParseError(CannotServeFile(Obj(message, code, stack, Some(inner)))).Ok?
    ensures ParseError(CannotServeFile(Obj(message, code, stack, Some(inner)))).value.message == inner.message
  {
  }

  /** A cause that is not an object (`cause: 'text'`) yields the exception's own message and 500. */
  lemma ParseErrorPrimitiveCause(text: string)
    ensures ParseError(CannotServeFile(Primitive(text)))
         == Ok(Parsed(None, 500, ServeFileMessage))
  {
    var m, d := ServeFileMessage, DirectoryMetadataMessage;
    assert |m| == 35 && |d| == 34;
    assert d[0] == 'C' && d[7] == 'g';
    assert m[1] == 'a' && m[7] == 's';
    forall i | 0 <= i <= |m| - |d| ensures !OccursAt(m, d, i) {
      if i == 0 {
        assert m[i..i + |d|][7] != d[7];
      } else {
        assert m[i..i + |d|][0] != d[0];
      }
    }
  }

  /** What `request.accepts(['html', 'application/vnd.api+json', 'json'])` picked. */
  datatype Accepts = Html | JsonApi | Json | NoneAccepted

  datatype ErrorBody =
    | TextBody(text: string)
    | JsonApiBody(title: string, stack: Option<string>)
    | JsonBody(message: string, stack: Option<string>)

  datatype ErrorReply = ErrorReply(status: int, body: ErrorBody)

  /** `${stack}` in a template string. */
  function StackText(stack: Option<string>): string {
    match stack
    case None => "undefined"
    case Some(s) => s
  }

  /** `handle`: production always answers 404 "File not found"; development shows the parsed error. */
  function Handle(error: CannotServeFile, inProduction: bool, accepts: Accepts): (r: Result<ErrorReply, TypeError>)
    ensures inProduction ==> r == Ok(ErrorReply(404, TextBody("File not found")))
    ensures !inProduction ==> (r.Err? <==> ParseError(error).Err?)
    ensures !inProduction && r.Ok? ==> r.value.status == ParseError(error).value.status
    ensures !inProduction && r.Ok? && (accepts == Html || accepts == NoneAccepted) ==>
      r.value.body == TextBody(ParseError(error).value.message + "\nStack:" + StackText(ParseError(error).value.stack))
    ensures !inProduction && r.Ok? && accepts == JsonApi ==>
      r.value.body == JsonApiBody(ParseError(error).value.message, ParseError(error).value.stack)
    ensures !inProduction && r.Ok? && accepts == Json ==>
      r.value.body == JsonBody(ParseError(error).value.message, ParseError(error).value.stack)
  {
    if inProduction then Ok(ErrorReply(404, TextBody("File not found")))
    else match ParseError(error)
      case Err(e) => Err(e)
      case Ok(Parsed(stack, status, message)) =>
        match accepts
        case JsonApi => Ok(ErrorReply(status, JsonApiBody(message, stack)))
        case Json => Ok(ErrorReply(status, JsonBody(message, stack)))
        case _ => Ok(ErrorReply(status, TextBody(message + "\nStack:" + StackText(stack))))
  }

  datatype Level = Warn | Error

  datatype LogEntry = LogEntry(level: Level, message: string, stack: Option<string>)

  /** `report`: warn for a 401, log at error level otherwise. */
  function Report(error: CannotServeFile): (r: Result<LogEntry, TypeError>)
    ensures r.Err? <==> ParseError(error).Err?
    ensures r.Ok? ==> r.value.message == ParseError(error).value.message
    ensures r.Ok? && ParseError(error).value.status != 401 ==> r.value == LogEntry(Error, r.value.message, ParseError(error).value.stack)
  {
    match ParseError(error)
    case Err(e) => Err(e)
    case Ok(Parsed(stack, status, message)) =>
      if status == 401 then Ok(LogEntry(Warn, message, None)) else Ok(LogEntry(Error, message, stack))
  }

  /** `parseError` never yields 401, so `report` never warns, not even for a missing file. */
  lemma ReportNeverWarns(error: CannotServeFile)
    requires Report(error).Ok?
    ensures Report(error).value.level == Error
  {
  }
}

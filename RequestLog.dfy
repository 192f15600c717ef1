/**
 * The server's request logging and error fallback: when a response to an
 * `/api` path finishes, one line is logged, and the error handler answers
 * with a status and a message picked by `||` chains.
 */
module RequestLog {
  import opened Optional
  import opened Strings

  const ApiPrefix: string := "/api"
  const MaxLength: nat := 80
  /** Characters kept from a long line before the suffix. */
  const KeptLength: nat := 79
  /**
   * The suffix literal as the file holds it: U+00E2 U+20AC U+00A6, the three
   * characters an ellipsis shows up as when its UTF-8 bytes are read as
   * Windows-1252. Only `WrittenSuffixLength` depends on its length.
   */
  const Ellipsis: string := "\U{00E2}\U{20AC}\U{00A6}"
  const DefaultStatus: int := 500
  const DefaultMessage: string := "Internal Server Error"

  /** `${n}` for an integer. */
  function IntString(n: int): (s: string)
    ensures ' ' !in s && |s| > 0
  {
    if n < 0 then "-" + Decimal(-n) else Decimal(n)
  }

  /** The template `${method} ${path} ${statusCode} in ${duration}ms`, its concatenations grouped from the right. */
  function BaseLine(verb: string, path: string, status: nat, duration: int): string {
    verb + " " + (path + " " + (Decimal(status) + " " + ("in" + " " + (IntString(duration) + "ms"))))
  }

  /** The line before truncation: the base, then ` :: ` and the JSON text when a JSON body was captured. */
  function RawLogLine(verb: string, path: string, status: nat, duration: int, captured: Option<string>): string {
    var base := BaseLine(verb, path, status, duration);
    if captured.Some? then base + " :: " + captured.value else base
  }

  /** A line over 80 characters becomes its first 79 followed by the suffix. */
  function Truncate(line: string): (t: string)
    ensures |line| <= MaxLength ==> t == line
    ensures |line| > MaxLength ==>
      |t| == KeptLength + |Ellipsis| && t[..KeptLength] == line[..KeptLength] && t[KeptLength..] == Ellipsis
  {
    if |line| > MaxLength then line[..KeptLength] + Ellipsis else line
  }

  /** Truncating again changes nothing, whatever the suffix's length. */
  lemma TruncateIdempotent(line: string)
    ensures Truncate(Truncate(line)) == Truncate(line)
  {
    var t := Truncate(line);
    if |line| > MaxLength && |t| > MaxLength {
      assert t[..KeptLength] == line[..KeptLength];
    }
  }

  /**
   * With the three-character suffix a truncated line is 82 characters long, two
   * over the limit it is cut for; a one-character ellipsis would give exactly 80.
   */
  lemma WrittenSuffixLength(line: string)
    requires |line| > MaxLength
    ensures |Truncate(line)| == 82 && |Truncate(line)| > MaxLength
    ensures |line[..KeptLength] + "\U{2026}"| == MaxLength
  {
  }

  /**
   * The logging middleware's `finish` handler for one response: `None` when
   * nothing is logged, otherwise the line passed to `log`. `start` and
   * `finish` are the two `Date.now()` readings.
   */
  method BuildLogLine(verb: string, path: string, status: nat, start: int, finish: int, captured: Option<string>)
    returns (line: Option<string>)
    ensures line.Some? <==> StartsWith(path, ApiPrefix)
    ensures line.Some? ==> line.value == Truncate(RawLogLine(verb, path, status, finish - start, captured))
  {
    var duration := finish - start;
    if !StartsWith(path, ApiPrefix) {
      return None;
    }
    var logLine := BaseLine(verb, path, status, duration);
    if captured.Some? {
      logLine := logLine + " :: " + captured.value;
    }
    if |logLine| > MaxLength {
      logLine := logLine[..KeptLength] + Ellipsis;
    }
    line := Some(logLine);
  }

  /** The base line's fields, in order. */
  function Fields(verb: string, path: string, status: nat, duration: int): seq<string> {
    [verb, path, Decimal(status), "in", IntString(duration) + "ms"]
  }

  /**
   * When the verb and the path hold no space, splitting the unextended line at
   * spaces gives back its five fields, and the third reads as the status.
   */
  lemma LogLineFieldsRoundTrip(verb: string, path: string, status: nat, duration: int)
    requires ' ' !in verb && ' ' !in path
    ensures Split(RawLogLine(verb, path, status, duration, None), ' ') == Fields(verb, path, status, duration)
    ensures ParseDecimal(Split(RawLogLine(verb, path, status, duration, None), ' ')[2]) == Some(status)
  {
    var d, n := Decimal(status), IntString(duration) + "ms";
    assert ' ' !in d by {
      assert forall k :: 0 <= k < |d| ==> IsDigit(d[k]);
    }
    SplitFive(verb, path, d, "in", n);
    ParseDecimalOfDecimal(status);
  }

  /** Fields without spaces, joined by single spaces, split back into themselves. */
  lemma SplitFive(a: string, b: string, c: string, d: string, e: string)
    requires ' ' !in a && ' ' !in b && ' ' !in c && ' ' !in d && ' ' !in e
    ensures Split(a + [' '] + (b + [' '] + (c + [' '] + (d + [' '] + e))), ' ') == [a, b, c, d, e]
  {
    var rest := b + [' '] + (c + [' '] + (d + [' '] + e));
    SplitFour(b, c, d, e);
    SplitAtFirst(a, ' ', rest);
    PrependFour(a, b, c, d, e);
  }

  lemma SplitFour(b: string, c: string, d: string, e: string)
    requires ' ' !in b && ' ' !in c && ' ' !in d && ' ' !in e
    ensures Split(b + [' '] + (c + [' '] + (d + [' '] + e)), ' ') == [b, c, d, e]
  {
    var rest := c + [' '] + (d + [' '] + e);
    SplitThree(c, d, e);
    SplitAtFirst(b, ' ', rest);
    PrependThree(b, c, d, e);
  }

  lemma SplitThree(c: string, d: string, e: string)
    requires ' ' !in c && ' ' !in d && ' ' !in e
    ensures Split(c + [' '] + (d + [' '] + e), ' ') == [c, d, e]
  {
    SplitNoSeparator(e, ' ');
    SplitAtFirst(d, ' ', e);
    SplitAtFirst(c, ' ', d + [' '] + e);
  }

  lemma PrependFour<T>(a: T, b: T, c: T, d: T, e: T)
    ensures [a] + [b, c, d, e] == [a, b, c, d, e]
  {
  }

  lemma PrependThree<T>(b: T, c: T, d: T, e: T)
    ensures [b] + [c, d, e] == [b, c, d, e]
  {
  }

  /** With a captured body the line goes on after the base with ` :: ` and the JSON text. */
  lemma CapturedFollowsBase(verb: string, path: string, status: nat, duration: int, json: string)
    ensures var raw := RawLogLine(verb, path, status, duration, Some(json));
      var base := BaseLine(verb, path, status, duration);
      |base| + 4 <= |raw| && raw[..|base|] == base && raw[|base|..|base| + 4] == " :: " && raw[|base| + 4..] == json
  {
    var raw := RawLogLine(verb, path, status, duration, Some(json));
    var base := BaseLine(verb, path, status, duration);
    assert raw == base + (" :: " + json);
  }

  // ---------------------------------------------------------------------------
  // the error handler

  /**
   * The thrown value's fields as the handler reads them: `None` when a field is
   * absent. A number is truthy when it is not 0, a string when it is not empty.
   */
  datatype ThrownError = ThrownError(status: Option<int>, statusCode: Option<int>, message: Option<string>)

  predicate TruthyInt(v: Option<int>) {
    v.Some? && v.value != 0
  }

  predicate TruthyString(v: Option<string>) {
    v.Some? && v.value != ""
  }

  /** `err.status || err.statusCode || 500`. */
  function ErrorStatus(err: ThrownError): (code: int)
    ensures code != 0
    ensures TruthyInt(err.status) ==> code == err.status.value
    ensures !TruthyInt(err.status) && TruthyInt(err.statusCode) ==> code == err.statusCode.value
    ensures !TruthyInt(err.status) && !TruthyInt(err.statusCode) ==> code == DefaultStatus
  {
    if TruthyInt(err.status) then err.status.value
    else if TruthyInt(err.statusCode) then err.statusCode.value
    else DefaultStatus
  }

  /** `err.message || "Internal Server Error"`. */
  function ErrorMessage(err: ThrownError): (message: string)
    ensures message != ""
    ensures TruthyString(err.message) ==> message == err.message.value
    ensures !TruthyString(err.message) ==> message == DefaultMessage
  {
    if TruthyString(err.message) then err.message.value else DefaultMessage
  }

  /** The status written and the body's `message`. */
  datatype ErrorReply = ErrorReply(status: int, message: string)

  function HandleError(err: ThrownError): ErrorReply {
    ErrorReply(ErrorStatus(err), ErrorMessage(err))
  }

  /**
   * The fallback is a fixed point: an error carrying the reply's own status
   * and message gets the same reply, and which field supplied them is the
   * first truthy one.
   */
  lemma HandleErrorStable(err: ThrownError, statusCode: Option<int>)
    ensures var r := HandleError(err);
      HandleError(ThrownError(Some(r.status), statusCode, Some(r.message))) == r
  {
  }

  /** An error value carrying nothing usable is answered 500 "Internal Server Error", even with zero or empty fields. */
  lemma BareErrorIs500(err: ThrownError)
    requires !TruthyInt(err.status) && !TruthyInt(err.statusCode) && !TruthyString(err.message)
    ensures HandleError(err) == ErrorReply(500, "Internal Server Error")
  {
  }
}

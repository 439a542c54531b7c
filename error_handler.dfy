/**
 * The error-handling middleware: `handleErrors` classifies any thrown value into a
 * three-field error record, and `errorHandler` writes that record as the JSON response,
 * unless a response has already been started.
 */
module ErrorHandler {
  import opened JsValues
  import Decimal

  /** Status codes and reason phrases of RFC 9110, sections 15.5.1 and 15.6.1. */
  const BAD_REQUEST: int := 400
  const INTERNAL_SERVER_ERROR: int := 500
  const BAD_REQUEST_PHRASE: string := "Bad Request"
  const INTERNAL_SERVER_ERROR_PHRASE: string := "Internal Server Error"

  /** The message sent for a thrown value that is not an Error. */
  const FALLBACK_MESSAGE: string := "Something went wrong"

  predicate IsErrorStatus(status: int)
  {
    status == BAD_REQUEST || status == INTERNAL_SERVER_ERROR
  }

  function ReasonPhrase(status: int): (phrase: string)
    requires IsErrorStatus(status)
    ensures phrase == BAD_REQUEST_PHRASE <==> status == BAD_REQUEST
    ensures phrase == INTERNAL_SERVER_ERROR_PHRASE <==> status == INTERNAL_SERVER_ERROR
  {
    if status == BAD_REQUEST then BAD_REQUEST_PHRASE else INTERNAL_SERVER_ERROR_PHRASE
  }

  /**
   * The normalised error body. `message` is None when the first issue of an empty issue
   * list was asked for (`errors[0]` is `undefined`, and the JSON body then has no message).
   */
  datatype ResponseError = ResponseError(statusCode: int, message: Option<string>, errorCode: string)

  // ---------------------------------------------------------------------------------------
  // Rendering an issue as `${path} ${message}`
  // ---------------------------------------------------------------------------------------

  /** A path segment as JavaScript turns it into text: a key as itself, an index in decimal. */
  function SegText(seg: PathSeg): string
  {
    match seg
    case Key(name) => name
    case Index(i) => Decimal.NatToDecimal(i)
  }

  /** The texts of a path's segments, in order. */
  function SegTexts(path: seq<PathSeg>): seq<string>
  {
    seq(|path|, i requires 0 <= i < |path| => SegText(path[i]))
  }

  /**
   * `${path}` for an array path: the segments' texts joined by commas, accumulated left to
   * right as `Array.prototype.join` does.
   */
  function RenderPath(path: seq<PathSeg>): string
    decreases |path|
  {
    if |path| == 0 then ""
    else if |path| == 1 then SegText(path[0])
    else RenderPath(path[..|path| - 1]) + "," + SegText(path[|path| - 1])
  }

  /** `${err.path} ${err.message}` */
  function RenderIssue(issue: Issue): string
  {
    RenderPath(issue.path) + " " + issue.message
  }

  /** Cuts a string at every comma; the inverse of RenderPath on comma-free segments. */
  function Split(s: string): (parts: seq<string>)
    ensures |parts| >= 1
    decreases |s|
  {
    if s == [] then [""]
    else
      var rest := Split(s[1..]);
      if s[0] == ',' then [""] + rest else [[s[0]] + rest[0]] + rest[1..]
  }

  lemma {:induction false} SplitNoComma(t: string)
    requires ',' !in t
    ensures Split(t) == [t]
    decreases |t|
  {
    if t != [] {
      assert ',' !in t[1..];
      SplitNoComma(t[1..]);
      assert [t[0]] + t[1..] == t;
    }
  }

  lemma {:induction false} SplitAppend(a: string, t: string)
    requires ',' !in t
    ensures Split(a + [','] + t) == Split(a) + [t]
    decreases |a|
  {
    var s := a + [','] + t;
    if a == [] {
      assert s[1..] == t;
      SplitNoComma(t);
    } else {
      assert s[0] == a[0] && s[1..] == a[1..] + [','] + t;
      SplitAppend(a[1..], t);
    }
  }

  /** A path whose keys contain no comma is recovered from its text, segment by segment. */
  lemma {:induction false} PathRoundTrip(path: seq<PathSeg>)
    requires |path| >= 1
    requires forall i :: 0 <= i < |path| && path[i].Key? ==> ',' !in path[i].name
    ensures Split(RenderPath(path)) == SegTexts(path)
    decreases |path|
  {
    var n := |path|;
    var last := SegText(path[n - 1]);
    assert ',' !in last;
    if n == 1 {
      SplitNoComma(last);
    } else {
      var init := path[..n - 1];
      PathRoundTrip(init);
      SplitAppend(RenderPath(init), last);
      assert SegTexts(path) == SegTexts(init) + [last];
    }
  }

  /** One more segment after a non-empty path adds a comma and that segment's text. */
  lemma RenderPathSnoc(path: seq<PathSeg>, seg: PathSeg)
    requires |path| >= 1
    ensures RenderPath(path + [seg]) == RenderPath(path) + "," + SegText(seg)
  {
    assert (path + [seg])[..|path|] == path;
  }

  /** Joining two non-empty paths joins their texts with one comma. */
  lemma {:induction false} RenderPathConcat(p: seq<PathSeg>, q: seq<PathSeg>)
    requires |p| >= 1 && |q| >= 1
    ensures RenderPath(p + q) == RenderPath(p) + "," + RenderPath(q)
    decreases |q|
  {
    var init, last := q[..|q| - 1], q[|q| - 1];
    assert q == init + [last];
    if init == [] {
      RenderPathSnoc(p, last);
    } else {
      assert p + q == (p + init) + [last];
      RenderPathSnoc(p + init, last);
      RenderPathSnoc(init, last);
      RenderPathConcat(p, init);
    }
  }

  // ---------------------------------------------------------------------------------------
  // handleErrors
  // ---------------------------------------------------------------------------------------

  /** Classifies a thrown value; the first matching rule wins. */
  function HandleErrors(error: Thrown): (r: ResponseError)
    ensures IsErrorStatus(r.statusCode) && r.errorCode == ReasonPhrase(r.statusCode)
    ensures r.statusCode == BAD_REQUEST <==> IsValidationError(error)
    ensures r.message.None? <==> error == ValidationErr([])
  {
    if IsValidationError(error) then
      var errors := seq(|error.issues|, k requires 0 <= k < |error.issues| => RenderIssue(error.issues[k]));
      ResponseError(BAD_REQUEST, if |errors| > 0 then Some(errors[0]) else None, BAD_REQUEST_PHRASE)
    else if IsErrorInstance(error) then
      ResponseError(INTERNAL_SERVER_ERROR, Some(error.msg), INTERNAL_SERVER_ERROR_PHRASE)
    else
      ResponseError(INTERNAL_SERVER_ERROR, Some(FALLBACK_MESSAGE), INTERNAL_SERVER_ERROR_PHRASE)
  }

  /** A validation error gives 400, "Bad Request", and the first issue rendered. */
  lemma ValidationErrorIsBadRequest(issues: seq<Issue>)
    requires |issues| >= 1
    ensures HandleErrors(ValidationErr(issues))
         == ResponseError(400, Some(RenderPath(issues[0].path) + " " + issues[0].message), "Bad Request")
  {
  }

  /** Only the first issue is reported: whatever follows it does not change the response. */
  lemma LaterIssuesIgnored(first: Issue, rest: seq<Issue>, rest': seq<Issue>)
    ensures HandleErrors(ValidationErr([first] + rest)) == HandleErrors(ValidationErr([first] + rest'))
  {
  }

  /** A nested path renders as JavaScript interpolates an array: `items,12,name Required`. */
  lemma NestedPathExample()
    ensures HandleErrors(ValidationErr([Issue([Key("items"), Index(12), Key("name")], "Required")])).message
         == Some("items,12,name Required")
  {
    var first := [Key("items")];
    var twelve := first + [Index(12)];
    var path := twelve + [Key("name")];
    assert SegText(Index(12)) == "12" by {
      assert Decimal.NatToDecimal(1) == "1";
      assert Decimal.NatToDecimal(12) == Decimal.NatToDecimal(1) + [Decimal.DigitChar(2)];
    }
    assert RenderPath(first) == "items";
    assert twelve[..1] == first;
    assert RenderPath(twelve) == "items,12";
    assert path[..2] == twelve;
    assert RenderPath(path) == "items,12,name";
    assert path == [Key("items"), Index(12), Key("name")];
    ValidationErrorIsBadRequest([Issue(path, "Required")]);
    assert RenderPath(path) + " " + "Required" == "items,12,name Required";
  }

  /** Any other Error gives 500 with its own message, verbatim. */
  lemma PlainErrorIsInternal(msg: string)
    ensures HandleErrors(PlainErr(msg)) == ResponseError(500, Some(msg), "Internal Server Error")
  {
  }

  /** A thrown non-Error gives 500 and the fixed message, never anything of the value. */
  lemma NonErrorIsFallback(v: Value)
    ensures HandleErrors(Other(v)) == ResponseError(500, Some("Something went wrong"), "Internal Server Error")
  {
  }

  /** With no space in its keys, a path's text holds no space. */
  lemma {:induction false} RenderPathNoSpace(path: seq<PathSeg>)
    requires forall i :: 0 <= i < |path| && path[i].Key? ==> ' ' !in path[i].name
    ensures ' ' !in RenderPath(path)
    decreases |path|
  {
    if |path| >= 1 {
      var last := SegText(path[|path| - 1]);
      assert ' ' !in last;
      if |path| >= 2 {
        RenderPathNoSpace(path[..|path| - 1]);
      }
    }
  }

  /**
   * The message of a 400 response splits at its first space: before it is the path's text
   * (empty for an issue about the whole value), after it the issue's text.
   */
  lemma BadRequestMessageSplitsAtFirstSpace(issues: seq<Issue>)
    requires |issues| >= 1
    requires forall i :: 0 <= i < |issues[0].path| && issues[0].path[i].Key? ==> ' ' !in issues[0].path[i].name
    ensures var m := HandleErrors(ValidationErr(issues)).message.value;
      var k := |RenderPath(issues[0].path)|;
      && k < |m| && m[k] == ' ' && (forall j :: 0 <= j < k ==> m[j] != ' ')
      && m[..k] == RenderPath(issues[0].path) && m[k + 1..] == issues[0].message
  {
    var rendered := RenderPath(issues[0].path);
    var m := HandleErrors(ValidationErr(issues)).message.value;
    assert m == rendered + " " + issues[0].message;
    RenderPathNoSpace(issues[0].path);
    var k := |rendered|;
    assert m[..k] == rendered && m[k] == ' ' && m[k + 1..] == issues[0].message;
    assert forall j :: 0 <= j < k ==> m[j] == rendered[j];
  }

  /**
   * For a non-empty path whose keys hold no comma and no space, the 400 message gives back
   * the issue: up to its first space it splits at the commas into the path's segment texts,
   * and after that space it is the issue's text.
   */
  lemma BadRequestMessageRecoversIssue(issues: seq<Issue>)
    requires |issues| >= 1 && |issues[0].path| >= 1
    requires forall i :: 0 <= i < |issues[0].path| && issues[0].path[i].Key? ==> ',' !in issues[0].path[i].name
    requires forall i :: 0 <= i < |issues[0].path| && issues[0].path[i].Key? ==> ' ' !in issues[0].path[i].name
    ensures var m := HandleErrors(ValidationErr(issues)).message.value;
      exists k :: 0 <= k < |m| && m[k] == ' ' && (forall j :: 0 <= j < k ==> m[j] != ' ')
        && Split(m[..k]) == SegTexts(issues[0].path) && m[k + 1..] == issues[0].message
  {
    BadRequestMessageSplitsAtFirstSpace(issues);
    PathRoundTrip(issues[0].path);
    var m := HandleErrors(ValidationErr(issues)).message.value;
    var k := |RenderPath(issues[0].path)|;
    assert Split(m[..k]) == SegTexts(issues[0].path);
  }

  // ---------------------------------------------------------------------------------------
  // errorHandler and the response it writes
  // ---------------------------------------------------------------------------------------

  /** What the response body holds: nothing yet, an error record, or a handler's own JSON. */
  datatype SentBody = NoBody | ErrorJson(payload: ResponseError) | HandlerJson(value: Value)

  /** A snapshot of a response's observable state. */
  datatype ResponseState = ResponseState(headersSent: bool, statusCode: int, body: SentBody)

  /** The response state after `errorHandler(error, req, res, next)`. */
  function AfterErrorHandler(s: ResponseState, error: Thrown): (t: ResponseState)
    ensures t.headersSent
    ensures s.headersSent ==> t == s
    ensures !s.headersSent ==> t.body.ErrorJson? && t.statusCode == t.body.payload.statusCode
  {
    if s.headersSent then s
    else
      var responseError := HandleErrors(error);
      ResponseState(true, responseError.statusCode, ErrorJson(responseError))
  }

  /** A fresh response answered by the error handler carries the classified record. */
  lemma ErrorResponseIsClassified(s: ResponseState, error: Thrown)
    requires !s.headersSent
    ensures var t := AfterErrorHandler(s, error);
      t.body == ErrorJson(HandleErrors(error)) && IsErrorStatus(t.statusCode)
      && t.body.payload.errorCode == ReasonPhrase(t.statusCode)
  {
  }

  /** Only one response is ever written: a second error changes nothing. */
  lemma ErrorHandlerWritesOnce(s: ResponseState, first: Thrown, second: Thrown)
    ensures AfterErrorHandler(AfterErrorHandler(s, first), second) == AfterErrorHandler(s, first)
  {
  }

  /** A response object, updated in place by `res.status(...)` and `res.json(...)`. */
  class Response {
    var headersSent: bool
    var statusCode: int
    var body: SentBody

    /** A response nobody has written to: Express's default status is 200. */
    constructor ()
      ensures !headersSent && statusCode == 200 && body == NoBody
    {
      headersSent := false;
      statusCode := 200;
      body := NoBody;
    }

    function State(): ResponseState
      reads this
    {
      ResponseState(headersSent, statusCode, body)
    }

    /** `res.status(code)`: sets the status to send, nothing is sent yet. */
    method Status(code: int)
      modifies this
      ensures statusCode == code
      ensures headersSent == old(headersSent) && body == old(body)
    {
      statusCode := code;
    }

    /** `res.json(payload)`: sends headers and the body; only once per response. */
    method SendJson(payload: ResponseError)
      requires !headersSent
      modifies this
      ensures headersSent && body == ErrorJson(payload)
      ensures statusCode == old(statusCode)
    {
      body := ErrorJson(payload);
      headersSent := true;
    }
  }

  /** `errorHandler`: if nothing was sent yet, send the classified error. */
  method HandleError(error: Thrown, res: Response)
    modifies res
    ensures res.State() == AfterErrorHandler(old(res.State()), error)
    ensures old(res.headersSent) ==> unchanged(res)
  {
    if res.headersSent {
      return;
    }
    var responseError := HandleErrors(error);
    res.Status(responseError.statusCode);
    res.SendJson(responseError);
  }
}

/**
 * What `apiCall` does with the upstream reply (src/index.js, lines 20-27), and
 * the `json` success envelope (lines 30-31).
 *
 * `fetch` itself is not modelled: the reply is an input.  A reply whose
 * status is outside 200-299 makes `apiCall` throw an error whose message is
 * `API <status>: ` followed by at most 200 characters of the body (nothing
 * when the body cannot be read).  A 2xx reply yields the parsed JSON body.
 */
module Upstream {
  import opened Wrappers
  import Decimal

  /** The most characters of the reply body that an error message carries: `body.slice(0, 200)`. */
  const ExcerptLimit := 200

  /** The part of the body that the error message quotes. */
  function Excerpt(body: string): (e: string)
    ensures e <= body
    ensures |e| == if |body| < ExcerptLimit then |body| else ExcerptLimit
  {
    if |body| <= ExcerptLimit then body else body[..ExcerptLimit]
  }

  const ErrorPrefix := "API "

  /** `API ${res.status}: ${body.slice(0, 200)}`: line 25. */
  function ErrorMessage(status: nat, body: string): string {
    ErrorPrefix + Decimal.NatToString(status) + ": " + Excerpt(body)
  }

  /** The position of the first `c` in `s` (|s| when there is none). */
  function IndexOf(s: string, c: char): (i: nat)
    ensures i <= |s|
    ensures i < |s| ==> s[i] == c
    ensures forall j :: 0 <= j < i ==> s[j] != c
  {
    if s == [] then 0 else if s[0] == c then 0 else 1 + IndexOf(s[1..], c)
  }

  /**
   * Reads the status and the body excerpt back out of an error message:
   * the inverse of `ErrorMessage`, used to state that the message carries both.
   */
  function ParseErrorMessage(m: string): Option<(nat, string)> {
    if |m| < 4 || m[..4] != ErrorPrefix then None
    else
      var rest := m[4..];
      var i := IndexOf(rest, ':');
      var digits := rest[..i];
      if i + 2 <= |rest| && rest[i..i + 2] == ": " && Decimal.Canonical(digits)
      then Some((Decimal.ParseNat(digits), rest[i + 2..]))
      else None
  }

  lemma IndexOfDigits(digits: string, tail: string)
    requires Decimal.AllDigits(digits)
    ensures IndexOf(digits + ": " + tail, ':') == |digits|
  {
    var s := digits + ": " + tail;
    assert forall j :: 0 <= j < |digits| ==> s[j] == digits[j];
    assert s[|digits|] == ':';
  }

  /**
   * The message of a failed call names the status and quotes the body: both
   * can be read back out of it, whatever the status and whatever the body.
   */
  lemma ErrorMessageRoundTrip(status: nat, body: string)
    ensures ParseErrorMessage(ErrorMessage(status, body)) == Some((status, Excerpt(body)))
  {
    var digits := Decimal.NatToString(status);
    var m := ErrorMessage(status, body);
    assert m == ErrorPrefix + (digits + ": " + Excerpt(body));
    var rest := m[4..];
    assert rest == digits + ": " + Excerpt(body);
    IndexOfDigits(digits, Excerpt(body));
    assert rest[..|digits|] == digits;
    assert rest[|digits|..|digits| + 2] == ": ";
    assert rest[|digits| + 2..] == Excerpt(body);
    Decimal.ParseNatToString(status);
  }

  /** Two failures with different statuses never produce the same message. */
  lemma ErrorMessageDistinguishesStatus(s1: nat, b1: string, s2: nat, b2: string)
    requires ErrorMessage(s1, b1) == ErrorMessage(s2, b2)
    ensures s1 == s2 && Excerpt(b1) == Excerpt(b2)
  {
    ErrorMessageRoundTrip(s1, b1);
    ErrorMessageRoundTrip(s2, b2);
  }

  /** The reply of `fetch`, reduced to what `apiCall` reads; `body` is None when reading it fails. */
  datatype Reply = Reply(status: nat, body: Option<string>)

  /** `res.ok`. */
  predicate IsOk(status: nat) {
    200 <= status <= 299
  }

  /**
   * The outcome of `apiCall` once the reply is in: the parsed data, the error
   * thrown on line 25, or the error `res.json()` raises when the body cannot
   * be read or parsed (its message comes from the runtime, not from this code).
   */
  datatype CallOutcome<J> = Data(data: J) | ApiError(message: string) | BodyError

  /** Lines 23-27, with `res.json()` given as `parse`. */
  function Complete<J>(reply: Reply, parse: string -> Option<J>): CallOutcome<J> {
    if !IsOk(reply.status) then
      ApiError(ErrorMessage(reply.status, reply.body.GetOr("")))
    else if reply.body.Some? && parse(reply.body.value).Some? then
      Data(parse(reply.body.value).value)
    else
      BodyError
  }

  /**
   * A non-2xx reply never yields data: the call fails with a message that
   * starts with `API <status>: ` and continues with at most 200 characters
   * taken from the start of the body, or nothing if the body was unreadable.
   */
  lemma FailedReplyMessage<J>(reply: Reply, parse: string -> Option<J>)
    requires !IsOk(reply.status)
    ensures Complete(reply, parse).ApiError?
    ensures var m := Complete(reply, parse).message;
      var head := ErrorPrefix + Decimal.NatToString(reply.status) + ": ";
      head <= m && |m| - |head| <= ExcerptLimit
      && (reply.body.Some? ==> m[|head|..] <= reply.body.value)
      && (reply.body.None? ==> m == head)
  {
    var head := ErrorPrefix + Decimal.NatToString(reply.status) + ": ";
    var m := Complete(reply, parse).message;
    assert m == head + Excerpt(reply.body.GetOr(""));
    assert m[|head|..] == Excerpt(reply.body.GetOr(""));
  }

  /** Data comes back exactly when the status is 2xx and the body reads and parses. */
  lemma CompleteData<J>(reply: Reply, parse: string -> Option<J>)
    ensures Complete(reply, parse).Data? <==>
      IsOk(reply.status) && reply.body.Some? && parse(reply.body.value).Some?
    ensures Complete(reply, parse).Data? ==> Some(Complete(reply, parse).data) == parse(reply.body.value)
  {
  }

  // ---------------------------------------------------------------------------
  // The result handed back to the MCP client

  /** One element of `content`: `{ type, text }`. */
  datatype ContentItem = ContentItem(kind: string, text: string)

  /** A tool's return value: `{ content: [...] }`. */
  datatype ToolResult = ToolResult(content: seq<ContentItem>)

  /** A result made of a single text item. */
  function TextResult(text: string): (r: ToolResult)
    ensures |r.content| == 1 && r.content[0].kind == "text" && r.content[0].text == text
  {
    ToolResult([ContentItem("text", text)])
  }

  /** The text of a result that is a single text item. */
  function SingleText(r: ToolResult): Option<string> {
    if |r.content| == 1 && r.content[0].kind == "text" then Some(r.content[0].text) else None
  }

  /** `json(data)`: the data, serialised by `JSON.stringify(data, null, 2)` (given as `serialise`). */
  function Json<J>(data: J, serialise: J -> string): (r: ToolResult)
    ensures SingleText(r) == Some(serialise(data))
  {
    TextResult(serialise(data))
  }

  /** A single text item is all a result of `TextResult` holds, and its text is recovered intact. */
  lemma TextResultRoundTrip(text: string, r: ToolResult)
    ensures SingleText(TextResult(text)) == Some(text)
    ensures SingleText(r) == Some(text) ==> r == TextResult(text)
  {
    if SingleText(r) == Some(text) {
      assert r.content == [ContentItem("text", text)];
    }
  }
}

/**
 * One tool call from end to end: the server finds the tool by name and
 * validates the arguments against its schema, the handler either answers
 * directly (`drug_lookup` with nothing to search for) or calls `apiCall`,
 * which builds the query, sends one GET request and turns the reply into
 * data or an error; data is wrapped by `json`.
 *
 * The reply of `fetch`, `res.json()` and `JSON.stringify` are inputs
 * (`reply`, `parse`, `serialise`), and so is zod's URL test (`isUrl`).
 */
module Server {
  import opened Wrappers
  import opened Query
  import opened Upstream
  import opened Tools

  /** `API_BASE`, line 7: every request goes to this origin. */
  const ApiBase := "https://klaud-api.klaud0x.workers.dev"

  /** The `User-Agent` header of every request, line 21. */
  const UserAgent := "klaud-api-mcp/1.0"

  /** The GET request `apiCall` sends: `new URL(path, API_BASE)` with its query, and the header. */
  datatype Request = Request(url: string, query: Query, userAgent: string)

  /**
   * What the call comes to.  `Threw` is the error `apiCall` throws on a
   * non-2xx reply and `BodyUnreadable` the one `res.json()` raises; the MCP
   * library turns these, an unknown name and invalid arguments into error
   * results with texts of its own.
   */
  datatype Outcome =
    | Returned(result: ToolResult)
    | UnknownTool
    | InvalidArguments(names: seq<string>)
    | Threw(message: string)
    | BodyUnreadable

  /** Everything that happens before the request: lookup, validation, the handler's choice. */
  datatype Prepared = Stop(outcome: Outcome) | Send(tool: Tool, path: string, params: Params)

  function Prepare(name: string, args: Args, isUrl: string -> bool): Prepared {
    match ToolByName(name)
    case None => Stop(UnknownTool)
    case Some(t) =>
      match Validate(t, args, isUrl)
      case Err(names) => Stop(InvalidArguments(names))
      case Ok(m) =>
        match Handler(t, m)
        case Answer(text) => Stop(Returned(TextResult(text)))
        case Call(path, params) => Send(t, path, params)
  }

  /** `json(await apiCall(...))` once the reply is in. */
  function Finish<J>(c: CallOutcome<J>, serialise: J -> string): Outcome {
    match c
    case Data(d) => Returned(Json(d, serialise))
    case ApiError(message) => Threw(message)
    case BodyError => BodyUnreadable
  }

  /**
   * A call of the tool named `name`.  `sent` is the request issued, if any:
   * there is at most one, and none unless the name is known, the arguments
   * are valid and the handler does not answer by itself.
   */
  method Invoke<J>(name: string, args: Args, envKey: Option<string>, isUrl: string -> bool,
                   reply: Reply, parse: string -> Option<J>, serialise: J -> string)
    returns (outcome: Outcome, sent: Option<Request>)
    ensures Prepare(name, args, isUrl).Stop? ==>
      sent.None? && outcome == Prepare(name, args, isUrl).outcome
    ensures Prepare(name, args, isUrl).Send? ==>
      var s := Prepare(name, args, isUrl);
      sent == Some(Request(ApiBase + Endpoint(s.tool), ApiQuery(s.params, envKey), UserAgent))
      && Unique(sent.value.query)
      && outcome == Finish(Complete(reply, parse), serialise)
  {
    var prepared := Prepare(name, args, isUrl);
    if prepared.Stop? {
      return prepared.outcome, None;
    }
    PreparedRequest(name, args, isUrl);
    var query := BuildQuery(prepared.params, envKey);
    sent := Some(Request(ApiBase + prepared.path, query, UserAgent));
    outcome := Finish(Complete(reply, parse), serialise);
  }

  // ---------------------------------------------------------------------------
  // Properties of a call

  /**
   * A request is prepared only for a known tool with valid arguments; it
   * goes to that tool's own path and carries exactly its declared
   * parameters, each name once, with their validated values.
   */
  lemma PreparedRequest(name: string, args: Args, isUrl: string -> bool)
    requires Prepare(name, args, isUrl).Send?
    ensures var s := Prepare(name, args, isUrl);
      ToolByName(name) == Some(s.tool) && Name(s.tool) == name
      && Validate(s.tool, args, isUrl).Ok?
      && s.path == Endpoint(s.tool)
      && ParamNames(s.params) == SchemaNames(Schema(s.tool))
      && Unique(s.params)
      && forall i :: 0 <= i < |s.params| ==>
           s.params[i].1 == Get(Validate(s.tool, args, isUrl).value, s.params[i].0)
  {
    var s := Prepare(name, args, isUrl);
    var m := Validate(s.tool, args, isUrl).value;
    ToolByNameCorrect(name, s.tool);
    HandlerForwardsSchema(s.tool, m);
    HandlerParamsUnique(s.tool, m);
  }

  /**
   * Invalid arguments are reported, by name, before anything is sent: one
   * that is present but rejected, or a required one that is missing.
   */
  lemma InvalidArgumentsStop(name: string, t: Tool, args: Args, isUrl: string -> bool, p: Param)
    requires ToolByName(name) == Some(t) && p in Schema(t)
    requires (p.name in args && !Accepts(p.kind, args[p.name], isUrl))
          || (p.name !in args && p.presence == Required)
    ensures Prepare(name, args, isUrl).Stop?
    ensures Prepare(name, args, isUrl).outcome.InvalidArguments?
    ensures p.name in Prepare(name, args, isUrl).outcome.names
  {
    if p.name in args {
      RejectedArgumentReported(t, args, isUrl, p);
    } else {
      MissingRequiredReported(t, args, isUrl, p);
    }
  }

  /**
   * `drug_lookup` with neither `q` nor `target` a non-empty string answers
   * with the guidance text, as an ordinary result, and sends nothing; with
   * either one it requests `/api/drugs`.
   */
  lemma DrugLookupCall(args: Args, isUrl: string -> bool)
    requires Validate(DrugLookup, args, isUrl).Ok?
    ensures var s := Prepare("drug_lookup", args, isUrl);
      (s == Stop(Returned(TextResult(DrugGuidance))) <==> Blank(args, "q") && Blank(args, "target"))
      && (s.Send? <==> !(Blank(args, "q") && Blank(args, "target")))
      && (s.Send? ==> s.path == "/api/drugs")
  {
    DrugLookupGuard(args, isUrl);
  }

  /**
   * `pubmed_search` accepts an empty query string, and `apiCall` then drops
   * it: the request carries no `q` at all.
   */
  lemma PubmedEmptyQueryNotSent(args: Args, isUrl: string -> bool, envKey: Option<string>)
    requires "q" in args && args["q"] == ArgStr("")
    requires !("limit" in args && !(args["limit"].ArgNum? && 1 <= args["limit"].n <= 20))
    ensures Prepare("pubmed_search", args, isUrl).Send?
    ensures Count(ApiQuery(Prepare("pubmed_search", args, isUrl).params, envKey), "q") == 0
  {
    var s := Schema(PubmedSearch);
    ValidateAllOk(s, args, isUrl);
    assert Validate(PubmedSearch, args, isUrl).Ok?;
    var m := Validate(PubmedSearch, args, isUrl).value;
    ValidatedValue(PubmedSearch, args, isUrl, s[0]);
    assert m["q"] == Str("");
    var ps := Prepare("pubmed_search", args, isUrl).params;
    PreparedRequest("pubmed_search", args, isUrl);
    forall v: string
      ensures ("q", v) !in ApiQuery(ps, envKey)
    {
      EmptyValuesDropped(ps, envKey, "q", v);
    }
    assert Lookup(ApiQuery(ps, envKey), "q").None?;
  }

  /**
   * A non-2xx reply to a sent request never yields a result: the call ends
   * in the error whose message names the status and quotes the body.
   */
  lemma FailedReplyThrows<J>(reply: Reply, parse: string -> Option<J>, serialise: J -> string)
    requires !IsOk(reply.status)
    ensures Finish(Complete(reply, parse), serialise) == Threw(ErrorMessage(reply.status, reply.body.GetOr("")))
    ensures ParseErrorMessage(Finish(Complete(reply, parse), serialise).message) ==
      Some((reply.status, Excerpt(reply.body.GetOr(""))))
  {
    ErrorMessageRoundTrip(reply.status, reply.body.GetOr(""));
  }

  /** A successful reply yields one text item holding the serialised data. */
  lemma SuccessEnvelope<J>(reply: Reply, parse: string -> Option<J>, serialise: J -> string)
    requires IsOk(reply.status) && reply.body.Some? && parse(reply.body.value).Some?
    ensures var o := Finish(Complete(reply, parse), serialise);
      o.Returned? && |o.result.content| == 1
      && o.result.content[0].kind == "text"
      && o.result.content[0].text == serialise(parse(reply.body.value).value)
  {
    var d := parse(reply.body.value).value;
    TextResultRoundTrip(serialise(d), Json(d, serialise));
  }

  /**
   * `hn_top_stories` with category "ai" and limit 3, and no API key in the
   * environment: a GET of /api/hn with the query category=ai&limit=3.
   */
  lemma HnTopStoriesExample(isUrl: string -> bool)
    ensures var args := map["category" := ArgStr("ai"), "limit" := ArgNum(3)];
      var s := Prepare("hn_top_stories", args, isUrl);
      s.Send? && s.path == "/api/hn"
      && ApiQuery(s.params, None) == [("category", "ai"), ("limit", "3")]
  {
    HnExamplePrepared(isUrl);
    HnExampleQuery();
  }

  lemma HnExamplePrepared(isUrl: string -> bool)
    ensures Prepare("hn_top_stories", map["category" := ArgStr("ai"), "limit" := ArgNum(3)], isUrl)
      == Send(HnTopStories, "/api/hn", [("category", Str("ai")), ("limit", Int(3))])
  {
    var args := map["category" := ArgStr("ai"), "limit" := ArgNum(3)];
    assert Validate(HnTopStories, args, isUrl) == Ok(map["limit" := Int(3), "category" := Str("ai")]);
  }

  lemma HnExampleQuery()
    ensures ApiQuery([("category", Str("ai")), ("limit", Int(3))], None) == [("category", "ai"), ("limit", "3")]
  {
    var ps := [("category", Str("ai")), ("limit", Int(3))];
    assert Unique(ps) by {
      forall k
        ensures Count(ps, k) <= 1
      {
        CountOfNames(ps, k);
      }
    }
    NoKeyExact(ps, None);
    assert ps[..1] == [("category", Str("ai"))] && ps[..1][..0] == [];
    assert Filtered(ps) == [("category", "ai"), ("limit", "3")];
  }
}

/**
 * The seven tools the server registers (src/index.js, lines 41-130), as data:
 * each tool's argument schema, checked the way zod checks it, and its handler,
 * which forwards the validated arguments to one fixed upstream path.
 *
 * Validation follows zod's object schema: keys the schema does not declare
 * are dropped, a missing optional argument stays `undefined`, a missing
 * argument with a default takes the default, and every argument that is
 * missing while required, of the wrong JSON type, outside its bounds or
 * outside its enumeration is reported.
 */
module Tools {
  import opened Wrappers
  import opened Query

  datatype Tool =
    | HnTopStories
    | PubmedSearch
    | ArxivSearch
    | CryptoPrices
    | GithubTrending
    | ExtractUrl
    | DrugLookup

  /** The tools in the order they are registered. */
  const AllTools: seq<Tool> :=
    [HnTopStories, PubmedSearch, ArxivSearch, CryptoPrices, GithubTrending, ExtractUrl, DrugLookup]

  /** The name a client calls the tool by. */
  function Name(t: Tool): string {
    match t
    case HnTopStories => "hn_top_stories"
    case PubmedSearch => "pubmed_search"
    case ArxivSearch => "arxiv_search"
    case CryptoPrices => "crypto_prices"
    case GithubTrending => "github_trending"
    case ExtractUrl => "extract_url"
    case DrugLookup => "drug_lookup"
  }

  /** The server's lookup of a tool by the name in the client's request. */
  function ToolByName(name: string): Option<Tool> {
    if name == "hn_top_stories" then Some(HnTopStories)
    else if name == "pubmed_search" then Some(PubmedSearch)
    else if name == "arxiv_search" then Some(ArxivSearch)
    else if name == "crypto_prices" then Some(CryptoPrices)
    else if name == "github_trending" then Some(GithubTrending)
    else if name == "extract_url" then Some(ExtractUrl)
    else if name == "drug_lookup" then Some(DrugLookup)
    else None
  }

  /** The registry answers a name exactly when a tool carries it, and then with that tool. */
  lemma ToolByNameCorrect(name: string, t: Tool)
    ensures ToolByName(Name(t)) == Some(t)
    ensures ToolByName(name) == Some(t) <==> Name(t) == name
    ensures ToolByName(name).None? <==> forall u :: Name(u) != name
  {
    match t {
      case HnTopStories =>
      case PubmedSearch =>
      case ArxivSearch =>
      case CryptoPrices =>
      case GithubTrending =>
      case ExtractUrl =>
      case DrugLookup =>
    }
    if ToolByName(name).None? {
      forall u
        ensures Name(u) != name
      {
        assert ToolByName(Name(u)) == Some(u);
      }
    } else {
      assert Name(ToolByName(name).value) == name;
    }
  }

  /** No two tools share a name, and the registration list holds every tool once. */
  lemma NamesDistinct(t1: Tool, t2: Tool)
    ensures Name(t1) == Name(t2) <==> t1 == t2
    ensures t1 in AllTools
    ensures forall i, j :: 0 <= i < j < |AllTools| ==> Name(AllTools[i]) != Name(AllTools[j])
  {
    ToolByNameCorrect(Name(t1), t1);
    ToolByNameCorrect(Name(t1), t2);
  }

  /** The upstream path each tool is meant to call. */
  function Endpoint(t: Tool): string {
    match t
    case HnTopStories => "/api/hn"
    case PubmedSearch => "/api/pubmed"
    case ArxivSearch => "/api/arxiv"
    case CryptoPrices => "/api/crypto"
    case GithubTrending => "/api/github"
    case ExtractUrl => "/api/extract"
    case DrugLookup => "/api/drugs"
  }

  /** No two tools call the same path. */
  lemma EndpointsDistinct(t1: Tool, t2: Tool)
    ensures Endpoint(t1) == Endpoint(t2) <==> t1 == t2
  {
  }

  // ---------------------------------------------------------------------------
  // Argument schemas

  /** A JSON value in the client's argument object; `ArgOther` is a boolean, array or object. */
  datatype Arg = ArgStr(s: string) | ArgNum(n: int) | ArgNull | ArgOther

  type Args = map<string, Arg>

  /** What a parameter admits: `z.string()`, `z.enum([...])`, `z.number().min(lo).max(hi)`, `z.string().url()`. */
  datatype Kind = Text | Enum(options: seq<string>) | Range(lo: int, hi: int) | Url

  /** Whether a parameter is required, `.optional()`, or `.default(value)`. */
  datatype Presence = Required | Optional | Default(value: Value)

  datatype Param = Param(name: string, kind: Kind, presence: Presence)

  const HnCategories := ["ai", "crypto", "dev", "science", "security", "all"]
  const TrendingRanges := ["daily", "weekly", "monthly"]
  const DefaultCoins := "bitcoin,ethereum"

  /** The schema object passed to `server.tool`, in declaration order. */
  function Schema(t: Tool): seq<Param> {
    match t
    case HnTopStories => [
      Param("category", Enum(HnCategories), Default(Str("all"))),
      Param("limit", Range(1, 30), Default(Int(10)))]
    case PubmedSearch => [
      Param("q", Text, Required),
      Param("limit", Range(1, 20), Default(Int(5)))]
    case ArxivSearch => [
      Param("q", Text, Required),
      Param("category", Text, Optional),
      Param("limit", Range(1, 20), Default(Int(5)))]
    case CryptoPrices => [
      Param("ids", Text, Default(Str(DefaultCoins)))]
    case GithubTrending => [
      Param("language", Text, Optional),
      Param("since", Enum(TrendingRanges), Default(Str("daily")))]
    case ExtractUrl => [
      Param("url", Url, Required)]
    case DrugLookup => [
      Param("q", Text, Optional),
      Param("target", Text, Optional)]
  }

  function SchemaNames(ps: seq<Param>): (r: seq<string>)
    ensures |r| == |ps| && forall i :: 0 <= i < |ps| ==> r[i] == ps[i].name
  {
    seq(|ps|, i requires 0 <= i < |ps| => ps[i].name)
  }

  /** Does a present JSON value pass the parameter's check?  `isUrl` stands for zod's URL test. */
  predicate Accepts(kind: Kind, a: Arg, isUrl: string -> bool) {
    match kind
    case Text => a.ArgStr?
    case Enum(options) => a.ArgStr? && a.s in options
    case Range(lo, hi) => a.ArgNum? && lo <= a.n <= hi
    case Url => a.ArgStr? && isUrl(a.s)
  }

  /** Does a validated value have the parameter's kind? */
  predicate OfKind(kind: Kind, v: Value, isUrl: string -> bool) {
    match kind
    case Text => v.Str?
    case Enum(options) => v.Str? && v.s in options
    case Range(lo, hi) => v.Int? && lo <= v.n <= hi
    case Url => v.Str? && isUrl(v.s)
  }

  /**
   * Reference statement of what validation guarantees for one parameter:
   * a value of its kind, or `undefined` when it is optional.
   */
  predicate Conforms(p: Param, v: Value, isUrl: string -> bool) {
    OfKind(p.kind, v, isUrl) || (p.presence == Optional && v == Undef)
  }

  /** The value a JSON string or number becomes. */
  function ToValue(a: Arg): Value
    requires a.ArgStr? || a.ArgNum?
  {
    if a.ArgStr? then Str(a.s) else Int(a.n)
  }

  /** One parameter's check: its value after validation, or None when it is rejected. */
  function CheckParam(p: Param, args: Args, isUrl: string -> bool): Option<Value> {
    if p.name !in args then
      match p.presence
      case Required => None
      case Optional => Some(Undef)
      case Default(d) => Some(d)
    else if Accepts(p.kind, args[p.name], isUrl) then Some(ToValue(args[p.name]))
    else None
  }

  /** The validated arguments, or the names of every rejected parameter in schema order. */
  function ValidateAll(ps: seq<Param>, args: Args, isUrl: string -> bool): Result<map<string, Value>, seq<string>> {
    if ps == [] then Ok(map[])
    else
      var rest := ValidateAll(ps[1..], args, isUrl);
      match CheckParam(ps[0], args, isUrl)
      case Some(v) => if rest.Ok? then Ok(rest.value[ps[0].name := v]) else rest
      case None => Err([ps[0].name] + if rest.Err? then rest.error else [])
  }

  /** What the MCP server does with a call's arguments before the handler runs. */
  function Validate(t: Tool, args: Args, isUrl: string -> bool): Result<map<string, Value>, seq<string>> {
    ValidateAll(Schema(t), args, isUrl)
  }

  /** Validation succeeds exactly when every declared parameter passes its check. */
  lemma {:induction false} ValidateAllOk(ps: seq<Param>, args: Args, isUrl: string -> bool)
    ensures ValidateAll(ps, args, isUrl).Ok? <==> forall p :: p in ps ==> CheckParam(p, args, isUrl).Some?
    decreases |ps|
  {
    if ps != [] {
      ValidateAllOk(ps[1..], args, isUrl);
      assert forall p :: p in ps <==> p == ps[0] || p in ps[1..];
    }
  }

  /** A failed validation names exactly the parameters that fail their check. */
  lemma {:induction false} ValidateAllErr(ps: seq<Param>, args: Args, isUrl: string -> bool, n: string)
    requires ValidateAll(ps, args, isUrl).Err?
    ensures n in ValidateAll(ps, args, isUrl).error <==>
      exists p :: p in ps && p.name == n && CheckParam(p, args, isUrl).None?
    decreases |ps|
  {
    assert forall p :: p in ps <==> p == ps[0] || p in ps[1..];
    var rest := ValidateAll(ps[1..], args, isUrl);
    if rest.Err? {
      ValidateAllErr(ps[1..], args, isUrl, n);
    } else {
      ValidateAllOk(ps[1..], args, isUrl);
    }
  }

  predicate DistinctNames(ps: seq<Param>) {
    forall i, j :: 0 <= i < j < |ps| ==> ps[i].name != ps[j].name
  }

  /** A successful validation holds a value under each declared name and under no other. */
  lemma {:induction false} ValidateAllKeys(ps: seq<Param>, args: Args, isUrl: string -> bool)
    requires ValidateAll(ps, args, isUrl).Ok?
    ensures forall n :: n in ValidateAll(ps, args, isUrl).value <==> n in SchemaNames(ps)
    decreases |ps|
  {
    if ps != [] {
      var tail := ps[1..];
      ValidateAllKeys(tail, args, isUrl);
      assert SchemaNames(ps) == [ps[0].name] + SchemaNames(tail);
    }
  }

  /** Under each declared name, a successful validation holds that parameter's checked value. */
  lemma {:induction false} ValidateAllValues(ps: seq<Param>, args: Args, isUrl: string -> bool)
    requires DistinctNames(ps)
    requires ValidateAll(ps, args, isUrl).Ok?
    ensures var m := ValidateAll(ps, args, isUrl).value;
      forall p :: p in ps ==> p.name in m && CheckParam(p, args, isUrl) == Some(m[p.name])
    decreases |ps|
  {
    if ps != [] {
      var m := ValidateAll(ps, args, isUrl).value;
      var tail := ps[1..];
      assert DistinctNames(tail) by {
        forall i, j | 0 <= i < j < |tail|
          ensures tail[i].name != tail[j].name
        {
          assert tail[i] == ps[i + 1] && tail[j] == ps[j + 1];
        }
      }
      ValidateAllValues(tail, args, isUrl);
      var mt := ValidateAll(tail, args, isUrl).value;
      assert m == mt[ps[0].name := CheckParam(ps[0], args, isUrl).value];
      forall p | p in ps
        ensures p.name in m && CheckParam(p, args, isUrl) == Some(m[p.name])
      {
        if p != ps[0] {
          var j :| 0 <= j < |ps| && ps[j] == p;
          assert j > 0 && tail[j - 1] == p;
        }
      }
    }
  }

  /** Every schema has distinct names, and every default has the kind it defaults. */
  lemma SchemaWellFormed(t: Tool, isUrl: string -> bool)
    ensures DistinctNames(Schema(t))
    ensures forall p :: p in Schema(t) && p.presence.Default? ==> OfKind(p.kind, p.presence.value, isUrl)
  {
  }

  /**
   * After validation every declared argument is present and conforms to its
   * schema: in its enumeration, within its bounds, a string, a URL, or
   * `undefined` when it is optional.
   */
  lemma ValidatedConform(t: Tool, args: Args, isUrl: string -> bool)
    requires Validate(t, args, isUrl).Ok?
    ensures var m := Validate(t, args, isUrl).value;
      forall p :: p in Schema(t) ==> p.name in m && Conforms(p, m[p.name], isUrl)
  {
    var ps := Schema(t);
    SchemaWellFormed(t, isUrl);
    ValidateAllValues(ps, args, isUrl);
  }

  /** An argument that is present but not accepted is always reported, and nothing is validated. */
  lemma RejectedArgumentReported(t: Tool, args: Args, isUrl: string -> bool, p: Param)
    requires p in Schema(t) && p.name in args && !Accepts(p.kind, args[p.name], isUrl)
    ensures Validate(t, args, isUrl).Err?
    ensures p.name in Validate(t, args, isUrl).error
  {
    ValidateAllOk(Schema(t), args, isUrl);
    ValidateAllErr(Schema(t), args, isUrl, p.name);
  }

  /**
   * A required argument the client left out (`q` of the two searches, `url`
   * of `extract_url`) makes validation fail, and its name is reported.
   */
  lemma MissingRequiredReported(t: Tool, args: Args, isUrl: string -> bool, p: Param)
    requires p in Schema(t) && p.presence == Required && p.name !in args
    ensures Validate(t, args, isUrl).Err?
    ensures p.name in Validate(t, args, isUrl).error
  {
    ValidateAllOk(Schema(t), args, isUrl);
    ValidateAllErr(Schema(t), args, isUrl, p.name);
  }

  /** The checked value of an argument that is present, or the default when it is absent. */
  lemma ValidatedValue(t: Tool, args: Args, isUrl: string -> bool, p: Param)
    requires p in Schema(t) && Validate(t, args, isUrl).Ok?
    ensures var m := Validate(t, args, isUrl).value;
      p.name in m
      && (p.name in args ==>
            (args[p.name].ArgStr? || args[p.name].ArgNum?) && m[p.name] == ToValue(args[p.name]))
      && (p.name !in args && p.presence.Default? ==> m[p.name] == p.presence.value)
      && (p.name !in args && p.presence == Optional ==> m[p.name] == Undef)
  {
    SchemaWellFormed(t, isUrl);
    ValidateAllValues(Schema(t), args, isUrl);
  }

  /** `hn_top_stories`: a category from the six, `all` by default; a limit in 1..30, 10 by default. */
  lemma HnTopStoriesArguments(args: Args, isUrl: string -> bool)
    requires Validate(HnTopStories, args, isUrl).Ok?
    ensures var m := Validate(HnTopStories, args, isUrl).value;
      "category" in m && m["category"].Str? && m["category"].s in HnCategories
      && "limit" in m && m["limit"].Int? && 1 <= m["limit"].n <= 30
      && ("category" !in args ==> m["category"] == Str("all"))
      && ("limit" !in args ==> m["limit"] == Int(10))
  {
    var s := Schema(HnTopStories);
    ValidatedConform(HnTopStories, args, isUrl);
    ValidatedValue(HnTopStories, args, isUrl, s[0]);
    ValidatedValue(HnTopStories, args, isUrl, s[1]);
  }

  /** `pubmed_search` and `arxiv_search`: a limit in 1..20, 5 by default, and a string query. */
  lemma SearchArguments(t: Tool, args: Args, isUrl: string -> bool)
    requires t == PubmedSearch || t == ArxivSearch
    requires Validate(t, args, isUrl).Ok?
    ensures var m := Validate(t, args, isUrl).value;
      "q" in args && "q" in m && m["q"].Str?
      && "limit" in m && m["limit"].Int? && 1 <= m["limit"].n <= 20
      && ("limit" !in args ==> m["limit"] == Int(5))
  {
    var s := Schema(t);
    ValidatedConform(t, args, isUrl);
    ValidateAllOk(s, args, isUrl);
    assert CheckParam(s[0], args, isUrl).Some?;
    ValidatedValue(t, args, isUrl, s[|s| - 1]);
  }

  /** `github_trending`: `since` is daily, weekly or monthly, daily by default. */
  lemma GithubTrendingArguments(args: Args, isUrl: string -> bool)
    requires Validate(GithubTrending, args, isUrl).Ok?
    ensures var m := Validate(GithubTrending, args, isUrl).value;
      "since" in m && m["since"].Str? && m["since"].s in TrendingRanges
      && ("since" !in args ==> m["since"] == Str("daily"))
  {
    var s := Schema(GithubTrending);
    ValidatedConform(GithubTrending, args, isUrl);
    ValidatedValue(GithubTrending, args, isUrl, s[1]);
  }

  /** `crypto_prices`: `ids` is a string, "bitcoin,ethereum" by default. */
  lemma CryptoPricesArguments(args: Args, isUrl: string -> bool)
    requires Validate(CryptoPrices, args, isUrl).Ok?
    ensures var m := Validate(CryptoPrices, args, isUrl).value;
      "ids" in m && m["ids"].Str?
      && ("ids" !in args ==> m["ids"] == Str(DefaultCoins))
  {
    var s := Schema(CryptoPrices);
    ValidatedConform(CryptoPrices, args, isUrl);
    ValidatedValue(CryptoPrices, args, isUrl, s[0]);
  }

  /** `extract_url`: validation succeeds exactly when `url` is a string that passes the URL test. */
  lemma ExtractUrlArguments(args: Args, isUrl: string -> bool)
    ensures Validate(ExtractUrl, args, isUrl).Ok? <==>
      "url" in args && args["url"].ArgStr? && isUrl(args["url"].s)
  {
    ValidateAllOk(Schema(ExtractUrl), args, isUrl);
    assert Schema(ExtractUrl)[0] in Schema(ExtractUrl);
  }

  // ---------------------------------------------------------------------------
  // Handlers

  /** JavaScript truthiness of a validated value. */
  predicate Truthy(v: Value) {
    match v
    case Undef => false
    case Null => false
    case Str(s) => s != ""
    case Int(n) => n != 0
  }

  /** The argument is absent or the empty string: what makes `q` or `target` falsy once validated. */
  predicate Blank(args: Args, n: string) {
    n !in args || args[n] == ArgStr("")
  }

  /** The text `drug_lookup` answers with when it has nothing to search for. */
  const DrugGuidance := "Provide either q (drug name) or target (protein name)"

  /** What a handler does: answer with a fixed text, or call `apiCall(path, params)`. */
  datatype Action = Answer(text: string) | Call(path: string, params: Params)

  /** Destructuring `{ a, b }` from the validated object: a missing property reads as `undefined`. */
  function Get(m: map<string, Value>, name: string): Value {
    if name in m then m[name] else Undef
  }

  /** The handler of each tool, lines 51, 63, 77, 88, 101, 111 and 124-129. */
  function Handler(t: Tool, m: map<string, Value>): Action {
    match t
    case HnTopStories => Call("/api/hn", [("category", Get(m, "category")), ("limit", Get(m, "limit"))])
    case PubmedSearch => Call("/api/pubmed", [("q", Get(m, "q")), ("limit", Get(m, "limit"))])
    case ArxivSearch =>
      Call("/api/arxiv", [("q", Get(m, "q")), ("category", Get(m, "category")), ("limit", Get(m, "limit"))])
    case CryptoPrices => Call("/api/crypto", [("ids", Get(m, "ids"))])
    case GithubTrending => Call("/api/github", [("language", Get(m, "language")), ("since", Get(m, "since"))])
    case ExtractUrl => Call("/api/extract", [("url", Get(m, "url"))])
    case DrugLookup =>
      if !Truthy(Get(m, "q")) && !Truthy(Get(m, "target")) then Answer(DrugGuidance)
      else Call("/api/drugs", [("q", Get(m, "q")), ("target", Get(m, "target"))])
  }

  function ParamNames(ps: Params): (r: seq<string>)
    ensures |r| == |ps| && forall i :: 0 <= i < |ps| ==> r[i] == ps[i].0
  {
    seq(|ps|, i requires 0 <= i < |ps| => ps[i].0)
  }

  /**
   * Every call a handler makes goes to the tool's own path and forwards
   * exactly the declared parameters, under their declared names, in schema
   * order, each with its validated value.
   */
  lemma HandlerForwardsSchema(t: Tool, m: map<string, Value>)
    ensures Handler(t, m).Call? ==>
      var c := Handler(t, m);
      c.path == Endpoint(t)
      && ParamNames(c.params) == SchemaNames(Schema(t))
      && forall i :: 0 <= i < |c.params| ==> c.params[i].1 == Get(m, c.params[i].0)
  {
  }

  /** Only `drug_lookup` ever answers without calling the API. */
  lemma OnlyDrugLookupAnswers(t: Tool, m: map<string, Value>)
    ensures Handler(t, m).Answer? ==> t == DrugLookup && Handler(t, m).text == DrugGuidance
  {
  }

  /** A name the argument object holds at most once: the parameters of a handler's call. */
  lemma HandlerParamsUnique(t: Tool, m: map<string, Value>)
    ensures Handler(t, m).Call? ==> Unique(Handler(t, m).params)
  {
    var a := Handler(t, m);
    if a.Call? {
      forall k
        ensures Count(a.params, k) <= 1
      {
        CountOfNames(a.params, k);
      }
    }
  }

  /** Parameters with pairwise distinct names hold each name at most once. */
  lemma {:induction false} CountOfNames(ps: Params, k: string)
    requires forall i, j :: 0 <= i < j < |ps| ==> ps[i].0 != ps[j].0
    ensures Count(ps, k) <= 1
    decreases |ps|
  {
    if ps != [] {
      CountOfNames(ps[1..], k);
      if ps[0].0 == k {
        CountAbsent(ps[1..], k);
      }
    }
  }

  lemma {:induction false} CountAbsent(ps: Params, k: string)
    requires forall i :: 0 <= i < |ps| ==> ps[i].0 != k
    ensures Count(ps, k) == 0
    decreases |ps|
  {
    if ps != [] {
      CountAbsent(ps[1..], k);
    }
  }

  /**
   * The `drug_lookup` guard, lines 125-127: on validated arguments the
   * handler answers with the guidance text, and calls nothing, exactly when
   * neither `q` nor `target` is a non-empty string; otherwise it calls
   * `/api/drugs` with both.
   */
  lemma DrugLookupGuard(args: Args, isUrl: string -> bool)
    requires Validate(DrugLookup, args, isUrl).Ok?
    ensures var a := Handler(DrugLookup, Validate(DrugLookup, args, isUrl).value);
      (a == Answer(DrugGuidance) <==> Blank(args, "q") && Blank(args, "target"))
      && (a.Call? <==> !(Blank(args, "q") && Blank(args, "target")))
  {
    var s := Schema(DrugLookup);
    ValidatedValue(DrugLookup, args, isUrl, s[0]);
    ValidatedValue(DrugLookup, args, isUrl, s[1]);
    ValidateAllOk(s, args, isUrl);
    assert CheckParam(s[0], args, isUrl).Some? && CheckParam(s[1], args, isUrl).Some?;
  }
}

# klaud-api MCP adapter — a verified model of its request shaping

The server exposes seven tools of the klaud API (Hacker News stories, PubMed,
arXiv, crypto prices, GitHub trending, web-page extraction, drug lookup) to an
MCP client. Each tool declares a zod argument schema, and its handler passes the
validated arguments to `apiCall(path, params)`. `apiCall` builds the query
string, attaches the API key from the environment, sends one GET request and
either returns the parsed JSON or throws `API <status>: <body excerpt>`. The
handler wraps the data with `json(data)`: one text item holding the serialised
data.

The model has six modules, one file each:

- `Wrappers` (`wrappers.dfy`): `Option` and `Result`.
- `Decimal` (`decimal.dfy`): `String(n)` for integers, and its inverse `ParseNat`.
- `Query` (`query.dfy`): the query as a list of name/value pairs.
  - `SetParam` has `URLSearchParams.set` semantics.
  - `BuildQuery` is the loop of `apiCall` (a method with a `while` loop).
  - `ApiQuery` is the function that specifies `BuildQuery`.
  - `Filtered` is an independent reference definition: the kept arguments, in order.
- `Upstream` (`upstream.dfy`): the error message on a non-2xx reply, what `apiCall` does with the reply, and the `json` envelope.
- `Tools` (`tools.dfy`): the tool table as data.
  - Names, paths and schemas.
  - `Validate` checks the arguments the way zod does.
  - `Handler` is each tool's handler, including the `drug_lookup` guard.
- `Server` (`server.dfy`): one whole call.
  - `Prepare` covers the lookup, validation and the handler's choice.
  - `Invoke` is a method that calls `BuildQuery` and returns the outcome and the request sent, if any.

Library and runtime pieces are parameters of the model:

- `isUrl` stands for zod's `.url()` check.
- `parse` stands for `res.json()`.
- `serialise` stands for `JSON.stringify(data, null, 2)`.
- `reply` is the reply that `fetch` gets.
- `envKey` is `process.env.KLAUD_API_KEY`.

Two behaviours of the code are worth stating outright:

- `z.string()` accepts `""` for a required parameter, and `apiCall` then drops it. So `pubmed_search` with `q: ""` sends no `q` (`Server.PubmedEmptyQueryNotSent`).
- `drug_lookup` with neither `q` nor `target` returns an ordinary text result holding the guidance sentence, not an error (`Server.DrugLookupCall`).

## Model

| member | source | states |
|---|---|---|
| `Decimal.NatToString` | src/index.js:14 | `String(n)` of a non-negative integer is a non-empty string of decimal digits with no leading zero; it has one digit exactly when n < 10 |
| `Decimal.IntToString` | src/index.js:14 | `String(i)` is canonical digits for i >= 0, and a minus sign followed by canonical digits for i < 0 |
| `Decimal.ParseNatToString` | src/index.js:14 | reading back the digits that `String(n)` writes gives n again, so a numeric argument such as `limit` is sent without loss |
| `Decimal.NatToStringParse` | src/index.js:25 | every canonical digit string is `String` of its own value (the other direction of the round trip) |
| `Decimal.NatToStringInjective` | src/index.js:25 | two different statuses never print the same |
| `Query.Kept` | src/index.js:14 | the filter: a value is kept unless it is `undefined`, `null` or `""`; described by `Query.FilteredMembership` and `Query.EmptyValuesDropped` |
| `Query.Stringify` | src/index.js:14 | `String(v)` of every value that passes the filter is non-empty |
| `Query.ReplaceFirstFacts` | src/index.js:14 | replacing the first entry named k leaves exactly one k entry, holding the new value, at the old position; entries with other names are unchanged and stay in order |
| `Query.SetParam` | src/index.js:14 | `URLSearchParams.set(k, v)`: afterwards exactly one entry is named k and it holds v; entries with other names are unchanged and in the same order; (k, v) is appended when k was absent; k keeps the position of its first entry when k was present |
| `Query.ReplaceFirstShape` | src/index.js:18 | `set` on a present name keeps the entries before its first occurrence, puts the new entry in that place, and keeps the later entries that have other names |
| `Query.SetParamUnique` | src/index.js:13-18 | `set` never creates a second entry under any name |
| `Query.SetParamOverwrites` | src/index.js:18 | setting a name twice leaves only the second value, exactly as one `set` with it would |
| `Query.BuildQuery` | src/index.js:12-18 | the query built by the loop and the key step equals `ApiQuery(params, envKey)`, and no name occurs in it twice |
| `Query.ApiQueryUnique` | src/index.js:13-18 | whatever the arguments, each parameter name occurs at most once in the query |
| `Query.FilteredCount` | src/index.js:13-14 | filtering never adds entries under a name |
| `Query.SetAllIsFiltered` | src/index.js:13-15 | on an argument object (distinct names), the sequence of `set` calls yields exactly the kept entries, stringified, in the object's order |
| `Query.FilteredMembership` | src/index.js:13-14 | (k, s) is in the filtered query if and only if the arguments hold, under k, a value that is not `undefined`, `null` or `""` and whose `String` is s |
| `Query.EmptyValuesDropped` | src/index.js:13-18 | for every name the environment key does not override: (k, s) is in the sent query if and only if the argument under k is kept and prints as s. So `undefined`, `null` and `""` are never sent |
| `Query.WithKey` | src/index.js:17-18 | the key step: `set("key", key)` when the environment key is a non-empty string, otherwise nothing; described by `Query.NoKeyExact` and `Query.EnvKeyOverrides` |
| `Query.ApiQuery` | src/index.js:13-18 | the query `apiCall` builds: every `set` of the loop, then the key step; specifies `Query.BuildQuery`, and is described by `Query.ApiQueryUnique`, `Query.SetAllIsFiltered` and `Query.EmptyValuesDropped` |
| `Query.NoKeyExact` | src/index.js:17-18 | when the environment key is absent or empty, the query is exactly the filtered arguments |
| `Query.EnvKeyOverrides` | src/index.js:17-18 | when the environment key is non-empty, the query holds exactly one `key` entry, equal to it, even if the caller passed a `key`; the other entries are the filtered arguments in their order |
| `Upstream.Excerpt` | src/index.js:24-25 | the quoted body is a prefix of the body, of length min(length of the body, 200) |
| `Upstream.ErrorMessage` | src/index.js:25 | `API <status>: <first 200 characters of the body>`; its inverse is `Upstream.ParseErrorMessage`, by `Upstream.ErrorMessageRoundTrip` |
| `Upstream.IndexOfDigits` | src/index.js:25 | in `<status>: <excerpt>` the first colon is the one just after the status digits |
| `Upstream.ErrorMessageRoundTrip` | src/index.js:25 | the status and the body excerpt can both be read back out of the error message, whatever the status and body |
| `Upstream.ErrorMessageDistinguishesStatus` | src/index.js:25 | equal error messages have equal statuses and equal excerpts |
| `Upstream.Complete` | src/index.js:23-27 | what `apiCall` makes of the reply: the error on a non-2xx status, else the parsed body, else the body error; described by `Upstream.FailedReplyMessage` and `Upstream.CompleteData` |
| `Upstream.FailedReplyMessage` | src/index.js:23-25 | a non-2xx reply gives no data; the message is `API <status>: ` plus at most 200 characters taken from the start of the body, or nothing more if reading the body failed |
| `Upstream.CompleteData` | src/index.js:23-27 | `apiCall` returns data exactly when the status is 2xx and the body reads and parses, and then the data is the parsed body |
| `Upstream.TextResult` | src/index.js:126 | a text result holds exactly one content item, of type `text`, with the given text |
| `Upstream.Json` | src/index.js:30-31 | `json(data)` is a single text item holding the serialised data |
| `Upstream.TextResultRoundTrip` | src/index.js:30-31 | the text of a single-text result is recovered intact, and a result with one text item is exactly that result |
| `Tools.ToolByNameCorrect` | src/index.js:42-130 | the registry finds a tool for a name exactly when some tool has that name, and then it finds that tool |
| `Tools.NamesDistinct` | src/index.js:42-130 | the seven tool names are pairwise distinct, and the registration list `AllTools` holds every tool under a distinct name |
| `Tools.EndpointsDistinct` | src/index.js:51-128 | the seven upstream paths are pairwise distinct |
| `Tools.Schema` | src/index.js:45-123 | each tool's zod schema, parameter by parameter, with its kind, bounds, enumeration, default or optionality; described by `Tools.SchemaWellFormed` and the per-tool argument lemmas |
| `Tools.CheckParam` | src/index.js:45-123 | zod's check of one parameter: an absent one is rejected when required, `undefined` when optional, its default otherwise; a present one is kept when it has the parameter's kind |
| `Tools.ValidateAll` | src/index.js:45-123 | zod's parse of the object schema: the checked values of all declared parameters, or the names of every rejected one; described by `Tools.ValidateAllOk`, `Tools.ValidateAllErr`, `Tools.ValidateAllKeys` and `Tools.ValidateAllValues` |
| `Tools.Validate` | src/index.js:45-123 | the validation of one tool's arguments against its schema |
| `Tools.ValidateAllOk` | src/index.js:45-123 | validation succeeds if and only if every declared parameter passes its check (present and accepted, or absent and optional or defaulted) |
| `Tools.ValidateAllErr` | src/index.js:45-123 | a failed validation lists a name if and only if a declared parameter of that name fails its check |
| `Tools.ValidateAllKeys` | src/index.js:45-123 | the validated object has a value for every declared parameter (`undefined` for an absent optional one, where zod omits the key) and for nothing else; undeclared keys are stripped |
| `Tools.ValidateAllValues` | src/index.js:45-123 | under each declared name, the validated object holds that parameter's checked value |
| `Tools.SchemaWellFormed` | src/index.js:45-123 | each schema has distinct parameter names, and every default is of the kind it defaults |
| `Tools.ValidatedConform` | src/index.js:45-123 | after validation every declared argument conforms to its schema: in its enumeration, within its bounds, a string, a URL, or `undefined` when it is optional |
| `Tools.RejectedArgumentReported` | src/index.js:45-123 | an argument that is present but of the wrong type, out of range or out of its enumeration makes validation fail, and its name is reported |
| `Tools.MissingRequiredReported` | src/index.js:59-110 | a required argument that is missing (`q` of `pubmed_search` and `arxiv_search`, `url` of `extract_url`) makes validation fail, and its name is reported |
| `Tools.ValidatedValue` | src/index.js:45-123 | a present argument keeps its value; an absent one takes its default, or stays `undefined` when it is optional |
| `Tools.HnTopStoriesArguments` | src/index.js:45-50 | `hn_top_stories`: the category is one of ai, crypto, dev, science, security, all (default `all`); the limit is in 1..30 (default 10) |
| `Tools.SearchArguments` | src/index.js:58-76 | `pubmed_search` and `arxiv_search`: `q` is a string the caller supplied; the limit is in 1..20 (default 5) |
| `Tools.GithubTrendingArguments` | src/index.js:95-100 | `github_trending`: `since` is daily, weekly or monthly (default daily) |
| `Tools.CryptoPricesArguments` | src/index.js:84-87 | `crypto_prices`: `ids` is a string, "bitcoin,ethereum" by default |
| `Tools.ExtractUrlArguments` | src/index.js:108-110 | `extract_url` validates if and only if `url` is a string that passes the URL check |
| `Tools.Handler` | src/index.js:51-128 | each handler: a call of `apiCall` on the tool's path with its destructured arguments, or the guidance text of `drug_lookup`; described by `Tools.HandlerForwardsSchema` and `Tools.DrugLookupGuard` |
| `Tools.HandlerForwardsSchema` | src/index.js:51-128 | every call a handler makes goes to its tool's own path, forwards exactly the declared parameters under their declared names in schema order, and gives each its validated value |
| `Tools.OnlyDrugLookupAnswers` | src/index.js:124-127 | only `drug_lookup` ever answers without a request, and then only with the guidance text |
| `Tools.HandlerParamsUnique` | src/index.js:51-128 | a handler's argument object never repeats a name |
| `Tools.DrugLookupGuard` | src/index.js:124-129 | on validated arguments, `drug_lookup` answers with the guidance text if and only if `q` and `target` are each absent or empty; otherwise it calls `/api/drugs` |
| `Server.Prepare` | src/index.js:42-130 | the lookup of the tool, validation, and the handler's choice to answer or to call; described by `Server.PreparedRequest` |
| `Server.Finish` | src/index.js:27-31 | `json(await apiCall(...))` once the reply is in: data wrapped in a text result, or the error; described by `Server.FailedReplyThrows` and `Server.SuccessEnvelope` |
| `Server.Invoke` | src/index.js:11-31 | no request is sent for an unknown name, invalid arguments or the `drug_lookup` guard; otherwise exactly one request, to the API origin plus the tool's path, with query `ApiQuery(params, envKey)` (no repeated names), and the outcome follows the reply |
| `Server.PreparedRequest` | src/index.js:42-130 | a request is prepared only for a known tool with valid arguments; it goes to that tool's path and carries exactly its declared parameters, each once, with their validated values |
| `Server.InvalidArgumentsStop` | src/index.js:45-123 | an out-of-range, out-of-enumeration or wrongly typed argument, or a missing required one, stops the call with that parameter named, before any request |
| `Server.DrugLookupCall` | src/index.js:124-129 | `drug_lookup` with neither `q` nor `target` non-empty returns the guidance text as an ordinary result and sends nothing; otherwise it requests `/api/drugs` |
| `Server.PubmedEmptyQueryNotSent` | src/index.js:59-63 | `pubmed_search` with `q: ""` is valid, and its request carries no `q` at all |
| `Server.FailedReplyThrows` | src/index.js:23-25 | a non-2xx reply ends the call in the thrown error, and its status and excerpt can be read back from the message |
| `Server.SuccessEnvelope` | src/index.js:27-31 | a 2xx reply whose body parses yields one content item of type `text`, holding the serialised data |
| `Server.HnTopStoriesExample` | src/index.js:42-52 | `hn_top_stories` with category ai, limit 3 and no key requests `/api/hn` with query `category=ai&limit=3` |
| `Server.HnExamplePrepared` | src/index.js:45-51 | those arguments validate unchanged and are handed to `apiCall("/api/hn", …)` |
| `Server.HnExampleQuery` | src/index.js:13-15 | the query for those arguments is `category=ai`, then `limit=3` |

## Left out

- Server and transport wiring are not modelled: `McpServer`, `StdioServerTransport`, `main`, logging and `process.exit` (lines 36-39, 134-143). They are library and process plumbing.
- The network is not modelled: `fetch` is replaced by the `reply` input. A `fetch` that rejects (DNS failure, refused connection) propagates its runtime error unchanged through `apiCall`; that case is not represented.
- The error texts that the MCP library sends back are not modelled. This covers an unknown tool name, failed validation, and errors thrown by a handler (which the library turns into an error result). The model stops at `UnknownTool`, `InvalidArguments(names)`, `Threw(message)` and `BodyUnreadable`.
- Zod's URL test is not modelled; it is the `isUrl` parameter. zod's own issue messages are not modelled either; validation reports only the offending parameter names.
- Percent-encoding of the query and the textual URL are not modelled. The query is a list of name/value pairs, and the request URL is the origin plus the path.
- `JSON.stringify(data, null, 2)` and `res.json()` are not modelled; they are the `serialise` and `parse` parameters.
- `Decimal.IntToString` matches `String(n)` only for integers of magnitude below 10^21 that a double holds exactly. `String` prints larger numbers in exponent form (`1e+21`), and above 2^53 digits are lost. Only validated limits (at most 30) and HTTP statuses (three digits) reach it in this program.
- Floating-point numbers are not modelled. `z.number()` also admits non-integers such as 2.5, which `String` prints with a fraction; numeric arguments here are integers.
- `Upstream.Excerpt` counts Unicode characters, while `body.slice(0, 200)` counts UTF-16 code units. A body with any character outside the Basic Multilingual Plane in its first 200 units gets a longer excerpt here: for a body of 150 emoji, JavaScript quotes 100 and the model quotes all 150. A surrogate pair that JavaScript cuts at unit 200 leaves a lone surrogate, which a Dafny string cannot hold.
- Tool descriptions and the `.describe()` texts are not modelled. They are documentation for the client and do not affect behaviour.
- `src/test.js` is a network smoke test and is not part of this model. Its `klaudFetch` names the key `apiKey`, keeps `null`, and mutates its argument; `apiCall` does none of these.
- `Query.SetAllIsFiltered`, `Query.EmptyValuesDropped`, `Query.NoKeyExact` and `Query.EnvKeyOverrides` assume argument names are distinct (`Unique`). A JavaScript object's keys always are; `Query.ApiQueryUnique` and `Query.BuildQuery` hold without that assumption.

# Verified model of the userscript helper library's sequential core

The library ships as three near-copies (`functions.user.js`, `tampermonkey-tools.js`,
`tools.js`). This project models four pieces of logic from it in Dafny, one module each, and proves their properties:

- **`asyncPool`, the bounded task pool** (`Pool`). It is identical in the three files. The model is a class whose fields are the pool's state:
  - `all`: the launched tasks;
  - `executing`: the tracking handles;
  - the status of every task;
  - the items the worker has been called with;
  - where the pool's own control is.

  `Launch` is one iteration of the `for…of` loop, up to and including its `Promise.race`. `Complete` is the environment settling one pending task; which task settles is the only nondeterminism. `Join` is the final `Promise.all`.
- **The two retry runners** (`Retry`). One is the top-level `retry(func, times = 5, verify)` of functions.user.js. The other is the `retry(func, times)` nested inside `request` in tampermonkey-tools.js and tools.js, driven by `while (use--)`. The wrapped operation is the sequence of outcomes its successive calls produce. Each runner is a loop proved equal to a recursive reference function whose contract states how many calls are made and how the promise settles.
- **Request preparation**:
  - `Request` covers functions.user.js and tampermonkey-tools.js: method normalisation, the href/method gate, the `key=value&…` body, the GET joiner, the headers, the defaults, the object handed to the transport, and the retry around the transport.
  - `Form` holds the string side, with its round trips.
  - `ToolsRequest` covers the `||` option defaulting of tools.js.

  `encodeURIComponent` is an uninterpreted function parameter.
- **Helpers of functions.user.js** (`Helpers`, `Link`):
  - `str2len`;
  - the byte loop of `response2array`;
  - the rule search `_run` of `Link.match`, with the `Link` constructor check;
  - the XPath/CSS choice of `Hunter.query`.

  RegExp tests are an abstract predicate. The hostname and pathname are inputs.

Some definitions are no code of the library but the reading side its strings are checked against: `Form.Split`, `Form.Find`, `Form.NonEmpty` and `Form.Parse` read a body back as a server does, `Form.Resource`, `Form.FragmentOf`, `Form.PathOf` and `Form.QueryOf` take a URL apart, and `Helpers.XUserDefined` is the `x-user-defined` decoder of the WHATWG Encoding Standard. They have no row of their own below.

`JsText` gives strings the JavaScript `trim` and `toUpperCase` the code relies on. `Wrappers` holds `Option` and `Result`. JavaScript falsy values are modelled by one representative each: `""` for a missing or empty string, `None` for `undefined`/`null`, and `Some(0)` for the number zero.

## Model

| member | source | states |
|---|---|---|
| Pool.IndexOf | functions.user.js:111 | `indexOf` gives the first position of the entry, or -1 exactly when it is absent |
| Pool.SpliceOne | functions.user.js:111 | `splice(start, 1)` removes the element at a valid start, the last element for -1, and nothing past the end |
| Pool.SpliceRemovesOwnEntry | functions.user.js:109-113 | when the handle is present once, `splice(indexOf(wrap), 1)` removes exactly that handle, keeps the rest in order, shortens the list by one and keeps it duplicate-free |
| Pool.SpliceOfMissingEntryDropsLast | functions.user.js:111 | if the handle were missing, `indexOf` gives -1 and the splice would drop another task's handle (the last one) |
| Pool.FirstSettled | functions.user.js:120 | `Promise.race` is decided by the first already-settled contender in array order (every contender before it is pending), and stays pending exactly when all contenders are pending |
| Pool.FirstRejection | functions.user.js:124 | `Promise.all` rejects with the reason of the first rejected task in array order (no task before it rejected), and has no rejection exactly when no task rejected |
| Pool.TrackLaunch | functions.user.js:104-114 | launching a task and pushing its handle keeps the bookkeeping: each handle once, present exactly while its task is not fulfilled |
| Pool.TrackComplete | functions.user.js:109-113 | settling a pending tracked task keeps that bookkeeping; a fulfilled task's own handle is the one spliced out, and the list shrinks by one |
| Pool.RaceIsDecidedByRejection | functions.user.js:109-120 | a race over the handles can only be decided by a rejection, and any existing rejection decides it |
| Pool.SettleKeepsPhase | functions.user.js:109-124 | a task settling while the pool runs, races, joins or has finished keeps what each phase guarantees: handle bound, pending contenders, no rejection while joining, and results in input order |
| Pool.TrackedBoundsPending | functions.user.js:105-121 | the tasks in flight never outnumber the handles |
| Pool.AsyncPool.constructor | functions.user.js:93-98 | the pool starts with nothing launched, nothing tracked and nothing invoked |
| Pool.AsyncPool.Launch | functions.user.js:99-121 | one loop iteration calls the worker on the next item in input order and records the task. Ungated (`limit >= arr.length`) it never waits. Gated, it pushes the handle and races once `limit` handles are tracked. Afterwards at most max(limit, 1) handles are tracked and at most max(limit, 1) tasks are in flight, and an existing rejection makes the race reject |
| Pool.AsyncPool.Complete | functions.user.js:109-124 | a settling task changes only its own status. A fulfilled tracked task removes exactly its own handle; a rejected one stays. A pending race or `Promise.all` reacts as the promise semantics say |
| Pool.AsyncPool.Join | functions.user.js:122-124 | after the loop every item has been invoked once, in order. `Promise.all` rejects with the first rejection in input order, resolves to the values in input order when all are fulfilled, and waits otherwise |
| Pool.AsyncPool.TrackedBoundsInFlight | functions.user.js:105-121 | in gated mode, tasks in flight never outnumber the tracked handles |
| Pool.AsyncPool.RejectionEndsPool | functions.user.js:109-124 | once a task has rejected, the pool is never racing, joining or fulfilled, and in gated mode its handle is still tracked |
| Pool.ResultsKeepInputOrder | functions.user.js:99-124 | with `limit >= arr.length` and completions in the order B, C, A, the results are still `[A, B, C]`, each item invoked once |
| Pool.EmptyInputResolvesAtOnce | functions.user.js:99-124 | an empty input resolves to `[]` without calling the worker |
| Pool.RejectionStopsLaunching | functions.user.js:114-121 | with limit 1, a first task that rejects during the race rejects the pool, and the second item is never launched |
| Retry.Budget | functions.user.js:136 | `times \|\| 5`: a non-zero count is kept; 0, `null` and `undefined` give 5; the budget is never 0 |
| Retry.Checked | functions.user.js:139-142 | a response that `verify` throws on counts as a failure carrying what `verify` threw; `verify`'s return value is ignored |
| Retry.RunFrom | functions.user.js:137-152 | at most the budget's calls (for a positive budget). All calls but the last fail. It resolves with the first passing response, rejects with the last attempt's error once the budget is spent, and keeps retrying past the supplied outcomes for a negative budget |
| Retry.Retry | functions.user.js:135-154 | the `while (true)` loop with its decrement-before-call counter settles exactly as `RunFrom` of `times \|\| 5` says, after the same number of calls |
| Retry.NestedFrom | tampermonkey-tools.js:232-247 | `while (use--)` never settles for 0. Otherwise it calls at most n times for n ≥ 1, resolves on the first success without validation, and rejects with the last error after n failures |
| Retry.RetryNested | tampermonkey-tools.js:232-247 | the loop settles exactly as `NestedFrom` says, after the same number of calls |
| Retry.NestedAgreesWithTopLevel | tampermonkey-tools.js:232-249 | for any non-zero count the nested runner behaves as the top-level one without `verify` |
| Retry.ResolvesIffSomeAttemptPasses | functions.user.js:137-144 | the runner resolves exactly when some attempt within the budget passes, and then with the first passing response |
| Retry.ExhaustedRejectsWithLastError | functions.user.js:145-150 | after n failing attempts with budget n, it rejects with the n-th attempt's error after n calls |
| Retry.FailsTwiceThenSucceeds | functions.user.js:137-144 | with budget 3, two failures then a success resolve with that success after three calls |
| Retry.VerifyFailureIsRetried | functions.user.js:140-147 | responses that `verify` rejects are retried and the budget still bounds the calls |
| Retry.DefaultBudgetIsFive | functions.user.js:135-150 | with no count or count 0, five failing attempts reject with the fifth error after five calls |
| Form.SplitJoin | functions.user.js:183-186 | splitting undoes `join("&")` when no part contains the separator |
| Form.Join | functions.user.js:186 | `join(sep)` of no parts is empty; otherwise the result starts with the first part and ends with the last |
| Form.Entry | functions.user.js:184-185 | an entry is the raw key, then `=`, then the encoded value |
| Form.Entries | functions.user.js:183-186 | one `key=encodeURIComponent(value)` entry per key, in key order |
| Form.Serialize | functions.user.js:183-186 | the serialised object body is empty exactly when the object has no keys |
| Form.SerializeRoundTrip | functions.user.js:182-187 | reading a serialised object body back (split at `&`, then at the first `=`) gives the keys and encoded values in order, when keys hold no `=` or `&` and values are encoded |
| Form.Joiner | functions.user.js:193-196 | the joiner is `?` for an href with no `?`, nothing when the href ends in `?` or `&`, and `&` otherwise |
| Form.AppendQuery | functions.user.js:192-198 | an empty body leaves the href unchanged |
| Form.AppendToBareHref | functions.user.js:193-197 | on text with no `?`, the body becomes everything after the new `?` and the text everything before it |
| Form.AppendToQuery | functions.user.js:194-197 | on text with a `?`, the part before the first `?` is unchanged and the part after it is extended by the joiner and the body |
| Form.AppendQueryExtendsQueryPart | functions.user.js:190-198 | as written, read on text where `#` is ordinary: the part before the first `?` never changes, and the parameters after it become the old parameters followed by the body's, none lost, glued to another, or left empty, as long as that part does not end in a stray `?` |
| Form.FragmentSwallowsBody | functions.user.js:192-197 | as written, `/p#top` with body `a=1` becomes `/p#top?a=1`, whose query is empty and whose fragment is `#top?a=1` |
| Form.AppendQueryBeforeFragment | functions.user.js:192-197 | corrected: the body is appended to the href's text before its `#`, and the fragment follows; without a `#` this is the code as written, and an empty body leaves the href alone |
| Form.AppendQueryExtendsQuery | functions.user.js:190-198 | corrected: appending a body that holds no `#` never changes the URL's path or fragment, and its query parameters become the old parameters followed by the body's, none lost, glued to another, or left empty, as long as the query does not end in a stray `?` |
| Form.FragmentKeptAfterBody | functions.user.js:192-197 | corrected: `/p#top` with body `a=1` becomes `/p?a=1#top` |
| Form.StrayQuestionMarkGluesParameters | functions.user.js:195 | an href whose query ends in a second `?` gets the body glued onto its last parameter |
| Form.QueryFieldsConcat | functions.user.js:197 | the parameters of `a&b` are those of `a` followed by those of `b` |
| Form.TrailingAmpersand | functions.user.js:195 | a trailing `&` adds no parameter, so appending directly after it is right |
| Request.NormalizeMethod | functions.user.js:178 | a falsy method becomes GET. Any other becomes its upper-cased, trimmed self, which has no lowercase letter and no surrounding whitespace |
| Request.NormalizeMethodIdempotent | functions.user.js:178 | normalising a normalised method again changes nothing, unless the result was empty |
| Request.PaddedLowercasePostIsPost | functions.user.js:178-179 | ` post\n` normalises to `POST` |
| Request.VerbOf | functions.user.js:179 | only `GET` and `POST` pass the gate |
| Request.OrNumber | functions.user.js:210-211 | `x \|\| d`: a non-zero number is kept, 0 and `undefined` give the default, and a non-zero default gives a non-zero result |
| Request.FirstOf | functions.user.js:212 | `onprogress \|\| on_progress`: the first callback given wins |
| Request.BodyText | functions.user.js:182-187 | an object body is serialised, and is empty exactly when the object has no keys; any other body is sent as it is |
| Request.ResponseType | functions.user.js:191 | `params.responseType ?? d` keeps a given value and falls back on a missing or `null` one |
| Request.DefaultResponseType | functions.user.js:190-200 | the fallback `responseType` is `document` for GET and `json` for POST |
| Request.Passthrough | functions.user.js:188-189 | the copied `params` reach the request object except `headers` and any key the request object sets itself, with values unchanged |
| Request.PrepareBase | functions.user.js:178-212 | no request for an empty href or a method other than GET/POST. A GET appends the body to the href as written and keeps the headers. A POST keeps the href, and its headers are the caller's keys plus `Content-Type` (set to the form type) with the caller's other values kept. The timeout is `timeout \|\| 60000`, the retry count `retrytimes \|\| 3` (neither ever 0), and the progress callback `onprogress \|\| on_progress` of the options |
| Request.PrepareAsWritten | functions.user.js:188-200 | as written, the `responseType` default is stored into the caller's `params`, not into the request object |
| Request.ResponseTypeDefaultNeverSent | functions.user.js:188-191 | a GET with empty `params` sends no `responseType`, while the caller's `params` gains `document` |
| Request.Prepare | functions.user.js:188-212 | corrected: the request object always carries the caller's `responseType` or the `document`/`json` default, every other copied `params` entry with its value, and for a GET the URL with the body in front of the fragment; otherwise it equals `PrepareBase` |
| Request.GetQueryCarriesBody | functions.user.js:190-198 | corrected: for a GET whose body holds no `#`, the request's URL keeps the href's path, query parameters and fragment, and adds the body's parameters after the existing ones, as long as the href's query does not end in a stray `?` |
| Request.Send | functions.user.js:254 | no transport call without a request. Otherwise the calls and the settlement are those of the top-level runner with the defaulted count. It never ends without settling; for a count of at least 1 it makes at most that many calls; a negative count keeps retrying while the transport fails |
| Request.SendNested | tampermonkey-tools.js:249 | the nested runner with `retrytimes \|\| 3` settles exactly as the top-level one would, since the count is never 0 |
| Request.DefaultRetriesCallAtMostThree | tampermonkey-tools.js:183 | with no retry count the transport is called at most three times |
| ToolsRequest.FirstNumber | tools.js:86-87 | `a \|\| b \|\| d` over numbers: the first non-zero value, else the default |
| ToolsRequest.FirstText | tools.js:88 | `a \|\| b \|\| undefined` over strings: the first non-empty one, else `undefined` |
| ToolsRequest.Defaults | tools.js:86-88 | the retry count comes from `retry_times`, then `retryTimes`, else 3. The timeout comes from `timeout`, then `time_out`, else 60000. The MIME type comes from `overrideMimeType`, then `mime_type`. Neither count nor timeout is ever 0 |
| ToolsRequest.ZeroRetriesFallThrough | tools.js:86 | a zero `retry_times` falls through to `retryTimes` exactly like a missing one |
| ToolsRequest.FixedHeaders | tools.js:110-114 | every request sends exactly `referrer` (the page URL), `Cache-Control: no-cache` and an HTML `Content-Type` in the page's character set |
| ToolsRequest.RequestObjectAsWritten | tools.js:105-114 | as written, the request object holds exactly the URL, GET, the defaulted timeout under `time_out`, the MIME override (or `undefined`) and the fixed headers |
| ToolsRequest.TimeoutNeverReachesTransport | tools.js:87-108 | whatever timeout is given, the object as written has none under `timeout` |
| ToolsRequest.RequestObject | tools.js:105-114 | corrected: the same keys and values, with the defaulted timeout under `timeout`, where the transport reads it |
| ToolsRequest.Send | tools.js:76-147 | a missing `arg` is a `TypeError` without any call. Otherwise the transport gets the corrected request object, with the defaulted timeout under `timeout`. The nested runner with the defaulted count decides. It never ends without settling; for a count of at least 1 it calls the transport at most that many times; a negative count keeps retrying while the transport fails |
| ToolsRequest.DefaultThreeAttempts | tools.js:86-147 | with no count, a failing transport is called three times and the call rejects with the third failure |
| Helpers.WideCount | functions.user.js:419-420 | the number of code units above 255 is at most the length |
| Helpers.Str2Len | functions.user.js:415-426 | the loop returns the length plus the number of code units above 255, which lies between the length and twice the length |
| Helpers.WideCountConcat | functions.user.js:417-424 | the count over a concatenation is the sum of the counts |
| Helpers.NarrowIffLength | functions.user.js:417-424 | `str2len` equals the length exactly when no code unit is above 255 |
| Helpers.WideIffDouble | functions.user.js:417-424 | `str2len` is twice the length exactly when every code unit is above 255 |
| Helpers.ToUint8 | functions.user.js:366 | storing a code unit into a `Uint8Array` keeps a code unit below 256 as it is, and otherwise keeps the byte that differs from it by a multiple of 256 |
| Helpers.ResponseToBytes | functions.user.js:355-371 | an empty response text rejects with `response translating Uint8Array failed.`. Otherwise the array has one byte per code unit, the low byte of each |
| Helpers.BytesRoundTrip | functions.user.js:355-371 | a non-empty response decoded as `x-user-defined` converts back to exactly its bytes |
| Link.Search | functions.user.js:560-567 | the loop succeeds exactly when some entry accepts the trimmed target |
| Link.Accepts | functions.user.js:561-565 | a string entry accepts exactly when it is not empty and equals the target after trimming; a RegExp accepts when its test passes; the catch-all accepts everything; any other entry accepts nothing |
| Link.Run | functions.user.js:557-569 | `_run` fails on a missing list and otherwise succeeds exactly when some entry accepts the trimmed target: a non-empty string equal after trimming, a passing RegExp, or the catch-all |
| Link.RunIgnoresSurroundingWhitespace | functions.user.js:558 | whitespace around the target does not matter |
| Link.SearchConcat | functions.user.js:560-567 | a search over two concatenated lists succeeds when one of them does |
| Link.EmptyLiteralNeverMatches | functions.user.js:561 | an empty string entry is not a string to `isString`, so it matches nothing, not even an empty target |
| Link.HostRules | functions.user.js:575-583 | a host string becomes its trimmed self, a RegExp the one-entry list of itself, an iterable the list of its entries. A missing or empty host, or one that is none of these, becomes `null` |
| Link.PathRules | functions.user.js:587-595 | the path entries are as for the host (trimmed string, RegExp, iterable), except that anything else becomes the catch-all |
| Link.Match | functions.user.js:556-597 | `match` succeeds exactly when the hostname passes the host entries and the pathname passes the path entries |
| Link.MissingHostMatchesNothing | functions.user.js:575-586 | a site with a missing or empty host matches no URL |
| Link.BlankHostMatchesNothing | functions.user.js:575-586 | a whitespace-only host string matches no URL |
| Link.NewLink | functions.user.js:543-550 | unless `verify` is `false`, the host must be a non-blank string, a RegExp or a non-empty iterable, else `host can not be blank or undefined.`. A missing path becomes the catch-all |
| Link.HostNamePassesCheck | functions.user.js:543-550 | a non-blank host name passes the constructor check, and the missing path becomes the catch-all |
| Link.HostOnlyLinkMatchesItsHost | functions.user.js:556-597 | that link, made from a host name alone, matches every URL of that host, whatever the path and surrounding whitespace |
| Link.CheckedHostIsNeverMissing | functions.user.js:543-583 | a link that passed the check always has a host list |
| Link.Query | functions.user.js:611-626 | a non-string or empty rule, a missing doc or a missing node is an error, checked in that order. Rules starting `/`, `./`, `(/` or `id(` go to XPath, all others to CSS |
| Link.QueryReadsThreeCharacters | functions.user.js:621 | the choice depends on no more than the first three characters |
| Link.XPathIffPrefix | functions.user.js:621 | XPath exactly when the rule starts with `/`, `./`, `(/` or `id(`, read character by character |
| JsText.TrimStart | functions.user.js:178 | the leading whitespace is removed and all of it was whitespace |
| JsText.TrimEnd | functions.user.js:178 | the trailing whitespace is removed and all of it was whitespace |
| JsText.Trim | functions.user.js:178 | `trim` gives the middle slice of the string, without whitespace at either end, cut between whitespace runs |
| JsText.TrimIdempotent | functions.user.js:178 | trimming twice is trimming once |
| JsText.Upper | functions.user.js:178 | `toUpperCase` maps each code unit and keeps the length |
| JsText.UpperOfUppercase | functions.user.js:178 | upper-casing a string without lowercase letters changes nothing |
| JsText.TrimmedUpperHasNoLowercase | functions.user.js:178 | a trimmed upper-cased string has no lowercase letter |

The three copies of `asyncPool` (functions.user.js:93-125, tampermonkey-tools.js:94-126,
tools.js:37-68) are the same code, so the rows above cite only the first. The `request`
preparation of tampermonkey-tools.js (140-184) is line for line that of functions.user.js
(168-212). The nested `retry` of tools.js (130-145) is that of tampermonkey-tools.js.

## Left out

- The transport `GM_xmlhttpRequest`, its callbacks, the request-time logging with `Date`, and the progress event handler are host I/O. The transport is the sequence of outcomes fed to the retry runners.
- Promise and microtask timing is not modelled. A fulfilled task's handle splices itself out atomically when the task settles; in the code this happens one microtask later. Which task settles next is the environment's choice.
- `parseURL`, RegExp evaluation and the `lastIndex` state of global RegExps are library calls. The hostname and pathname are inputs; RegExp tests are an abstract predicate.
- The DOM code (`text2document`, `response2document`, `query_by_xpath`, `query_by_css`, `button`, `NodeList.prototype.toArray`) and the fixed-argument wrappers `html`, `stream` and `translate` are outside this model.
- JsText.Upper: does not model full Unicode case mapping, because only ASCII letters are upper-cased. Methods are ASCII names.
- Request.OrNumber: does not model `NaN`, another falsy number. Neither do Retry.Budget and ToolsRequest.FirstNumber.
- Request.PrepareBase: does not model that a POST's `Object.assign` also changes the caller's `headers` object in place. It also does not model that a non-string truthy method throws a `TypeError` at `toUpperCase`.
- Request.Passthrough: does not model parameter values other than optional strings. Only `responseType` is inspected, and the others are passed along untouched.
- Form.Serialize: values are taken as already converted to strings. `Object.keys` order is the order of the entry list.
- Retry.Budget, Retry.NestedFrom, Request.OrNumber and ToolsRequest.FirstNumber take counts as integers. A fractional count such as 2.5 never reaches 0 under `times--` or `use--`, so a runner whose operation keeps failing retries forever; the model does not capture that.
- Request.Passthrough: does not model `params === null`. Spreading `null` gives `{}`, but `params.responseType` at functions.user.js:191 then throws a `TypeError`; a map cannot be `null`.
- Form.AppendQueryExtendsQuery: says nothing about a body that holds `#`, which would start a fragment of its own. Object bodies are encoded by `encodeURIComponent`, which never emits `#`, but their keys and non-object bodies are sent raw. Request.GetQueryCarriesBody has the same limit.
- Link.Run: does not model non-string, non-RegExp entries of an iterable other than as entries that never match.

## Findings

| source | as written | input that shows it | evidently intended | confidence | as-written member | corrected member |
|---|---|---|---|---|---|---|
| functions.user.js:188-200 (same in tampermonkey-tools.js:160-172) | `_params` is copied from `params` before the `responseType` default is written, and the default is written into the caller's `params` | `request("/list")`: GET, `params` `{}` | the request object asks for a `document` (GET) or `json` (POST) response when the caller gives none, without changing the caller's object | not executed; high | Request.ResponseTypeDefaultNeverSent | Request.Prepare |
| tools.js:87-108 | the defaulted timeout is stored under the key `time_out` | `request(href, {timeout: 5000})` | the transport, which reads `timeout`, applies the defaulted timeout | not executed; medium (the transport's key is `timeout` in the other two files' request objects) | ToolsRequest.TimeoutNeverReachesTransport | ToolsRequest.RequestObject |
| functions.user.js:192-197 (same in tampermonkey-tools.js:164-169) | the GET body is appended at the very end of the href, after any `#fragment`, and the joiner looks for `?` in the fragment too | `request("/p#top", "GET", {a: 1})` | the body joins the URL's query, in front of the fragment | not executed; medium (hrefs with a fragment are rare in requests) | Form.FragmentSwallowsBody | Form.AppendQueryBeforeFragment |

/**
 * `request(href, method, data, params, headers, timeout, retrytimes, options)` up to the
 * transport call (functions.user.js:168-255, tampermonkey-tools.js:140-250): method
 * normalisation, gating, the body and the GET query, the headers, the defaults, the object
 * handed to the transport, and the retry around the transport.
 *
 * Falsy JavaScript values are modelled by their falsy representative: `""` for a missing,
 * `null` or empty href or method, `None` for an `undefined` or `null` option, `Some(0)` for
 * the number zero.
 */
module Request {
  import opened Wrappers
  import opened JsText
  import opened Form
  import Retry

  /** The request body argument: a plain object (its keys in order) or any other value. */
  datatype Body = Fields(entries: seq<(string, string)>) | Text(text: string)

  /** The `options` argument; `progress` is `onprogress`, `progressAlias` is `on_progress`. */
  datatype Options<F> = Options(progress: Option<F>, progressAlias: Option<F>)

  /** The arguments of one call of `request`, with the defaults of its signature applied. */
  datatype Call<F> = Call(
    href: string,
    verbName: string,
    data: Body,
    params: map<string, Option<string>>,
    headers: Option<map<string, string>>,
    timeout: Option<int>,
    retrytimes: Option<int>,
    options: Option<Options<F>>)

  datatype Verb = GET | POST

  /**
   * What reaches the transport: the request object (`url`, `method`, `timeout`, `headers`,
   * `data`, the progress callback and the copied `params` entries that no fixed key
   * overrides) and the retry count the transport is wrapped with.
   */
  datatype Prepared<F> = Prepared(
    url: string,
    verb: Verb,
    timeout: int,
    headers: Option<map<string, string>>,
    data: string,
    extra: map<string, Option<string>>,
    progress: Option<F>,
    retries: int)

  const FormContentType := "application/x-www-form-urlencoded;charset=UTF-8"
  const DefaultTimeout := 60000
  const DefaultRetries := 3

  /** The keys the request object sets itself, overriding any copied `params` entry. */
  const FixedKeys: set<string> :=
    {"url", "method", "timeout", "headers", "data", "onload", "onabort", "onerror", "ontimeout", "onprogress"}

  /** `method ? method.toUpperCase().trim() : "GET"`. */
  function NormalizeMethod(name: string): (m: string)
    ensures name == "" ==> m == "GET"
    ensures name != "" ==> m == Trim(Upper(name)) && HasNoLowercase(m)
    ensures m == "" || (!IsWhitespace(m[0]) && !IsWhitespace(m[|m| - 1]))
  {
    if name == "" then "GET"
    else
      TrimmedUpperHasNoLowercase(name);
      Trim(Upper(name))
  }

  /**
   * Normalising a normalised method that is still truthy changes nothing: the gate sees the
   * same method whether or not a caller normalised it first.
   */
  lemma NormalizeMethodIdempotent(name: string)
    requires NormalizeMethod(name) != ""
    ensures NormalizeMethod(NormalizeMethod(name)) == NormalizeMethod(name)
  {
    var m := NormalizeMethod(name);
    if name != "" {
      UpperOfUppercase(m);
      TrimIdempotent(Upper(name));
    }
  }

  /** Case and surrounding whitespace do not matter: ` post\n` is a POST. */
  lemma PaddedLowercasePostIsPost()
    ensures NormalizeMethod(" post\n") == "POST"
  {
    var u := Upper(" post\n");
    assert u == " POST\n";
    assert Lead(u) == 1 by {
      assert IsWhitespace(u[0]) && !IsWhitespace(u[1]);
    }
    assert Trim(u) == u[1..5];
  }

  /** The GET/POST gate on the normalised method. */
  function VerbOf(m: string): (v: Option<Verb>)
    ensures v == Some(GET) <==> m == "GET"
    ensures v == Some(POST) <==> m == "POST"
    ensures v.None? <==> m != "GET" && m != "POST"
  {
    if m == "GET" then Some(GET) else if m == "POST" then Some(POST) else None
  }

  /** `x || d` on a number or `undefined`: zero and `undefined` give the default. */
  function OrNumber(x: Option<int>, d: int): (r: int)
    ensures x.Some? && x.value != 0 ==> r == x.value
    ensures x == None || x == Some(0) ==> r == d
    ensures d != 0 ==> r != 0
  {
    if x.Some? && x.value != 0 then x.value else d
  }

  /** `a || b || undefined` on two optional callbacks. */
  function FirstOf<F>(a: Option<F>, b: Option<F>): (r: Option<F>)
    ensures a.Some? ==> r == a
    ensures a.None? ==> r == b
  {
    if a.Some? then a else b
  }

  /**
   * The serialised body: an object is serialised, any other value is sent as it is. An
   * object body is falsy, and so never appended to a GET URL, exactly when it has no keys.
   */
  function BodyText(data: Body, encode: string -> string): (body: string)
    ensures data.Fields? ==> body == Serialize(data.entries, encode) && (body == "" <==> data.entries == [])
    ensures data.Text? ==> body == data.text
  {
    match data
    case Fields(entries) => Serialize(entries, encode)
    case Text(text) => text
  }

  /** `params.responseType ?? fallback`. */
  function ResponseType(params: map<string, Option<string>>, fallback: string): (t: string)
    ensures "responseType" in params && params["responseType"].Some? ==> t == params["responseType"].value
    ensures "responseType" !in params || params["responseType"].None? ==> t == fallback
  {
    if "responseType" in params && params["responseType"].Some? then params["responseType"].value else fallback
  }

  /** The `responseType` each verb asks for when the caller gives none. */
  function DefaultResponseType(verb: Verb): (t: string)
    ensures verb == GET ==> t == "document"
    ensures verb == POST ==> t == "json"
  {
    if verb == GET then "document" else "json"
  }

  /** `_params = {...params}; delete _params.headers`, then overridden by the fixed keys. */
  function Passthrough(params: map<string, Option<string>>): (extra: map<string, Option<string>>)
    ensures forall k :: k in extra <==> k in params && k !in FixedKeys
    ensures forall k :: k in extra ==> extra[k] == params[k]
  {
    map k | k in params && k !in FixedKeys :: params[k]
  }

  /**
   * Everything of the request object except the `responseType` default, which the two
   * versions below place differently. `None` is the early `return;` for an empty href or a
   * method other than GET and POST.
   */
  function PrepareBase<F>(call: Call<F>, encode: string -> string): (p: Option<Prepared<F>>)
    ensures p.Some? <==> call.href != "" && VerbOf(NormalizeMethod(call.verbName)).Some?
    ensures p.Some? ==> p.value.verb == VerbOf(NormalizeMethod(call.verbName)).value
    ensures p.Some? ==> p.value.data == BodyText(call.data, encode)
    ensures p.Some? && p.value.verb == GET ==> p.value.url == AppendQuery(call.href, p.value.data)
    ensures p.Some? && p.value.verb == POST ==> p.value.url == call.href
    ensures p.Some? && p.value.verb == GET ==> p.value.headers == call.headers
    ensures p.Some? && p.value.verb == POST ==>
              && p.value.headers.Some?
              && "Content-Type" in p.value.headers.value
              && p.value.headers.value["Content-Type"] == FormContentType
              && forall k :: k != "Content-Type" && call.headers.Some? && k in call.headers.value ==>
                   k in p.value.headers.value && p.value.headers.value[k] == call.headers.value[k]
    ensures p.Some? ==> p.value.extra == Passthrough(call.params)
    ensures p.Some? && p.value.verb == POST ==>
              p.value.headers.value.Keys == (if call.headers.Some? then call.headers.value.Keys else {}) + {"Content-Type"}
    ensures p.Some? ==> p.value.timeout == OrNumber(call.timeout, DefaultTimeout) && p.value.timeout != 0
    ensures p.Some? ==> p.value.retries == OrNumber(call.retrytimes, DefaultRetries) && p.value.retries != 0
    ensures p.Some? && call.options.Some? ==>
              p.value.progress == FirstOf(call.options.value.progress, call.options.value.progressAlias)
    ensures p.Some? && call.options.None? ==> p.value.progress.None?
  {
    var m := NormalizeMethod(call.verbName);
    var verb := VerbOf(m);
    if call.href == "" || verb.None? then None
    else
      var data := BodyText(call.data, encode);
      var url := if verb.value == GET then AppendQuery(call.href, data) else call.href;
      var headers :=
        if verb.value == GET then call.headers
        else
          var given := if call.headers.Some? then call.headers.value else map[];
          Some(given["Content-Type" := FormContentType]);
      var progress := if call.options.Some? then FirstOf(call.options.value.progress, call.options.value.progressAlias) else None;
      Some(Prepared(url, verb.value, OrNumber(call.timeout, DefaultTimeout), headers, data,
                    Passthrough(call.params), progress, OrNumber(call.retrytimes, DefaultRetries)))
  }

  /**
   * The code as written: the default `responseType` is stored into the caller's `params`
   * after `_params` was copied from it, so the request object never carries the default;
   * the caller's object is changed instead. Returns the request and the caller's `params`
   * as the call leaves them.
   */
  function PrepareAsWritten<F>(call: Call<F>, encode: string -> string): (r: (Option<Prepared<F>>, map<string, Option<string>>))
    ensures r.0 == PrepareBase(call, encode)
    ensures r.0.None? ==> r.1 == call.params
    ensures r.0.Some? ==> r.1 == call.params["responseType" := Some(ResponseType(call.params, DefaultResponseType(r.0.value.verb)))]
  {
    var p := PrepareBase(call, encode);
    if p.None? then (p, call.params)
    else (p, call.params["responseType" := Some(ResponseType(call.params, DefaultResponseType(p.value.verb)))])
  }

  /**
   * A GET with empty `params` asks for a `document` response, yet the request object has no
   * `responseType` at all, while the caller's `params` gains one.
   */
  lemma ResponseTypeDefaultNeverSent<F>(encode: string -> string)
    ensures var call: Call<F> := Call("/list", "GET", Text(""), map[], None, None, None, None);
            var r := PrepareAsWritten(call, encode);
            && r.0.Some?
            && "responseType" !in r.0.value.extra
            && r.1 == map["responseType" := Some("document")]
  {
    var call: Call<F> := Call("/list", "GET", Text(""), map[], None, None, None, None);
    assert NormalizeMethod("GET") == "GET" by {
      UpperOfUppercase("GET");
      assert Lead("GET") == 0 by { assert !IsWhitespace('G'); }
      assert Trim("GET") == "GET"[0..0 + |Trim("GET")|];
      assert !IsWhitespace('T');
    }
  }

  /**
   * The evident intent: the request object carries the caller's `responseType`, or
   * `document` for GET and `json` for POST when the caller gave none, and the caller's object
   * is left alone. A GET body joins the query in front of any `#fragment` of the href.
   */
  function Prepare<F>(call: Call<F>, encode: string -> string): (p: Option<Prepared<F>>)
    ensures p.Some? <==> PrepareBase(call, encode).Some?
    ensures p.Some? ==> p.value == PrepareBase(call, encode).value.(extra := p.value.extra, url := p.value.url)
    ensures p.Some? && p.value.verb == GET ==> p.value.url == AppendQueryBeforeFragment(call.href, p.value.data)
    ensures p.Some? && p.value.verb == POST ==> p.value.url == call.href
    ensures p.Some? ==> "responseType" in p.value.extra
    ensures p.Some? ==>
              p.value.extra["responseType"] == Some(ResponseType(call.params, DefaultResponseType(p.value.verb)))
    ensures p.Some? ==> forall k :: k != "responseType" ==>
              (k in p.value.extra <==> k in call.params && k !in FixedKeys)
    ensures p.Some? ==> forall k :: k in p.value.extra && k != "responseType" ==> p.value.extra[k] == call.params[k]
  {
    var base := PrepareBase(call, encode);
    if base.None? then None
    else
      var t := ResponseType(call.params, DefaultResponseType(base.value.verb));
      var url := if base.value.verb == GET then AppendQueryBeforeFragment(call.href, base.value.data) else base.value.url;
      Some(base.value.(extra := base.value.extra["responseType" := Some(t)], url := url))
  }

  /**
   * The body of a GET joins the query of the href without disturbing its path, its existing
   * query parameters or its fragment.
   */
  lemma GetQueryCarriesBody<F>(call: Call<F>, encode: string -> string)
    requires Prepare(call, encode).Some? && Prepare(call, encode).value.verb == GET
    requires '#' !in Prepare(call, encode).value.data
    requires QueryOf(call.href) == "" || !EndsWith(QueryOf(call.href), "?")
    ensures var p := Prepare(call, encode).value;
            && PathOf(p.url) == PathOf(call.href)
            && QueryFields(QueryOf(p.url)) == QueryFields(QueryOf(call.href)) + QueryFields(p.data)
            && FragmentOf(p.url) == FragmentOf(call.href)
  {
    AppendQueryExtendsQuery(call.href, Prepare(call, encode).value.data);
  }

  /**
   * functions.user.js: `return retry(run, _retrytimes)` with the top-level `retry`.
   * `responses` are the transport's outcomes, one per call of `run`. `None` means
   * `request` returned `undefined` without calling the transport.
   */
  method Send<F, V, E>(call: Call<F>, encode: string -> string, responses: seq<Retry.Attempt<V, E>>)
    returns (r: Option<Retry.Run<V, E>>)
    ensures r.None? <==> Prepare(call, encode).None?
    ensures r.Some? ==> r.value == Retry.RunFrom(Prepare(call, encode).value.retries, responses, None)
    ensures r.Some? && Prepare(call, encode).value.retries >= 1 ==> r.value.calls <= Prepare(call, encode).value.retries
    ensures r.Some? ==> !r.value.settlement.NeverSettles?
  {
    var p := Prepare(call, encode);
    if p.None? {
      return None;
    }
    var settlement, calls := Retry.Retry(Some(p.value.retries), responses, None);
    r := Some(Retry.Run(settlement, calls));
  }

  /**
   * tampermonkey-tools.js: the same preparation, then the nested `retry(run, _retrytimes)`.
   * Since `_retrytimes` is never 0 the nested runner always settles (or keeps retrying on a
   * negative count) exactly as the top-level one does.
   */
  method SendNested<F, V, E>(call: Call<F>, encode: string -> string, responses: seq<Retry.Attempt<V, E>>)
    returns (r: Option<Retry.Run<V, E>>)
    ensures r.None? <==> Prepare(call, encode).None?
    ensures r.Some? ==> r.value == Retry.RunFrom(Prepare(call, encode).value.retries, responses, None)
    ensures r.Some? ==> !r.value.settlement.NeverSettles?
  {
    var p := Prepare(call, encode);
    if p.None? {
      return None;
    }
    var settlement, calls := Retry.RetryNested(p.value.retries, responses);
    Retry.NestedAgreesWithTopLevel(p.value.retries, responses);
    r := Some(Retry.Run(settlement, calls));
  }

  /** With the default count, the transport is called at most three times. */
  lemma DefaultRetriesCallAtMostThree<F, V, E>(call: Call<F>, encode: string -> string, responses: seq<Retry.Attempt<V, E>>)
    requires Prepare(call, encode).Some?
    requires call.retrytimes == None || call.retrytimes == Some(0)
    ensures Retry.RunFrom(Prepare(call, encode).value.retries, responses, None).calls <= 3
  {
  }
}

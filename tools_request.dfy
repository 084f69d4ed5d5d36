/**
 * tools.js `request(href, arg)` (tools.js:76-148): the `||`-chain defaulting of the
 * options, the request object handed to the transport, and the nested `retry` around it.
 */
module ToolsRequest {
  import opened Wrappers
  import Retry

  /**
   * The `arg` object: `timeout`/`time_out` (`timeout`, `timeoutAlias`), `retry_times`/
   * `retryTimes` (`retries`, `retriesAlias`), `overrideMimeType`/`mime_type` (`mime`,
   * `mimeAlias`). `None` is an absent, `undefined` or `null` entry.
   */
  datatype Args = Args(
    timeout: Option<int>,
    timeoutAlias: Option<int>,
    retries: Option<int>,
    retriesAlias: Option<int>,
    mime: Option<string>,
    mimeAlias: Option<string>)

  const DefaultRetries := 3
  const DefaultTimeout := 60000

  predicate TruthyNumber(x: Option<int>)
  {
    x.Some? && x.value != 0
  }

  predicate TruthyText(x: Option<string>)
  {
    x.Some? && x.value != ""
  }

  /** `a || b || d` over two optional numbers and a number. */
  function FirstNumber(a: Option<int>, b: Option<int>, d: int): (r: int)
    ensures TruthyNumber(a) ==> r == a.value
    ensures !TruthyNumber(a) && TruthyNumber(b) ==> r == b.value
    ensures !TruthyNumber(a) && !TruthyNumber(b) ==> r == d
  {
    if TruthyNumber(a) then a.value else if TruthyNumber(b) then b.value else d
  }

  /** `a || b || undefined` over two optional strings; `None` is `undefined`. */
  function FirstText(a: Option<string>, b: Option<string>): (r: Option<string>)
    ensures TruthyText(a) ==> r == a
    ensures !TruthyText(a) && TruthyText(b) ==> r == b
    ensures !TruthyText(a) && !TruthyText(b) ==> r == None
  {
    if TruthyText(a) then a else if TruthyText(b) then b else None
  }

  /** The values `request` derives from `arg`. */
  datatype Settings = Settings(retries: int, timeout: int, mime: Option<string>)

  function Defaults(arg: Args): (s: Settings)
    ensures s.retries != 0 && s.timeout != 0
    ensures s.mime.None? || s.mime.value != ""
    ensures s.retries == FirstNumber(arg.retries, arg.retriesAlias, DefaultRetries)
    ensures s.timeout == FirstNumber(arg.timeout, arg.timeoutAlias, DefaultTimeout)
    ensures s.mime == FirstText(arg.mime, arg.mimeAlias)
  {
    Settings(FirstNumber(arg.retries, arg.retriesAlias, DefaultRetries),
             FirstNumber(arg.timeout, arg.timeoutAlias, DefaultTimeout),
             FirstText(arg.mime, arg.mimeAlias))
  }

  /** A zero count is falsy just like a missing one: both fall through to the next source. */
  lemma ZeroRetriesFallThrough(alias: Option<int>)
    ensures Defaults(Args(None, None, Some(0), alias, None, None)).retries
            == Defaults(Args(None, None, None, alias, None, None)).retries
    ensures Defaults(Args(None, None, Some(0), Some(0), None, None)).retries == DefaultRetries
  {
  }

  /**
   * A value of the request object handed to the transport. The object's `onload`,
   * `onabort`, `onerror` and `ontimeout` callbacks are the transport wiring and are not
   * modelled; the maps below hold its other entries.
   */
  datatype Value = Number(n: int) | Text(s: string) | Undefined | Fields(entries: map<string, string>)

  /**
   * The headers of every tools.js request: the page's own URL as `referrer`, no caching,
   * and an HTML content type in the page's character set.
   */
  function FixedHeaders(pageUrl: string, charset: string): (h: map<string, string>)
    ensures h.Keys == {"referrer", "Cache-Control", "Content-Type"}
    ensures h["referrer"] == pageUrl && h["Cache-Control"] == "no-cache"
    ensures h["Content-Type"] == "text/html;charset=" + charset
  {
    map["referrer" := pageUrl, "Cache-Control" := "no-cache", "Content-Type" := "text/html;charset=" + charset]
  }

  function MimeValue(mime: Option<string>): Value
  {
    if mime.Some? then Text(mime.value) else Undefined
  }

  /**
   * The request object as written: the timeout goes out under the key `time_out`, a key the
   * transport does not read.
   */
  function RequestObjectAsWritten(href: string, s: Settings, pageUrl: string, charset: string): (o: map<string, Value>)
    ensures o.Keys == {"url", "method", "time_out", "overrideMimeType", "headers"}
    ensures o["url"] == Text(href) && o["method"] == Text("GET")
    ensures o["time_out"] == Number(s.timeout)
    ensures o["overrideMimeType"] == (if s.mime.Some? then Text(s.mime.value) else Undefined)
    ensures o["headers"] == Fields(FixedHeaders(pageUrl, charset))
  {
    map["url" := Text(href), "method" := Text("GET"), "time_out" := Number(s.timeout),
        "overrideMimeType" := MimeValue(s.mime), "headers" := Fields(FixedHeaders(pageUrl, charset))]
  }

  /** The timeout the transport applies: the number under `timeout`, if any. */
  function TransportTimeout(o: map<string, Value>): Option<int>
  {
    if "timeout" in o && o["timeout"].Number? then Some(o["timeout"].n) else None
  }

  /** Whatever timeout the caller gives, the transport as written sees none. */
  lemma TimeoutNeverReachesTransport(href: string, arg: Args, pageUrl: string, charset: string)
    ensures Defaults(arg).timeout != 0
    ensures TransportTimeout(RequestObjectAsWritten(href, Defaults(arg), pageUrl, charset)).None?
  {
    assert "timeout" !in RequestObjectAsWritten(href, Defaults(arg), pageUrl, charset).Keys;
  }

  /** The evident intent: the defaulted timeout under the key the transport reads. */
  function RequestObject(href: string, s: Settings, pageUrl: string, charset: string): (o: map<string, Value>)
    ensures o.Keys == {"url", "method", "timeout", "overrideMimeType", "headers"}
    ensures o["url"] == Text(href) && o["method"] == Text("GET")
    ensures TransportTimeout(o) == Some(s.timeout)
    ensures o["overrideMimeType"] == (if s.mime.Some? then Text(s.mime.value) else Undefined)
    ensures o["headers"] == Fields(FixedHeaders(pageUrl, charset))
  {
    map["url" := Text(href), "method" := Text("GET"), "timeout" := Number(s.timeout),
        "overrideMimeType" := MimeValue(s.mime), "headers" := Fields(FixedHeaders(pageUrl, charset))]
  }

  /** `let {…} = arg` throws a `TypeError` when `arg` is `undefined` or `null`. */
  datatype Failure = ArgNotAnObject

  /** What one call of `request` hands to the transport on every attempt, and how it ends. */
  datatype Sent<V, E> = Sent(request: map<string, Value>, run: Retry.Run<V, E>)

  /**
   * The whole call: destructure `arg`, build the request object, then
   * `retry(run, _retry_times)` with the nested runner. `responses` are the transport's
   * outcomes, one per call of `run`; `pageUrl` and `charset` are `location.href` and
   * `document.characterSet`.
   */
  method Send<V, E>(href: string, arg: Option<Args>, pageUrl: string, charset: string,
                    responses: seq<Retry.Attempt<V, E>>)
    returns (r: Result<Sent<V, E>, Failure>)
    ensures arg.None? <==> r == Failure(ArgNotAnObject)
    ensures arg.Some? ==> r.Success?
    ensures arg.Some? ==> r.value.request == RequestObject(href, Defaults(arg.value), pageUrl, charset)
    ensures arg.Some? ==> TransportTimeout(r.value.request) == Some(Defaults(arg.value).timeout)
    ensures arg.Some? ==> r.value.run == Retry.NestedFrom(Defaults(arg.value).retries, responses)
    ensures arg.Some? ==> !r.value.run.settlement.NeverSettles?
    ensures arg.Some? && Defaults(arg.value).retries >= 1 ==> r.value.run.calls <= Defaults(arg.value).retries
  {
    if arg.None? {
      return Failure(ArgNotAnObject);
    }
    var s := Defaults(arg.value);
    var request := RequestObject(href, s, pageUrl, charset);
    var settlement, calls := Retry.RetryNested(s.retries, responses);
    r := Success(Sent(request, Retry.Run(settlement, calls)));
  }

  /**
   * With no count given, a transport that keeps failing is called exactly three times and
   * the call rejects with the third failure.
   */
  lemma DefaultThreeAttempts<V, E>(e1: E, e2: E, e3: E, e4: E)
    ensures var a: seq<Retry.Attempt<V, E>> := [Retry.Threw(e1), Retry.Threw(e2), Retry.Threw(e3), Retry.Threw(e4)];
            Retry.NestedFrom(Defaults(Args(None, None, None, None, None, None)).retries, a)
            == Retry.Run(Retry.Rejected(e3), 3)
  {
    var a: seq<Retry.Attempt<V, E>> := [Retry.Threw(e1), Retry.Threw(e2), Retry.Threw(e3), Retry.Threw(e4)];
    assert a[1..] == [Retry.Threw(e2), Retry.Threw(e3), Retry.Threw(e4)];
    assert a[1..][1..] == [Retry.Threw(e3), Retry.Threw(e4)];
  }
}

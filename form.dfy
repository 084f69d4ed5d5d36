/**
 * The string side of `request` (functions.user.js:182-198, tampermonkey-tools.js:154-170):
 * an object body becomes `key=value&key=value` with the values passed through
 * `encodeURIComponent`, and a GET request appends that body to the href with `?`, `&` or
 * nothing in between. `encodeURIComponent` is a parameter of the model, never interpreted.
 *
 * `Split`, `Find`, `NonEmpty`, `Parse` and the URL parts (`Resource`, `FragmentOf`, `PathOf`,
 * `QueryOf`) are no code of the library: they read a body or a URL back as a server does,
 * and serve as the reference the library's strings are checked against.
 */
module Form {
  import opened JsText

  /** `parts.join(sep)`: empty for no parts, else the first part up front and the last at the end. */
  function Join(parts: seq<string>, sep: char): (r: string)
    ensures parts == [] ==> r == ""
    ensures parts != [] ==> StartsWith(r, parts[0]) && EndsWith(r, parts[|parts| - 1])
  {
    if parts == [] then ""
    else if |parts| == 1 then parts[0]
    else parts[0] + [sep] + Join(parts[1..], sep)
  }

  /** Reading side: `s.split(sep)`, the pieces between occurrences of `sep`; always at least one. */
  function Split(s: string, sep: char): (parts: seq<string>)
    ensures |parts| >= 1
  {
    if s == [] then [""]
    else
      var rest := Split(s[1..], sep);
      if s[0] == sep then [""] + rest
      else [[s[0]] + rest[0]] + rest[1..]
  }

  /** Text that does not contain `sep` splits to itself. */
  lemma {:induction false} SplitWithout(p: string, sep: char)
    requires sep !in p
    ensures Split(p, sep) == [p]
  {
    if p != [] {
      SplitWithout(p[1..], sep);
      assert [p[0]] + p[1..] == p;
    }
  }

  /** Splitting at a separator splits the two sides independently. */
  lemma {:induction false} SplitConcat(a: string, sep: char, b: string)
    ensures Split(a + [sep] + b, sep) == Split(a, sep) + Split(b, sep)
  {
    if a == [] {
      assert [] + [sep] + b == [sep] + b;
      assert ([sep] + b)[1..] == b;
    } else {
      var s := a + [sep] + b;
      assert s[0] == a[0];
      assert s[1..] == a[1..] + [sep] + b;
      SplitConcat(a[1..], sep, b);
    }
  }

  /** `Split` undoes `Join` when no part contains the separator. */
  lemma {:induction false} SplitJoin(parts: seq<string>, sep: char)
    requires parts != []
    requires forall k :: 0 <= k < |parts| ==> sep !in parts[k]
    ensures Split(Join(parts, sep), sep) == parts
  {
    if |parts| == 1 {
      SplitWithout(parts[0], sep);
    } else {
      SplitJoin(parts[1..], sep);
      SplitConcat(parts[0], sep, Join(parts[1..], sep));
      SplitWithout(parts[0], sep);
    }
  }

  /** One `${key}=${value}` entry: the raw key, then `=`, then the encoded value. */
  function Entry(key: string, value: string, encode: string -> string): (e: string)
    ensures |e| > |key| && e[..|key|] == key && e[|key|] == '='
    ensures e[|key| + 1..] == encode(value)
  {
    key + "=" + encode(value)
  }

  function Entries(fields: seq<(string, string)>, encode: string -> string): (r: seq<string>)
    ensures |r| == |fields|
    ensures forall k :: 0 <= k < |fields| ==> r[k] == Entry(fields[k].0, fields[k].1, encode)
  {
    if fields == [] then []
    else [Entry(fields[0].0, fields[0].1, encode)] + Entries(fields[1..], encode)
  }

  /**
   * The object-body serialisation: `Object.keys(data).map(key => key + "=" +
   * encodeURIComponent(data[key])).join("&")`. Keys keep their order and are not encoded.
   */
  function Serialize(fields: seq<(string, string)>, encode: string -> string): (body: string)
    ensures body == "" <==> fields == []
  {
    assert fields != [] ==> |Entries(fields, encode)[0]| > 0;
    Join(Entries(fields, encode), '&')
  }

  /** The first position of `c` in `s`, or `|s|` when there is none. */
  function Find(s: string, c: char): (i: nat)
    ensures i <= |s|
    ensures c !in s[..i]
    ensures i < |s| ==> s[i] == c
    ensures i == |s| <==> c !in s
  {
    if s == [] then 0
    else if s[0] == c then 0
    else
      assert s[1..][..Find(s[1..], c)] == s[1..1 + Find(s[1..], c)];
      1 + Find(s[1..], c)
  }

  /** A `key=value` entry read back: the key runs up to the first `=`. */
  function ParseEntry(e: string): (string, string)
  {
    var i := Find(e, '=');
    if i == |e| then (e, "") else (e[..i], e[i + 1..])
  }

  /** A body read back as a server reads a form: split at `&`, then at the first `=`. */
  function Parse(body: string): (fields: seq<(string, string)>)
  {
    if body == [] then []
    else
      var parts := Split(body, '&');
      seq(|parts|, k requires 0 <= k < |parts| => ParseEntry(parts[k]))
  }

  lemma ParseEntryOfEntry(key: string, v: string)
    requires '=' !in key
    ensures ParseEntry(key + "=" + v) == (key, v)
  {
    var e := key + "=" + v;
    assert e[..|key|] == key && e[|key|] == '=';
    assert Find(e, '=') == |key| by {
      assert e[..|key|] == key;
    }
    assert e[|key| + 1..] == v;
  }

  /**
   * Reading a serialised body back gives the keys and the encoded values, as long as no key
   * holds `=` or `&` (keys go out unencoded) and no encoded value holds `&`.
   * `encodeURIComponent` never emits `&` or `=`.
   */
  lemma SerializeRoundTrip(fields: seq<(string, string)>, encode: string -> string)
    requires forall k :: 0 <= k < |fields| ==> '=' !in fields[k].0 && '&' !in fields[k].0
    requires forall k :: 0 <= k < |fields| ==> '&' !in encode(fields[k].1)
    ensures |Parse(Serialize(fields, encode))| == |fields|
    ensures forall k :: 0 <= k < |fields| ==>
              Parse(Serialize(fields, encode))[k] == (fields[k].0, encode(fields[k].1))
  {
    var entries := Entries(fields, encode);
    forall k | 0 <= k < |entries| ensures '&' !in entries[k] {
      assert entries[k] == fields[k].0 + "=" + encode(fields[k].1);
    }
    if fields != [] {
      SplitJoin(entries, '&');
    }
    forall k | 0 <= k < |fields| ensures ParseEntry(entries[k]) == (fields[k].0, encode(fields[k].1)) {
      ParseEntryOfEntry(fields[k].0, encode(fields[k].1));
    }
  }

  /**
   * The joiner of `href + joiner + data`: `?` when the href has no query yet, nothing when it
   * already ends with `?` or `&`, `&` otherwise.
   */
  function Joiner(href: string): (j: string)
    ensures '?' !in href ==> j == "?"
    ensures '?' in href && (EndsWith(href, "?") || EndsWith(href, "&")) ==> j == ""
    ensures '?' in href && !EndsWith(href, "?") && !EndsWith(href, "&") ==> j == "&"
  {
    if '?' in href then
      if EndsWith(href, "?") || EndsWith(href, "&") then "" else "&"
    else "?"
  }

  /** The GET branch: a truthy body is appended to the href, an empty one leaves it alone. */
  function AppendQuery(href: string, data: string): (url: string)
    ensures data == "" ==> url == href
  {
    if data == "" then href else href + Joiner(href) + data
  }

  /** The part of a URL before its first `#`: what a request sends to the server. */
  function Resource(url: string): (r: string)
    ensures '#' !in r
    ensures '#' !in url ==> r == url
  {
    url[..Find(url, '#')]
  }

  /** The fragment of a URL: from its first `#` on, `""` when there is none. */
  function FragmentOf(url: string): (f: string)
    ensures Resource(url) + f == url
    ensures f == "" || f[0] == '#'
  {
    url[Find(url, '#')..]
  }

  /** The part of a fragment-free text before its first `?`. */
  function PathPart(r: string): string
  {
    r[..Find(r, '?')]
  }

  /** The part of a fragment-free text after its first `?`, `""` when there is none. */
  function QueryPart(r: string): string
  {
    var i := Find(r, '?');
    if i == |r| then "" else r[i + 1..]
  }

  /** The path of a URL, as a server receives it. */
  function PathOf(url: string): string
  {
    PathPart(Resource(url))
  }

  /** The query of a URL: between its first `?` and its fragment. */
  function QueryOf(url: string): string
  {
    QueryPart(Resource(url))
  }

  /** Text with no `#` followed by a fragment splits back into the two. */
  lemma ResourceAndFragment(u: string, f: string)
    requires '#' !in u
    requires f == "" || f[0] == '#'
    ensures Resource(u + f) == u && FragmentOf(u + f) == f
  {
    FindPastPrefix(u, f, '#');
    assert (u + f)[..|u|] == u;
  }

  function NonEmpty(parts: seq<string>): (r: seq<string>)
    ensures forall k :: 0 <= k < |r| ==> r[k] != ""
  {
    if parts == [] then []
    else (if parts[0] == "" then [] else [parts[0]]) + NonEmpty(parts[1..])
  }

  lemma {:induction false} NonEmptyConcat(a: seq<string>, b: seq<string>)
    ensures NonEmpty(a + b) == NonEmpty(a) + NonEmpty(b)
  {
    if a == [] {
      assert a + b == b;
    } else {
      assert (a + b)[1..] == a[1..] + b;
      NonEmptyConcat(a[1..], b);
    }
  }

  /** The query's parameters: its `&`-separated pieces, empty pieces ignored. */
  function QueryFields(query: string): seq<string>
  {
    NonEmpty(Split(query, '&'))
  }

  lemma QueryFieldsConcat(a: string, b: string)
    ensures QueryFields(a + "&" + b) == QueryFields(a) + QueryFields(b)
  {
    SplitConcat(a, '&', b);
    NonEmptyConcat(Split(a, '&'), Split(b, '&'));
  }

  lemma QueryFieldsOfEmpty()
    ensures QueryFields("") == []
  {
    assert Split("", '&') == [""];
  }

  /** The path is the prefix before the first `?`: text after it cannot move it. */
  lemma FindInPrefix(a: string, b: string, c: char)
    requires c in a
    ensures Find(a + b, c) == Find(a, c)
  {
    if a[0] != c {
      assert (a + b)[1..] == a[1..] + b;
      FindInPrefix(a[1..], b, c);
    }
  }

  lemma FindPastPrefix(a: string, b: string, c: char)
    requires c !in a
    ensures Find(a + b, c) == |a| + Find(b, c)
  {
    if a == [] {
      assert a + b == b;
    } else {
      assert (a + b)[1..] == a[1..] + b;
      FindPastPrefix(a[1..], b, c);
    }
  }

  /** Where the href has no `?`, the joiner `?` opens a query that is exactly the body. */
  lemma AppendToBareHref(href: string, data: string)
    requires '?' !in href && data != ""
    ensures PathPart(AppendQuery(href, data)) == href
    ensures QueryPart(AppendQuery(href, data)) == data
  {
    var url := AppendQuery(href, data);
    assert url == href + ("?" + data);
    FindPastPrefix(href, "?" + data, '?');
    assert url[..|href|] == href;
    assert url[|href| + 1..] == data;
  }

  /** Where the href has a `?`, the path stays and the joiner and body extend the query. */
  lemma AppendToQuery(href: string, data: string)
    requires '?' in href && data != ""
    ensures PathPart(AppendQuery(href, data)) == PathPart(href)
    ensures QueryPart(AppendQuery(href, data)) == QueryPart(href) + Joiner(href) + data
  {
    var url := AppendQuery(href, data);
    var i := Find(href, '?');
    assert url == href + (Joiner(href) + data);
    FindInPrefix(href, Joiner(href) + data, '?');
    assert url[..i] == href[..i];
    assert url[i + 1..] == href[i + 1..] + Joiner(href) + data;
  }

  /** A query ending in `&` has the same parameters as the query without it. */
  lemma TrailingAmpersand(q: string, data: string)
    requires q != "" && q[|q| - 1] == '&'
    ensures QueryFields(q + data) == QueryFields(q[..|q| - 1]) + QueryFields(data)
    ensures QueryFields(q) == QueryFields(q[..|q| - 1])
  {
    var q' := q[..|q| - 1];
    assert q' + "&" + data == q + data;
    assert q' + "&" + "" == q;
    QueryFieldsConcat(q', data);
    QueryFieldsConcat(q', "");
    QueryFieldsOfEmpty();
  }

  /**
   * The code as written, read on text where `#` is an ordinary character: appending a body
   * never touches the part before the first `?`, and the part after it gains exactly the
   * body's parameters after the existing ones: none is lost, glued to another, or left empty.
   * The query must not itself end in a stray `?` (one that is not the query's delimiter);
   * `StrayQuestionMarkGluesParameters` shows what happens then. For a URL with a fragment
   * this is not the URL's query: `FragmentSwallowsBody` shows it.
   */
  lemma AppendQueryExtendsQueryPart(href: string, data: string)
    requires QueryPart(href) == "" || !EndsWith(QueryPart(href), "?")
    ensures PathPart(AppendQuery(href, data)) == PathPart(href)
    ensures QueryFields(QueryPart(AppendQuery(href, data))) == QueryFields(QueryPart(href)) + QueryFields(data)
  {
    QueryFieldsOfEmpty();
    if data == "" {
    } else if '?' !in href {
      AppendToBareHref(href, data);
      assert PathPart(href) == href;
    } else {
      AppendToQuery(href, data);
      QueryGainsBody(href, data);
    }
  }

  lemma QueryGainsBody(href: string, data: string)
    requires '?' in href
    requires QueryPart(href) == "" || !EndsWith(QueryPart(href), "?")
    ensures QueryFields(QueryPart(href) + Joiner(href) + data) == QueryFields(QueryPart(href)) + QueryFields(data)
  {
    var q := QueryPart(href);
    var i := Find(href, '?');
    assert q == href[i + 1..];
    if Joiner(href) == "" {
      if q == "" {
        QueryFieldsOfEmpty();
        assert q + "" + data == data;
      } else {
        assert q[|q| - 1] == href[|href| - 1];
        assert q + "" + data == q + data;
        TrailingAmpersand(q, data);
      }
    } else {
      QueryFieldsConcat(q, data);
    }
  }

  /** A query that ends in a stray `?` glues its last parameter to the body's first. */
  lemma StrayQuestionMarkGluesParameters()
    ensures QueryFields(QueryOf(AppendQuery("/s?a=1?", "b=2"))) == ["a=1?b=2"]
  {
    var href := "/s?a=1?";
    assert href[2] == '?' && EndsWith(href, "?");
    var url := AppendQuery(href, "b=2");
    assert url == "/s?a=1?b=2";
    StrayQueryPart(url);
    SplitWithout("a=1?b=2", '&');
  }

  lemma StrayQueryPart(url: string)
    requires url == "/s?a=1?b=2"
    ensures QueryOf(url) == "a=1?b=2"
  {
    assert '#' !in url;
    assert Find(url, '?') == 2 by {
      assert url[2] == '?' && url[..2] == "/s";
    }
    assert url[3..] == "a=1?b=2";
  }

  /**
   * As written, the body is appended after a `#fragment`: the server gets no query at all,
   * and the body becomes part of the fragment.
   */
  lemma FragmentSwallowsBody()
    ensures AppendQuery("/p#top", "a=1") == "/p#top?a=1"
    ensures QueryOf("/p#top?a=1") == "" && FragmentOf("/p#top?a=1") == "#top?a=1"
  {
    var url := "/p#top?a=1";
    assert '?' !in "/p#top";
    assert Find(url, '#') == 2 by {
      assert url[2] == '#' && url[..2] == "/p";
    }
    assert Resource(url) == "/p";
    assert '?' !in Resource(url);
  }

  /**
   * The evident intent: the body joins the query, in front of any `#fragment`, which is kept
   * as it was. Without a `#` this is exactly the code as written.
   */
  function AppendQueryBeforeFragment(href: string, data: string): (url: string)
    ensures '#' !in href ==> url == AppendQuery(href, data)
    ensures data == "" ==> url == href
  {
    AppendQuery(Resource(href), data) + FragmentOf(href)
  }

  /**
   * Appending a body before the fragment never touches the path or the fragment, and the
   * query gains exactly the body's parameters after the existing ones: none is lost, glued
   * to another, or left empty. The body must hold no `#` (`encodeURIComponent` never emits
   * one), and the href's query must not end in a stray `?`.
   */
  lemma AppendQueryExtendsQuery(href: string, data: string)
    requires '#' !in data
    requires QueryOf(href) == "" || !EndsWith(QueryOf(href), "?")
    ensures PathOf(AppendQueryBeforeFragment(href, data)) == PathOf(href)
    ensures QueryFields(QueryOf(AppendQueryBeforeFragment(href, data))) == QueryFields(QueryOf(href)) + QueryFields(data)
    ensures FragmentOf(AppendQueryBeforeFragment(href, data)) == FragmentOf(href)
  {
    var r := Resource(href);
    var u := AppendQuery(r, data);
    assert '#' !in u by {
      assert u == r || u == r + Joiner(r) + data;
      assert '#' !in Joiner(r);
    }
    ResourceAndFragment(u, FragmentOf(href));
    AppendQueryExtendsQueryPart(r, data);
  }

  /** The corrected append on the example above: the body lands in the query. */
  lemma FragmentKeptAfterBody()
    ensures AppendQueryBeforeFragment("/p#top", "a=1") == "/p?a=1#top"
  {
    var href := "/p#top";
    assert Find(href, '#') == 2 by {
      assert href[2] == '#' && href[..2] == "/p";
    }
    assert Resource(href) == "/p" && FragmentOf(href) == "#top";
    assert '?' !in "/p";
  }
}

/**
 * The site matcher of functions.user.js: `Link`'s constructor check (543-550), `match` with
 * its inner rule search `_run` (556-597), and the XPath/CSS choice of `Hunter.query`
 * (611-626). URL parsing and RegExp evaluation are library calls: the hostname and pathname
 * are inputs, and `test(id, text)` stands for `regexes[id].test(text)`.
 */
module Link {
  import opened Wrappers
  import opened JsText

  /** A RegExp: one given by the caller (by identity), or the catch-all `/.*\/` of the code. */
  datatype Regexp = Given(id: nat) | MatchAll

  /** One entry of a rule list: a string, a RegExp, or any other value. */
  datatype Rule = Literal(text: string) | Pattern(re: Regexp) | Other

  /**
   * A `host` or `path` value: a string, a single RegExp, an iterable of entries, or a value
   * that is none of these (`undefined`, `null`, a number). The empty string is falsy, so
   * `isString("")` and `isIterable("")` are both false for it.
   */
  datatype Spec = Text(text: string) | Regex(re: Regexp) | Items(items: seq<Rule>) | Neither

  /** A constructed `Link`: its `host` and `path` fields. */
  datatype Site = Site(host: Spec, path: Spec)

  /** `isString(x)`: a string that is not empty. */
  predicate IsString(s: Spec)
  {
    s.Text? && s.text != ""
  }

  /**
   * One iteration of `_run`'s loop: does this entry accept the trimmed target? A string
   * accepts only when it is not empty and equal to the target after trimming; anything that
   * is neither a string nor a RegExp accepts nothing.
   */
  function Accepts(rule: Rule, target: string, test: (nat, string) -> bool): (ok: bool)
    ensures rule.Literal? ==> (ok <==> rule.text != "" && Trim(rule.text) == target)
    ensures rule.Pattern? && rule.re.Given? ==> ok == test(rule.re.id, target)
    ensures rule == Pattern(MatchAll) ==> ok
    ensures rule.Other? ==> !ok
  {
    match rule
    case Literal(text) => text != "" && target == Trim(text)
    case Pattern(Given(id)) => test(id, target)
    case Pattern(MatchAll) => true
    case Other => false
  }

  /** `_run`'s loop over the entries, for an already trimmed target. */
  function Search(target: string, rules: seq<Rule>, test: (nat, string) -> bool): (found: bool)
    ensures found <==> exists k :: 0 <= k < |rules| && Accepts(rules[k], target, test)
  {
    if rules == [] then false
    else if Accepts(rules[0], target, test) then true
    else
      var found := Search(target, rules[1..], test);
      assert forall k :: 1 <= k < |rules| ==> rules[k] == rules[1..][k - 1];
      found
  }

  /**
   * `_run(target, rules)`: trim the target, treat a missing list as empty, and succeed when
   * some entry accepts: a non-empty string equal to it after trimming, a RegExp whose test
   * passes, or the catch-all.
   */
  function Run(target: string, rules: Option<seq<Rule>>, test: (nat, string) -> bool): (found: bool)
    ensures rules.None? ==> !found
    ensures rules.Some? ==> (found <==> exists k :: 0 <= k < |rules.value| && Accepts(rules.value[k], Trim(target), test))
  {
    if rules.None? then false else Search(Trim(target), rules.value, test)
  }

  /**
   * Trimming the target first changes nothing: `_run` trims it anyway, so a hostname or
   * pathname with surrounding whitespace matches exactly as the bare one does.
   */
  lemma RunIgnoresSurroundingWhitespace(target: string, rules: Option<seq<Rule>>, test: (nat, string) -> bool)
    ensures Run(Trim(target), rules, test) == Run(target, rules, test)
  {
    TrimIdempotent(target);
  }

  /** Splitting a rule list splits the search: it succeeds when either part does. */
  lemma {:induction false} SearchConcat(target: string, a: seq<Rule>, b: seq<Rule>, test: (nat, string) -> bool)
    ensures Search(target, a + b, test) == (Search(target, a, test) || Search(target, b, test))
  {
    if a != [] {
      assert (a + b)[1..] == a[1..] + b;
      SearchConcat(target, a[1..], b, test);
    } else {
      assert a + b == b;
    }
  }

  /** An empty string entry matches nothing, not even an empty target. */
  lemma EmptyLiteralNeverMatches(target: string, test: (nat, string) -> bool)
    ensures !Run(target, Some([Literal("")]), test)
  {
  }

  /** The host entries `match` builds: `[host.trim()]`, `[host]`, `Array.from(host)` or `null`. */
  function HostRules(host: Spec): (rules: Option<seq<Rule>>)
    ensures host.Neither? || host == Text("") ==> rules.None?
    ensures IsString(host) ==> rules == Some([Literal(Trim(host.text))])
    ensures host.Regex? ==> rules == Some([Pattern(host.re)])
    ensures host.Items? ==> rules == Some(host.items)
  {
    match host
    case Text(text) => if text != "" then Some([Literal(Trim(text))]) else None
    case Regex(re) => Some([Pattern(re)])
    case Items(items) => Some(items)
    case Neither => None
  }

  /** The path entries: as for the host, except that anything else means `[/.*\/]`. */
  function PathRules(path: Spec): (rules: seq<Rule>)
    ensures path.Neither? || path == Text("") ==> rules == [Pattern(MatchAll)]
    ensures IsString(path) ==> rules == [Literal(Trim(path.text))]
    ensures path.Regex? ==> rules == [Pattern(path.re)]
    ensures path.Items? ==> rules == path.items
  {
    match path
    case Text(text) => if text != "" then [Literal(Trim(text))] else [Pattern(MatchAll)]
    case Regex(re) => [Pattern(re)]
    case Items(items) => items
    case Neither => [Pattern(MatchAll)]
  }

  /**
   * `link.match(href)` for the URL whose hostname and pathname are given: the hostname must
   * pass the host entries, then the pathname the path entries.
   */
  function Match(site: Site, hostname: string, pathname: string, test: (nat, string) -> bool): (ok: bool)
    ensures ok <==> Run(hostname, HostRules(site.host), test) && Run(pathname, Some(PathRules(site.path)), test)
  {
    if !Run(hostname, HostRules(site.host), test) then false
    else Run(pathname, Some(PathRules(site.path)), test)
  }

  /** A site whose host is missing, empty or not a string, RegExp or iterable matches nothing. */
  lemma MissingHostMatchesNothing(site: Site, hostname: string, pathname: string, test: (nat, string) -> bool)
    requires site.host.Neither? || site.host == Text("")
    ensures !Match(site, hostname, pathname, test)
  {
  }

  /** A blank (whitespace-only) host string becomes the entry `""`, which matches nothing. */
  lemma BlankHostMatchesNothing(text: string, path: Spec, hostname: string, pathname: string, test: (nat, string) -> bool)
    requires text != "" && Trim(text) == ""
    ensures !Match(Site(Text(text), path), hostname, pathname, test)
  {
    assert HostRules(Text(text)) == Some([Literal("")]);
  }

  const HostRequired := "host can not be blank or undefined."

  /** `Link.is_valid_string`: a string whose trimmed form is not empty. */
  predicate ValidString(s: Spec)
  {
    IsString(s) && Trim(s.text) != ""
  }

  /** `Link.is_valid_Iterable`: not a string, iterable, and with at least one entry. */
  predicate ValidIterable(s: Spec)
  {
    s.Items? && s.items != []
  }

  /**
   * `new Link(host, path, verify)`: unless `verify` is falsy the host must be a non-blank
   * string, a RegExp or a non-empty iterable; a missing path becomes `[/.*\/]`.
   */
  function NewLink(host: Spec, path: Option<Spec>, verify: Option<bool>): (r: Result<Site, string>)
    ensures r.Failure? <==> verify != Some(false) && !(ValidString(host) || host.Regex? || ValidIterable(host))
    ensures r.Failure? ==> r.error == HostRequired
    ensures r.Success? ==> r.value.host == host
    ensures r.Success? ==> r.value.path == if path.Some? then path.value else Items([Pattern(MatchAll)])
  {
    var check := if verify.Some? then verify.value else true;
    if check && !(ValidString(host) || host.Regex? || ValidIterable(host)) then Failure(HostRequired)
    else Success(Site(host, if path.Some? then path.value else Items([Pattern(MatchAll)])))
  }

  /** A host name that is not blank passes the check, and the path defaults to the catch-all. */
  lemma HostNamePassesCheck(host: string)
    requires Trim(host) != ""
    ensures NewLink(Text(host), None, None) == Success(Site(Text(host), Items([Pattern(MatchAll)])))
  {
    assert host != "";
  }

  /**
   * A link made from a host name and no path matches every URL of exactly that host,
   * whatever surrounds the host name with whitespace and whatever the path.
   */
  lemma HostOnlyLinkMatchesItsHost(host: string, hostname: string, pathname: string, test: (nat, string) -> bool)
    requires Trim(host) != ""
    requires Trim(hostname) == Trim(host)
    ensures Match(Site(Text(host), Items([Pattern(MatchAll)])), hostname, pathname, test)
  {
    SearchOne(Literal(Trim(host)), Trim(hostname), test);
    SearchOne(Pattern(MatchAll), Trim(pathname), test);
  }

  lemma SearchOne(rule: Rule, target: string, test: (nat, string) -> bool)
    ensures Search(target, [rule], test) == Accepts(rule, target, test)
  {
    assert [rule][1..] == [];
  }

  /** A link that passed the check can match something: its host list is present. */
  lemma CheckedHostIsNeverMissing(host: Spec, path: Option<Spec>, verify: Option<bool>)
    requires verify != Some(false) && NewLink(host, path, verify).Success?
    ensures HostRules(host).Some?
  {
  }

  /** Where `Hunter.query` sends a rule. */
  datatype Engine = XPath | Css

  /**
   * `Hunter.query(rule, node, doc)`: a rule that is not a non-empty string, a missing
   * document or a missing node is an error, checked in that order; a rule starting with
   * `/`, `./`, `(/` or `id(` is XPath, anything else a CSS selector. `None` stands for a
   * rule that is not a string.
   */
  function Query(rule: Option<string>, hasNode: bool, hasDoc: bool): (r: Result<Engine, string>)
    ensures rule.None? || rule == Some("") ==> r == Failure("rule must be a string.")
    ensures rule.Some? && rule.value != "" && !hasDoc ==> r == Failure("doc not found.")
    ensures rule.Some? && rule.value != "" && hasDoc && !hasNode ==> r == Failure("node not found.")
    ensures r.Success? <==> rule.Some? && rule.value != "" && hasDoc && hasNode
  {
    if rule.None? || rule.value == "" then Failure("rule must be a string.")
    else if !hasDoc then Failure("doc not found.")
    else if !hasNode then Failure("node not found.")
    else if StartsWith(rule.value, "/") || StartsWith(rule.value, "./") || StartsWith(rule.value, "(/") || StartsWith(rule.value, "id(")
    then Success(XPath)
    else Success(Css)
  }

  /**
   * The choice of engine looks at no more than the first three characters of the rule, so
   * a long selector is routed by its opening alone.
   */
  lemma QueryReadsThreeCharacters(rule: string, rest: string)
    requires |rule| >= 3
    ensures Query(Some(rule + rest), true, true) == Query(Some(rule), true, true)
  {
    var s := rule + rest;
    assert s[..1] == rule[..1] && s[..2] == rule[..2] && s[..3] == rule[..3];
  }

  /**
   * The same choice read character by character: XPath exactly when the rule starts with
   * `/`, with `.` or `(` followed by `/`, or with `id(`.
   */
  lemma XPathIffPrefix(rule: string)
    requires rule != ""
    ensures Query(Some(rule), true, true) == Success(XPath) <==>
              || rule[0] == '/'
              || (|rule| >= 2 && (rule[0] == '.' || rule[0] == '(') && rule[1] == '/')
              || (|rule| >= 3 && rule[0] == 'i' && rule[1] == 'd' && rule[2] == '(')
  {
    if |rule| >= 2 {
      assert rule[..2] == [rule[0], rule[1]];
    }
    if |rule| >= 3 {
      assert rule[..3] == [rule[0], rule[1], rule[2]];
    }
    assert rule[..1] == [rule[0]];
  }
}

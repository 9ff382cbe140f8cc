/**
 * The pure parts of the GitHub Advanced Security adapter: the REST
 * endpoint of each alert kind, the `Link`-header "next page" parser, and
 * the conversion of one alert into a finding with its fallback chains.
 */
module GitHub {
  import opened Wrappers
  import opened Text
  import opened Json
  import opened DateTime
  import opened Models
  import opened Payload

  // ---------------------------------------------------------------------
  // Endpoints
  // ---------------------------------------------------------------------

  const DefaultApiUrl: string := "https://api.github.com"

  /** The API root as the ingestor keeps it: `api_url.rstrip("/")`. */
  function NormaliseApiUrl(apiUrl: string): (r: string)
    ensures r == [] || r[|r| - 1] != '/'
    ensures |r| <= |apiUrl| && r == apiUrl[..|r|] && forall i :: |r| <= i < |apiUrl| ==> apiUrl[i] == '/'
  {
    RStripChar(apiUrl, '/')
  }

  /** Trailing slashes make no difference to the stored API root, and the
      default root is stored as given. */
  lemma {:induction false} NormaliseApiUrlSlash(apiUrl: string)
    ensures NormaliseApiUrl(apiUrl + "/") == NormaliseApiUrl(apiUrl)
    ensures NormaliseApiUrl(NormaliseApiUrl(apiUrl)) == NormaliseApiUrl(apiUrl)
    ensures NormaliseApiUrl(DefaultApiUrl) == DefaultApiUrl
  {
    assert (apiUrl + "/")[..|apiUrl|] == apiUrl;
  }

  /** `GitHubQuery`. `state` and `severity` are carried but no endpoint
      uses them. */
  datatype Query = Query(owner: string, repo: Option<string>, state: string, severity: Option<string>)

  /** A query with the dataclass defaults. */
  function DefaultQuery(owner: string): Query {
    Query(owner, None, "open", None)
  }

  /** `if query.repo:` */
  predicate HasRepo(q: Query) {
    q.repo.Some? && q.repo.value != ""
  }

  /** The path between the API root and the resource: a repository, or the
      whole organisation when no repository is named. */
  function Scope(q: Query): string {
    if HasRepo(q) then "repos/" + q.owner + "/" + q.repo.value else "orgs/" + q.owner
  }

  /** `_build_endpoint`. */
  function BuildEndpoint(apiUrl: string, resource: string, q: Query): (r: string)
    ensures r == apiUrl + "/" + Scope(q) + "/" + resource
  {
    if HasRepo(q) then apiUrl + "/repos/" + q.owner + "/" + q.repo.value + "/" + resource
    else apiUrl + "/orgs/" + q.owner + "/" + resource
  }

  /** The three alert families the ingestor reads. */
  datatype AlertKind = CodeScanning | SecretScanning | Dependabot

  function ResourcePath(k: AlertKind): string {
    match k
    case CodeScanning => "code-scanning/alerts"
    case SecretScanning => "secret-scanning/alerts"
    case Dependabot => "dependabot/alerts"
  }

  /** The `provider` each fetcher stamps on its findings. */
  function ProviderName(k: AlertKind): string {
    match k
    case CodeScanning => "GitHub Code Scanning"
    case SecretScanning => "GitHub Secret Scanning"
    case Dependabot => "GitHub Dependabot"
  }

  /** The endpoint a fetcher of kind `k` starts paging from. */
  function AlertsEndpoint(apiUrl: string, k: AlertKind, q: Query): string {
    BuildEndpoint(apiUrl, ResourcePath(k), q)
  }

  /** The three fetchers reach three different endpoints and label their
      findings with three different providers. */
  lemma {:induction false} AlertKindsDistinct(apiUrl: string, q: Query, k1: AlertKind, k2: AlertKind)
    requires k1 != k2
    ensures AlertsEndpoint(apiUrl, k1, q) != AlertsEndpoint(apiUrl, k2, q)
    ensures ProviderName(k1) != ProviderName(k2)
  {
    assert |AlertsEndpoint(apiUrl, k1, q)| - |ResourcePath(k1)| == |AlertsEndpoint(apiUrl, k2, q)| - |ResourcePath(k2)|;
  }

  /** A name that is one path segment. */
  predicate Segment(s: string) {
    '/' !in s
  }

  /** In `a + [c] + b` with no `c` in `a`, the first `c` is at `|a|`. */
  lemma {:induction false} SeparatorAt(a: string, b: string, c: char)
    requires c !in a
    ensures (a + [c] + b)[|a|] == c
    ensures forall i :: 0 <= i < |a| ==> (a + [c] + b)[i] != c
  {
  }

  lemma {:induction false} SplitAtFirst(a1: string, b1: string, a2: string, b2: string, c: char)
    requires c !in a1 && c !in a2
    requires a1 + [c] + b1 == a2 + [c] + b2
    ensures a1 == a2 && b1 == b2
  {
    var s := a1 + [c] + b1;
    SeparatorAt(a1, b1, c);
    SeparatorAt(a2, b2, c);
    assert |a1| == |a2|;
    assert a1 == s[..|a1|] && a2 == (a2 + [c] + b2)[..|a2|];
    assert b1 == s[|a1| + 1..] && b2 == (a2 + [c] + b2)[|a2| + 1..];
  }

  /**
   * The endpoint determines the query it was built from: for owners that
   * are single path segments, equal endpoints for the
   * same API root and resource mean the same owner and the same repository
   * (or none). A repository endpoint never equals an organisation one.
   */
  lemma {:induction false} BuildEndpointInjective(apiUrl: string, resource: string, q1: Query, q2: Query)
    requires Segment(q1.owner) && Segment(q2.owner)
    requires BuildEndpoint(apiUrl, resource, q1) == BuildEndpoint(apiUrl, resource, q2)
    ensures q1.owner == q2.owner
    ensures HasRepo(q1) == HasRepo(q2)
    ensures HasRepo(q1) ==> q1.repo.value == q2.repo.value
  {
    ScopeOfEndpoint(apiUrl, resource, q1);
    ScopeOfEndpoint(apiUrl, resource, q2);
    ScopeInjective(q1, q2);
  }

  /** The scope is the part of the endpoint between the root and the
      resource. */
  lemma {:induction false} ScopeOfEndpoint(apiUrl: string, resource: string, q: Query)
    ensures var e := BuildEndpoint(apiUrl, resource, q);
      |apiUrl| + 1 <= |e| - |resource| - 1 && Scope(q) == e[|apiUrl| + 1..|e| - |resource| - 1]
  {
    var e := BuildEndpoint(apiUrl, resource, q);
    assert e == apiUrl + "/" + Scope(q) + "/" + resource;
  }

  lemma {:induction false} ScopeInjective(q1: Query, q2: Query)
    requires Segment(q1.owner) && Segment(q2.owner)
    requires Scope(q1) == Scope(q2)
    ensures q1.owner == q2.owner
    ensures HasRepo(q1) == HasRepo(q2)
    ensures HasRepo(q1) ==> q1.repo.value == q2.repo.value
  {
    var s1 := Scope(q1);
    var s2 := Scope(q2);
    assert s1[0] == if HasRepo(q1) then 'r' else 'o';
    assert s2[0] == if HasRepo(q2) then 'r' else 'o';
    if HasRepo(q1) && HasRepo(q2) {
      assert s1[6..] == q1.owner + "/" + q1.repo.value;
      assert s2[6..] == q2.owner + "/" + q2.repo.value;
      SplitAtFirst(q1.owner, q1.repo.value, q2.owner, q2.repo.value, '/');
    } else if !HasRepo(q1) && !HasRepo(q2) {
      assert q1.owner == s1[5..] && q2.owner == s2[5..];
    }
  }

  // ---------------------------------------------------------------------
  // Link header
  // ---------------------------------------------------------------------

  /** `s[1:-1]`: drop the first and last characters; empty when fewer than
      two. */
  function Unwrap(s: string): (r: string)
    ensures |s| >= 2 ==> s == [s[0]] + r + [s[|s| - 1]]
    ensures |s| < 2 ==> r == []
  {
    if |s| < 2 then [] else s[1..|s| - 1]
  }

  const NextRel: string := "rel=\"next\""

  /** One comma-separated part of a `Link` header: the URL it points to
      when it splits into exactly two `;`-segments and the second one
      contains `rel="next"`. */
  function NextOf(part: string): Option<string> {
    var section := Split(part, ';');
    if |section| != 2 then None
    else if Contains(section[1], NextRel) then Some(Unwrap(Strip(section[0])))
    else None
  }

  /** A part with exactly two `;`-segments is a "next" link exactly when its
      second segment mentions `rel="next"`, and then it points to the first
      segment, stripped and unwrapped. */
  lemma {:induction false} NextOfTwoSegments(url: string, rel: string)
    requires ';' !in url && ';' !in rel
    ensures NextOf(url + [';'] + rel) == if Contains(rel, NextRel) then Some(Unwrap(Strip(url))) else None
  {
    SplitAfterPiece(url, rel, ';');
    SplitNoSeparator(rel, ';');
  }

  /** A part without `;` is skipped. */
  lemma {:induction false} NextOfOneSegment(part: string)
    requires ';' !in part
    ensures NextOf(part) == None
  {
    SplitNoSeparator(part, ';');
  }

  /** A part with three or more `;`-segments is skipped, whatever its
      segments say. */
  lemma {:induction false} NextOfManySegments(a: string, b: string, rest: string)
    requires ';' !in a && ';' !in b
    ensures NextOf(a + [';'] + b + [';'] + rest) == None
  {
    var part := a + [';'] + b + [';'] + rest;
    assert part == a + [';'] + (b + [';'] + rest);
    SplitAfterPiece(a, b + [';'] + rest, ';');
    SplitAfterPiece(b, rest, ';');
  }

  /** The URL of the first part that is a "next" link. */
  function FirstNext(parts: seq<string>): Option<string> {
    if parts == [] then None
    else if NextOf(parts[0]).Some? then NextOf(parts[0])
    else FirstNext(parts[1..])
  }

  /** A part is a "next" link. */
  predicate IsNext(part: string) {
    NextOf(part).Some?
  }

  /** The index of the first item `p` holds for; `|xs|` when there is
      none. */
  function FirstWhere<T>(xs: seq<T>, p: T -> bool): (n: nat)
    ensures n <= |xs|
    ensures n < |xs| ==> p(xs[n])
    ensures forall j | 0 <= j < n :: !p(xs[j])
  {
    if xs == [] then 0
    else if p(xs[0]) then 0
    else
      var n := 1 + FirstWhere(xs[1..], p);
      assert forall j | 1 <= j < n :: xs[j] == xs[1..][j - 1];
      n
  }

  /** `FirstNext` reads the part at the first "next" link. */
  lemma {:induction false} FirstNextAt(parts: seq<string>)
    ensures FirstNext(parts) ==
      if FirstWhere(parts, IsNext) < |parts| then NextOf(parts[FirstWhere(parts, IsNext)]) else None
  {
    if parts != [] && !IsNext(parts[0]) {
      var rest := parts[1..];
      FirstNextAt(rest);
      assert FirstNext(parts) == FirstNext(rest);
      var k := FirstWhere(rest, IsNext);
      assert FirstWhere(parts, IsNext) == 1 + k;
      if k < |rest| {
        assert parts[1 + k] == rest[k];
      }
    }
  }

  /** What `FirstNext` finds is the URL of the first "next" link, and it
      finds something exactly when there is one. */
  lemma {:induction false} FirstNextSpec(parts: seq<string>)
    ensures FirstNext(parts).Some? <==> exists i | 0 <= i < |parts| :: IsNext(parts[i])
    ensures FirstNext(parts).Some? ==>
      exists i | 0 <= i < |parts| :: FirstNext(parts) == NextOf(parts[i]) && forall j | 0 <= j < i :: !IsNext(parts[j])
  {
    var k := FirstWhere(parts, IsNext);
    FirstNextAt(parts);
    if k < |parts| {
      assert IsNext(parts[k]);
      assert FirstNext(parts) == NextOf(parts[k]) && forall j | 0 <= j < k :: !IsNext(parts[j]);
    } else {
      assert forall i | 0 <= i < |parts| :: !IsNext(parts[i]);
    }
  }

  /**
   * `_extract_next_link`: nothing for a missing or empty header; otherwise
   * the URL of the first comma-separated part that is a "next" link, if
   * any.
   */
  function ExtractNextLink(header: Option<string>): (r: Option<string>)
    ensures header.None? || header.value == "" ==> r == None
    ensures header.Some? && header.value != "" ==> r == FirstNext(Split(header.value, ','))
  {
    if header.None? || header.value == "" then None
    else FirstNext(Split(header.value, ','))
  }

  /** The relations GitHub writes in pagination links. */
  datatype Rel = Next | Prev | First | Last

  function RelName(rel: Rel): string {
    match rel
    case Next => "next"
    case Prev => "prev"
    case First => "first"
    case Last => "last"
  }

  datatype Link = Link(url: string, rel: Rel)

  /** `<url>; rel="name"` */
  function LinkText(l: Link): string {
    "<" + l.url + ">" + ";" + RelText(l.rel)
  }

  /** The segment after the `;`. */
  function RelText(rel: Rel): string {
    " rel=\"" + RelName(rel) + "\""
  }

  /** The parts of a header, each link after the first preceded by a space. */
  function LinkItems(links: seq<Link>): (items: seq<string>)
    ensures |items| == |links|
    ensures forall i :: 0 <= i < |links| ==> items[i] == (if i == 0 then "" else " ") + LinkText(links[i])
  {
    seq(|links|, i requires 0 <= i < |links| => (if i == 0 then "" else " ") + LinkText(links[i]))
  }

  /** A `Link` header as GitHub writes it: the links joined by ", ". */
  function LinkHeader(links: seq<Link>): string {
    if links == [] then "" else Join(LinkItems(links), ',')
  }

  /** A URL that needs no escaping inside a `Link` header. */
  predicate PlainUrl(u: string) {
    ',' !in u && ';' !in u
  }

  /** The URL of the first link whose relation is "next". */
  function FirstNextUrl(links: seq<Link>): Option<string> {
    if links == [] then None
    else if links[0].rel == Next then Some(links[0].url)
    else FirstNextUrl(links[1..])
  }

  /** Only the "next" relation contains `rel="next"`. */
  lemma {:induction false} RelTextContainsNext(rel: Rel)
    ensures Contains(RelText(rel), NextRel) <==> rel == Next
  {
    if rel == Next {
      NextRelText();
    } else {
      OtherRelText(rel);
    }
  }

  lemma {:induction false} NextRelText()
    ensures Contains(RelText(Next), NextRel)
  {
    var t := RelText(Next);
    assert t == " " + NextRel;
    assert OccursAt(t, NextRel, 1);
  }

  lemma {:induction false} OtherRelText(rel: Rel)
    requires rel != Next
    ensures !Contains(RelText(rel), NextRel)
  {
    var t := RelText(rel);
    var name := RelName(rel);
    assert t == " rel=\"" + name + "\"";
    assert |name| >= 4 && name[0] != 'n';
    assert t[6] == name[0];
    forall i | 0 <= i <= |t| - |NextRel| ensures !OccursAt(t, NextRel, i) {
      if i == 1 {
        assert t[1..11][5] != NextRel[5];
      } else {
        assert t[i..i + 10][0] != NextRel[0];
      }
    }
  }

  /** A part written as `pre<url>; rel="name"` splits at its one `;`. */
  lemma {:induction false} SplitLinkText(pre: string, l: Link)
    requires AllSpace(pre) && PlainUrl(l.url)
    ensures Split(pre + LinkText(l), ';') == [pre + "<" + l.url + ">", RelText(l.rel)]
  {
    var core := "<" + l.url + ">";
    var a := pre + core;
    var b := RelText(l.rel);
    assert pre + LinkText(l) == a + [';'] + b;
    assert ';' !in a by {
      forall i | 0 <= i < |a| ensures a[i] != ';' {
        if i < |pre| {
          assert IsSpace(pre[i]);
        } else if |pre| < i < |a| - 1 {
          assert a[i] == l.url[i - |pre| - 1];
        }
      }
    }
    assert ';' !in b by {
      var name := RelName(l.rel);
      assert b == " rel=\"" + name + "\"";
      assert ';' !in name;
    }
    SplitAfterPiece(a, b, ';');
    SplitNoSeparator(b, ';');
    assert a == pre + "<" + l.url + ">";
    assert Split(pre + LinkText(l), ';') == [a] + [b];
  }

  /** One part written as `pre<url>; rel="name"` is read back as its URL
      exactly when the relation is "next". */
  lemma {:induction false} NextOfLinkText(pre: string, l: Link)
    requires AllSpace(pre) && PlainUrl(l.url)
    ensures NextOf(pre + LinkText(l)) == if l.rel == Next then Some(l.url) else None
  {
    var core := "<" + l.url + ">";
    var part := pre + LinkText(l);
    SplitLinkText(pre, l);
    var section := Split(part, ';');
    assert |section| == 2 && section[0] == pre + core + "" && section[1] == RelText(l.rel);
    RelTextContainsNext(l.rel);
    StripPadded(pre, core, "");
    var stripped := Strip(section[0]);
    assert stripped == core;
    assert Unwrap(stripped) == l.url;
  }

  /** The first item of a suffix of a written header is read on its own. */
  lemma {:induction false} FirstNextOfLinkAt(links: seq<Link>, k: nat)
    requires k < |links| && PlainUrl(links[k].url)
    ensures FirstNext(LinkItems(links)[k..]) ==
      if links[k].rel == Next then Some(links[k].url) else FirstNext(LinkItems(links)[k + 1..])
  {
    var pre := if k == 0 then "" else " ";
    var tail := LinkItems(links)[k..];
    assert tail[0] == pre + LinkText(links[k]);
    NextOfLinkText(pre, links[k]);
    assert tail[1..] == LinkItems(links)[k + 1..];
  }

  lemma {:induction false} FirstNextOfLinks(links: seq<Link>, k: nat)
    requires k <= |links|
    requires forall i :: 0 <= i < |links| ==> PlainUrl(links[i].url)
    ensures FirstNext(LinkItems(links)[k..]) == FirstNextUrl(links[k..])
    decreases |links| - k
  {
    if k < |links| {
      FirstNextOfLinks(links, k + 1);
      FirstNextOfLinkAt(links, k);
      assert links[k..][0] == links[k] && links[k..][1..] == links[k + 1..];
    }
  }

  /**
   * Reading a header GitHub could have written gives the first "next" URL,
   * or nothing when there is no "next" link: `_extract_next_link` inverts
   * the header format for URLs without `,` or `;`.
   */
  lemma {:induction false} ExtractNextLinkOfHeader(links: seq<Link>)
    requires forall i :: 0 <= i < |links| ==> PlainUrl(links[i].url)
    ensures ExtractNextLink(Some(LinkHeader(links))) == FirstNextUrl(links)
  {
    if links != [] {
      var items := LinkItems(links);
      LinkItemsPlain(links);
      SplitJoin(items, ',');
      FirstNextOfLinks(links, 0);
      assert items[0..] == items && links[0..] == links;
      assert LinkHeader(links) != "" by {
        assert |items[0]| > 0;
        assert Split(LinkHeader(links), ',') == items;
      }
    }
  }

  lemma {:induction false} LinkItemsPlain(links: seq<Link>)
    requires forall i :: 0 <= i < |links| ==> PlainUrl(links[i].url)
    ensures forall i :: 0 <= i < |links| ==> ',' !in LinkItems(links)[i]
  {
    forall i | 0 <= i < |links| ensures ',' !in LinkItems(links)[i] {
      var pre := if i == 0 then "" else " ";
      var core := "<" + links[i].url + ">";
      var b := RelText(links[i].rel);
      assert ',' !in b by {
        var name := RelName(links[i].rel);
        assert b == " rel=\"" + name + "\"";
      }
      assert LinkItems(links)[i] == pre + core + ";" + b;
    }
  }

  // ---------------------------------------------------------------------
  // Alert -> finding
  // ---------------------------------------------------------------------

  /** The severity text an alert offers: the rule's severity when truthy,
      otherwise the advisory's, "low" when it has none. */
  function SeverityValue(payload: Object): Json {
    Or(At(payload, ["rule", "severity"]), AtOr(payload, ["security_vulnerability", "severity"], Str("low")))
  }

  /** The title an alert offers: the rule's description when truthy,
      otherwise the summary, "(no title)" when there is none. */
  function TitleValue(payload: Object): Json {
    Or(At(payload, ["rule", "description"]), AtOr(payload, ["summary"], Str("(no title)")))
  }

  /** The alert number, or its `id` when the number is falsy. */
  function IdValue(payload: Object): Json {
    Or(At(payload, ["number"]), At(payload, ["id"]))
  }

  function UrlValue(payload: Object): Json {
    Or(At(payload, ["html_url"]), At(payload, ["url"]))
  }

  function CreatedValue(payload: Object): Json {
    Or(At(payload, ["created_at"]), At(payload, ["created"]))
  }

  /** The severity expression of `_convert_alert`, evaluated left to right:
      the advisory object is only looked at when the rule's severity is
      falsy. */
  function AlertSeverityText(payload: Object, rule: Object): (r: Result<Json, Error>)
    requires GetObj(payload, "rule") == Ok(rule)
    ensures r.Ok? ==> r.value == SeverityValue(payload)
    ensures r.Err? ==> r.error == WrongType("security_vulnerability") && !SeverityValue(payload).Str?
  {
    AtNested(payload, "rule", rule, "severity", Null);
    var first := Get(rule, "severity", Null);
    if Truthy(first) then Ok(first)
    else
      var vuln :- GetObj(payload, "security_vulnerability");
      Ok(Get(vuln, "severity", Str("low")))
  }

  /** A creation time the alert conversion reads: falsy, or a string
      that parses once each `Z` is written as `+00:00`. */
  predicate CreatedText(created: Json) {
    !Truthy(created) || (created.Str? && Parse(ReplaceChar(created.s, 'Z', "+00:00")).Some?)
  }

  /** `created.replace("Z", "+00:00")` parsed when `created` is truthy. */
  function AlertTimestamp(created: Json): (r: Result<Option<Timestamp>, Error>)
    ensures r.Ok? <==> CreatedText(created)
    ensures !Truthy(created) ==> r == Ok(None)
    ensures r.Ok? && Truthy(created) ==> created.Str? && r == Ok(Parse(ReplaceChar(created.s, 'Z', "+00:00")))
    ensures created.Str? && Truthy(created) && Parse(ReplaceChar(created.s, 'Z', "+00:00")).None? ==>
      r == Err(MalformedTimestamp(ReplaceChar(created.s, 'Z', "+00:00")))
    ensures Truthy(created) && !created.Str? ==> r == Err(WrongType("created_at"))
  {
    if !Truthy(created) then Ok(None)
    else if created.Str? then
      var text := ReplaceChar(created.s, 'Z', "+00:00");
      match Parse(text)
      case None => Err(MalformedTimestamp(text))
      case Some(t) => Ok(Some(t))
    else Err(WrongType("created_at"))
  }

  /** The identifier, title and severity of an alert, in the order the
      constructor call evaluates them. */
  function AlertHead(payload: Object): Result<(string, string, Severity), Error> {
    var rule :- GetObj(payload, "rule");
    var severity :- AlertSeverityText(payload, rule);
    var id :- PyStr(Or(Get(payload, "number", Null), Get(payload, "id", Null)), "id");
    var title :- AsString(Or(Get(rule, "description", Null), Get(payload, "summary", Str("(no title)"))), "title");
    var level :- AlertLevel(severity);
    Ok((id, title, level))
  }

  /** An alert whose head converts: `rule` is a dictionary or absent, the
      severity text names a severity, the identifier is a scalar and the
      title a string. */
  predicate AlertHeadReadable(payload: Object) {
    && GetObj(payload, "rule").Ok?
    && SeverityValue(payload).Str? && FromString(SeverityValue(payload).s).Ok?
    && PyStr(IdValue(payload), "id").Ok?
    && TitleValue(payload).Str?
  }

  /** A path of one key is a single lookup. */
  lemma {:induction false} AtSingle(d: Object, k: string, default: Json)
    ensures At(d, [k]) == Get(d, k, Null)
    ensures AtOr(d, [k], default) == Get(d, k, default)
  {
  }

  /** A path of two keys looks the second up in the dictionary the first
      gives, an absent first key giving the empty one. */
  lemma {:induction false} AtNested(d: Object, k: string, inner: Object, k2: string, default: Json)
    requires GetObj(d, k) == Ok(inner)
    ensures At(d, [k, k2]) == Get(inner, k2, Null)
    ensures AtOr(d, [k, k2], default) == Get(inner, k2, default)
  {
    if k in d {
      assert [k, k2][1..] == [k2];
      AtSingle(inner, k2, default);
    }
  }

  /** What the head reads: the id, title and severity fallback chains. */
  lemma {:induction false} AlertHeadSpec(payload: Object)
    ensures AlertHead(payload).Ok? <==> AlertHeadReadable(payload)
    ensures var r := AlertHead(payload); r.Ok? ==>
      && PyStr(IdValue(payload), "id") == Ok(r.value.0)
      && TitleValue(payload) == Str(r.value.1)
      && SeverityValue(payload).Str? && FromString(SeverityValue(payload).s) == Ok(r.value.2)
    ensures SeverityValue(payload).Str? && FromString(SeverityValue(payload).s).Err? ==> AlertHead(payload).Err?
  {
    AtSingle(payload, "number", Null);
    AtSingle(payload, "id", Null);
    AtSingle(payload, "summary", Str("(no title)"));
    if GetObj(payload, "rule").Ok? {
      var rule := GetObj(payload, "rule").value;
      AtNested(payload, "rule", rule, "description", Null);
    }
  }

  /** The severity text, which must be a string, normalised. */
  function AlertLevel(severity: Json): (r: Result<Severity, Error>)
    ensures r.Ok? ==> severity.Str? && FromString(severity.s) == r
    ensures severity.Str? ==> r == FromString(severity.s)
  {
    var text :- AsString(severity, "severity");
    FromString(text)
  }

  /** An alert whose optional fields convert: the latest instance, its
      message and its location are dictionaries or absent, the message
      text, the URL and the path are strings or null, and the creation
      time is readable. */
  predicate AlertDetailsReadable(payload: Object) {
    && GetObj(payload, "most_recent_instance").Ok?
    && GetObj(GetObj(payload, "most_recent_instance").value, "message").Ok?
    && GetObj(GetObj(payload, "most_recent_instance").value, "location").Ok?
    && OptionalText(At(payload, ["most_recent_instance", "message", "text"]))
    && OptionalText(UrlValue(payload))
    && OptionalText(At(payload, ["most_recent_instance", "location", "path"]))
    && CreatedText(CreatedValue(payload))
  }

  /** The optional fields of an alert: the latest instance's message and
      path, the web URL and the creation time. */
  function AlertDetails(payload: Object): (r: Result<(Option<string>, Option<string>, Option<string>, Option<Timestamp>), Error>)
    ensures r.Ok? ==>
      && Holds(At(payload, ["most_recent_instance", "message", "text"]), r.value.0)
      && Holds(UrlValue(payload), r.value.1)
      && Holds(At(payload, ["most_recent_instance", "location", "path"]), r.value.2)
      && AlertTimestamp(CreatedValue(payload)) == Ok(r.value.3)
    ensures r.Ok? <==> AlertDetailsReadable(payload)
  {
    var instance :- GetObj(payload, "most_recent_instance");
    var message :- GetObj(instance, "message");
    var description :- AsOptionalString(Get(message, "text", Null), "description");
    var url :- AsOptionalString(Or(Get(payload, "html_url", Null), Get(payload, "url", Null)), "url");
    var location :- GetObj(instance, "location");
    var resource :- AsOptionalString(Get(location, "path", Null), "resource");
    var createdAt :- AlertTimestamp(Or(Get(payload, "created_at", Null), Get(payload, "created", Null)));
    Ok((description, url, resource, createdAt))
  }

  /**
   * `_convert_alert`: the provider is the caller's; the severity is the
   * rule's, else the advisory's, else "low", normalised and rejected when
   * unknown; the title is the rule's description, else the summary, else
   * "(no title)"; the URL is `html_url`, else `url`; the creation time is
   * `created_at`, else `created`, with a `Z` read as UTC.
   */
  function ConvertAlert(payload: Object, provider: string): (r: Result<Finding, Error>)
    ensures r.Ok? ==>
      && r.value.provider == provider
      && PyStr(IdValue(payload), "id") == Ok(r.value.id)
      && TitleValue(payload) == Str(r.value.title)
      && SeverityValue(payload).Str? && FromString(SeverityValue(payload).s) == Ok(r.value.severity)
    ensures r.Ok? ==>
      && Holds(At(payload, ["most_recent_instance", "message", "text"]), r.value.description)
      && Holds(UrlValue(payload), r.value.url)
      && Holds(At(payload, ["most_recent_instance", "location", "path"]), r.value.resource)
      && AlertTimestamp(CreatedValue(payload)) == Ok(r.value.createdAt)
    ensures SeverityValue(payload).Str? && FromString(SeverityValue(payload).s).Err? ==> r.Err?
  {
    AlertHeadSpec(payload);
    var head :- AlertHead(payload);
    var details :- AlertDetails(payload);
    Ok(Finding(provider, head.0, head.1, head.2, details.0, details.1, details.2, details.3))
  }

  /** An alert converts exactly when its head and its optional fields are
      readable. */
  lemma {:induction false} ConvertAlertReadable(payload: Object, provider: string)
    ensures ConvertAlert(payload, provider).Ok? <==> AlertHeadReadable(payload) && AlertDetailsReadable(payload)
  {
    AlertHeadSpec(payload);
  }

  /** An alert with none of the keys the conversion reads becomes a Low
      finding with the id "None" and the title "(no title)". */
  lemma {:induction false} ConvertAlertDefaults(provider: string)
    ensures ConvertAlert(map[], provider) == Ok(Finding(provider, "None", "(no title)", Low, None, None, None, None))
  {
    AlertHeadDefaults();
    AlertDetailsDefaults();
  }

  lemma {:induction false} LowerLow()
    ensures Lower(Label(Low)) == "low"
  {
    var l := Lower("LOW");
    assert Label(Low) == "LOW";
    assert l[0] == LowerChar('L') == 'l';
    assert l[1] == LowerChar('O') == 'o';
    assert l[2] == LowerChar('W') == 'w';
  }

  /** The default severity text "low" is the level Low. */
  lemma {:induction false} LowLevel()
    ensures AlertLevel(Str("low")) == Ok(Low)
  {
    LowerLabelFromString(Low);
    LowerLow();
  }

  /** With no rule and no advisory the severity text is "low". */
  lemma {:induction false} DefaultSeverityText()
    ensures GetObj(map[], "rule") == Ok(map[])
    ensures AlertSeverityText(map[], map[]) == Ok(Str("low"))
  {
    var empty: Object := map[];
    assert GetObj(empty, "security_vulnerability") == Ok(empty);
  }

  lemma {:induction false} AlertHeadDefaults()
    ensures AlertHead(map[]) == Ok(("None", "(no title)", Low))
  {
    var empty: Object := map[];
    DefaultSeverityText();
    LowLevel();
    assert PyStr(Or(Get(empty, "number", Null), Get(empty, "id", Null)), "id") == Ok("None");
    assert AsString(Or(Get(empty, "description", Null), Get(empty, "summary", Str("(no title)"))), "title") == Ok("(no title)");
    AlertHeadFrom(empty, empty, Str("low"), "None", "(no title)", Low);
  }

  lemma {:induction false} AlertDetailsDefaults()
    ensures AlertDetails(map[]) == Ok((None, None, None, None))
  {
    assert AlertTimestamp(Or(Null, Null)) == Ok(None);
  }

  /** Setting one key leaves every other lookup as it was. */
  lemma {:induction false} GetOther(payload: Object, k: string, v: Json, key: string, default: Json)
    requires key != k
    ensures Get(payload[k := v], key, default) == Get(payload, key, default)
    ensures GetObj(payload[k := v], key) == GetObj(payload, key)
  {
  }

  /** A truthy rule severity wins: the advisory is then never looked at,
      whatever it holds. */
  lemma {:induction false} ConvertAlertRuleSeverityFirst(payload: Object, provider: string, advisory: Json)
    requires "rule" in payload && payload["rule"].Obj? && Truthy(Get(payload["rule"].fields, "severity", Null))
    ensures ConvertAlert(payload["security_vulnerability" := advisory], provider) == ConvertAlert(payload, provider)
  {
    AlertHeadIgnoresAdvisory(payload, advisory);
    AlertDetailsIgnoreAdvisory(payload, advisory);
  }

  lemma {:induction false} AlertHeadIgnoresAdvisory(payload: Object, advisory: Json)
    requires "rule" in payload && payload["rule"].Obj? && Truthy(Get(payload["rule"].fields, "severity", Null))
    ensures AlertHead(payload["security_vulnerability" := advisory]) == AlertHead(payload)
  {
    var k := "security_vulnerability";
    var p2 := payload[k := advisory];
    var rule := payload["rule"].fields;
    GetOther(payload, k, advisory, "rule", Null);
    GetOther(payload, k, advisory, "number", Null);
    GetOther(payload, k, advisory, "id", Null);
    GetOther(payload, k, advisory, "summary", Str("(no title)"));
    assert GetObj(payload, "rule") == Ok(rule);
    assert AlertSeverityText(p2, rule) == AlertSeverityText(payload, rule);
  }

  lemma {:induction false} AlertDetailsIgnoreAdvisory(payload: Object, advisory: Json)
    ensures AlertDetails(payload["security_vulnerability" := advisory]) == AlertDetails(payload)
  {
    var k := "security_vulnerability";
    GetOther(payload, k, advisory, "most_recent_instance", Null);
    GetOther(payload, k, advisory, "html_url", Null);
    GetOther(payload, k, advisory, "url", Null);
    GetOther(payload, k, advisory, "created_at", Null);
    GetOther(payload, k, advisory, "created", Null);
  }

  /** The alert that carries only an advisory with a severity, as a
      Dependabot alert does. */
  function AdvisoryAlert(text: string): Object {
    map["security_vulnerability" := Obj(map["severity" := Str(text)])]
  }

  /** Without a rule the advisory's severity is the one normalised: a
      known level gives that level, an unknown one rejects the alert. */
  lemma {:induction false} ConvertAlertAdvisorySeverity(text: string, provider: string)
    ensures FromString(text).Ok? ==>
      ConvertAlert(AdvisoryAlert(text), provider) == Ok(Finding(provider, "None", "(no title)", FromString(text).value, None, None, None, None))
    ensures FromString(text).Err? ==> ConvertAlert(AdvisoryAlert(text), provider).Err?
  {
    AdvisoryHead(text);
    AdvisoryDetails(text);
  }

  lemma {:induction false} AdvisoryHead(text: string)
    ensures FromString(text).Ok? ==> AlertHead(AdvisoryAlert(text)) == Ok(("None", "(no title)", FromString(text).value))
    ensures FromString(text).Err? ==> AlertHead(AdvisoryAlert(text)).Err?
  {
    var p := AdvisoryAlert(text);
    var empty: Object := map[];
    assert GetObj(p, "rule") == Ok(empty);
    assert GetObj(p, "security_vulnerability") == Ok(map["severity" := Str(text)]);
    assert AlertSeverityText(p, empty) == Ok(Str(text));
    assert PyStr(Or(Get(p, "number", Null), Get(p, "id", Null)), "id") == Ok("None");
    assert AsString(Or(Get(empty, "description", Null), Get(p, "summary", Str("(no title)"))), "title") == Ok("(no title)");
    assert AlertLevel(Str(text)) == FromString(text);
  }

  lemma {:induction false} AdvisoryDetails(text: string)
    ensures AlertDetails(AdvisoryAlert(text)) == Ok((None, None, None, None))
  {
    var p := AdvisoryAlert(text);
    var empty: Object := map[];
    assert GetObj(p, "most_recent_instance") == Ok(empty);
    assert Or(Get(p, "html_url", Null), Get(p, "url", Null)) == Null;
    assert AlertTimestamp(Or(Get(p, "created_at", Null), Get(p, "created", Null))) == Ok(None);
  }

  /** The alert whose rule carries only a severity level. */
  function RuleLevelAlert(level: string): Object {
    map["rule" := Obj(map["severity" := Str(level)])]
  }

  lemma {:induction false} RuleLevelSeverity(level: string)
    requires level != ""
    ensures SeverityValue(RuleLevelAlert(level)) == Str(level)
  {
    var rule: Object := map["severity" := Str(level)];
    assert At(rule, ["severity"]) == Str(level);
    assert At(RuleLevelAlert(level), ["rule", "severity"]) == Str(level);
  }

  /** A string with no surrounding whitespace normalises to its
      upper-case form. */
  lemma {:induction false} TrimmedNormalised(level: string)
    requires Trimmed(level)
    ensures Normalise(level) == Upper(level)
  {
    assert [] + level + [] == level;
    StripPadded([], level, []);
  }

  /** A four-letter word is upper-cased letter by letter. */
  lemma {:induction false} UpperWord(w: string, u: string)
    requires |w| == 4 && |u| == 4
    requires UpperChar(w[0]) == u[0] && UpperChar(w[1]) == u[1]
    requires UpperChar(w[2]) == u[2] && UpperChar(w[3]) == u[3]
    ensures Upper(w) == u
  {
    var x := Upper(w);
    assert x == [x[0], x[1], x[2], x[3]];
    assert u == [u[0], u[1], u[2], u[3]];
  }

  /** A lower-case four-letter word whose upper-case form names no
      severity is rejected. */
  lemma {:induction false} FourLetterUnknown(w: string, u: string)
    requires |w| == 4 && |u| == 4 && Trimmed(w) && u[0] != 'H' && u[0] != 'I'
    requires UpperChar(w[0]) == u[0] && UpperChar(w[1]) == u[1]
    requires UpperChar(w[2]) == u[2] && UpperChar(w[3]) == u[3]
    ensures FromString(w).Err?
  {
    TrimmedNormalised(w);
    UpperWord(w, u);
    FromStringFourLetters(w);
  }

  /** A word with no surrounding whitespace whose length no name or alias
      has is rejected; "warning" and "error" are such words. */
  lemma {:induction false} OtherLengthUnknown(w: string)
    requires Trimmed(w) && (|w| == 5 || |w| == 7)
    ensures FromString(w).Err?
  {
    TrimmedNormalised(w);
    FromStringOtherLength(w);
  }

  /** A rule level that names no severity rejects the alert. */
  lemma {:induction false} RuleLevelRejected(level: string, provider: string)
    requires level != "" && FromString(level).Err?
    ensures ConvertAlert(RuleLevelAlert(level), provider).Err?
  {
    RuleLevelSeverity(level);
    UnknownSeverityRejected(RuleLevelAlert(level), provider);
  }

  /** None of the code-scanning rule levels is a severity name ("none" and
      "note" are no name or alias, "warning" and "error" have no name's
      length), so an alert whose rule carries one is rejected rather than
      defaulted. */
  lemma {:induction false} ConvertAlertRuleLevelRejected(level: string, provider: string)
    requires level == "none" || level == "note" || level == "warning" || level == "error"
    ensures ConvertAlert(RuleLevelAlert(level), provider).Err?
  {
    if level == "none" {
      FourLetterUnknown(level, "NONE");
    } else if level == "note" {
      FourLetterUnknown(level, "NOTE");
    } else {
      OtherLengthUnknown(level);
    }
    RuleLevelRejected(level, provider);
  }

  /** An alert whose severity text names no severity is rejected. */
  lemma {:induction false} UnknownSeverityRejected(payload: Object, provider: string)
    requires SeverityValue(payload).Str? && FromString(SeverityValue(payload).s).Err?
    ensures ConvertAlert(payload, provider).Err?
  {
  }

  /** `{key: value}` when the field is present, `{}` otherwise. */
  function Entry(key: string, o: Option<string>): Object {
    if o.Some? then map[key := Str(o.value)] else map[]
  }

  /** The `rule` object of a generated alert: lower-case severity, title. */
  function AlertRule(f: Finding): Object {
    map["severity" := Str(Lower(Label(f.severity))), "description" := Str(f.title)]
  }

  /** The `most_recent_instance` object of a generated alert. */
  function AlertInstance(f: Finding): Object {
    map["message" := Obj(Entry("text", f.description)), "location" := Obj(Entry("path", f.resource))]
  }

  /** An alert payload carrying a severity name and the fields of `f`:
      the rule gives the lower-case severity and the title, the latest
      instance the message and the path. */
  function AlertPayload(number: nat, f: Finding): Object {
    var base := map["number" := Num(number), "rule" := Obj(AlertRule(f)), "most_recent_instance" := Obj(AlertInstance(f))];
    var withUrl := if f.url.Some? then base["html_url" := Str(f.url.value)] else base;
    if f.createdAt.Some? then withUrl["created_at" := Str(Format(f.createdAt.value))] else withUrl
  }

  /** What each lookup of the conversion finds in a generated alert. */
  lemma {:induction false} AlertPayloadKeys(number: nat, f: Finding)
    ensures GetObj(AlertPayload(number, f), "rule") == Ok(AlertRule(f))
    ensures GetObj(AlertPayload(number, f), "most_recent_instance") == Ok(AlertInstance(f))
    ensures Get(AlertPayload(number, f), "number", Null) == Num(number)
    ensures Get(AlertPayload(number, f), "html_url", Null) == OptStr(f.url)
    ensures Get(AlertPayload(number, f), "url", Null) == Null
    ensures Get(AlertPayload(number, f), "created", Null) == Null
    ensures f.createdAt.Some? ==> Get(AlertPayload(number, f), "created_at", Null) == Str(Format(f.createdAt.value))
    ensures f.createdAt.None? ==> Get(AlertPayload(number, f), "created_at", Null) == Null
  {
    AlertPayloadParts(number, f);
    AlertPayloadLinks(number, f);
  }

  lemma {:induction false} AlertPayloadParts(number: nat, f: Finding)
    ensures GetObj(AlertPayload(number, f), "rule") == Ok(AlertRule(f))
    ensures GetObj(AlertPayload(number, f), "most_recent_instance") == Ok(AlertInstance(f))
    ensures Get(AlertPayload(number, f), "number", Null) == Num(number)
  {
    var p := AlertPayload(number, f);
    assert "rule" in p && p["rule"] == Obj(AlertRule(f));
    assert "most_recent_instance" in p && p["most_recent_instance"] == Obj(AlertInstance(f));
    assert "number" in p && p["number"] == Num(number);
  }

  lemma {:induction false} AlertPayloadLinks(number: nat, f: Finding)
    ensures Get(AlertPayload(number, f), "html_url", Null) == OptStr(f.url)
    ensures Get(AlertPayload(number, f), "url", Null) == Null
    ensures Get(AlertPayload(number, f), "created", Null) == Null
    ensures f.createdAt.Some? ==> Get(AlertPayload(number, f), "created_at", Null) == Str(Format(f.createdAt.value))
    ensures f.createdAt.None? ==> Get(AlertPayload(number, f), "created_at", Null) == Null
  {
    var p := AlertPayload(number, f);
    assert "url" !in p && "created" !in p;
  }

  /** What the conversion finds inside the generated rule and instance. */
  lemma {:induction false} AlertPartsKeys(f: Finding)
    ensures Get(AlertRule(f), "severity", Null) == Str(Lower(Label(f.severity)))
    ensures Get(AlertRule(f), "description", Null) == Str(f.title)
    ensures GetObj(AlertInstance(f), "message") == Ok(Entry("text", f.description))
    ensures GetObj(AlertInstance(f), "location") == Ok(Entry("path", f.resource))
    ensures Get(Entry("text", f.description), "text", Null) == OptStr(f.description)
    ensures Get(Entry("path", f.resource), "path", Null) == OptStr(f.resource)
  {
  }

  /** The lower-case label of a level normalises back to that level. */
  lemma {:induction false} LowerLabelFromString(s: Severity)
    ensures Lower(Label(s)) != [] && FromString(Lower(Label(s))) == Ok(s)
  {
    var l := Label(s);
    var v := Lower(l);
    LabelTrimmed(s);
    UpperLower(l);
    assert Upper(v) == l;
    assert [] + v + [] == v;
    FromStringCanonical(s, [], v, []);
  }

  /** The head of any alert whose lookups give these values. */
  lemma {:induction false} AlertHeadOf(p: Object, rule: Object, number: nat, title: string, text: string, level: Severity)
    requires GetObj(p, "rule") == Ok(rule)
    requires Get(rule, "severity", Null) == Str(text) && text != []
    requires AlertLevel(Str(text)) == Ok(level)
    requires Get(p, "number", Null) == Num(number) && number > 0
    requires Get(rule, "description", Null) == Str(title) && title != ""
    ensures AlertHead(p) == Ok((IntToDecimal(number), title, level))
  {
    RuleSeverityText(p, rule, text);
    NumberId(p, number);
    DescriptionTitle(p, rule, title);
    AlertHeadFrom(p, rule, Str(text), IntToDecimal(number), title, level);
  }

  /** A positive alert number is the id, written in decimal. */
  lemma {:induction false} NumberId(p: Object, number: nat)
    requires Get(p, "number", Null) == Num(number) && number > 0
    ensures PyStr(Or(Get(p, "number", Null), Get(p, "id", Null)), "id") == Ok(IntToDecimal(number))
  {
    assert Truthy(Num(number));
  }

  /** A non-empty rule description is the title. */
  lemma {:induction false} DescriptionTitle(p: Object, rule: Object, title: string)
    requires Get(rule, "description", Null) == Str(title) && title != ""
    ensures AsString(Or(Get(rule, "description", Null), Get(p, "summary", Str("(no title)"))), "title") == Ok(title)
  {
    assert Truthy(Str(title));
  }

  /** The head is assembled from its four lookups. */
  lemma {:induction false} AlertHeadFrom(p: Object, rule: Object, severity: Json, id: string, title: string, level: Severity)
    requires GetObj(p, "rule") == Ok(rule)
    requires AlertSeverityText(p, rule) == Ok(severity)
    requires PyStr(Or(Get(p, "number", Null), Get(p, "id", Null)), "id") == Ok(id)
    requires AsString(Or(Get(rule, "description", Null), Get(p, "summary", Str("(no title)"))), "title") == Ok(title)
    requires AlertLevel(severity) == Ok(level)
    ensures AlertHead(p) == Ok((id, title, level))
  {
  }

  /** A truthy rule severity is the severity text. */
  lemma {:induction false} RuleSeverityText(p: Object, rule: Object, text: string)
    requires GetObj(p, "rule") == Ok(rule)
    requires Get(rule, "severity", Null) == Str(text) && text != []
    ensures AlertSeverityText(p, rule) == Ok(Str(text))
  {
    assert Truthy(Str(text));
  }

  lemma {:induction false} AlertPayloadHead(number: nat, f: Finding)
    requires number > 0 && f.title != ""
    ensures AlertHead(AlertPayload(number, f)) == Ok((IntToDecimal(number), f.title, f.severity))
  {
    AlertPayloadKeys(number, f);
    AlertPartsKeys(f);
    LowerLabelFromString(f.severity);
    assert AlertLevel(Str(Lower(Label(f.severity)))) == Ok(f.severity);
    AlertHeadOf(AlertPayload(number, f), AlertRule(f), number, f.title, Lower(Label(f.severity)), f.severity);
  }

  lemma {:induction false} AlertPayloadDetails(number: nat, f: Finding)
    requires f.url != Some("")
    ensures AlertDetails(AlertPayload(number, f)) == Ok((f.description, f.url, f.resource, f.createdAt))
  {
    var p := AlertPayload(number, f);
    AlertPayloadKeys(number, f);
    AlertPartsKeys(f);
    assert AsOptionalString(OptStr(f.description), "description") == Ok(f.description);
    assert AsOptionalString(Or(OptStr(f.url), Null), "url") == Ok(f.url);
    assert AsOptionalString(OptStr(f.resource), "resource") == Ok(f.resource);
    AlertPayloadCreated(number, f);
    AlertDetailsFrom(p, AlertInstance(f), f.description, f.url, f.resource, f.createdAt);
  }

  lemma {:induction false} AlertPayloadCreated(number: nat, f: Finding)
    ensures AlertTimestamp(Or(Get(AlertPayload(number, f), "created_at", Null), Get(AlertPayload(number, f), "created", Null))) == Ok(f.createdAt)
  {
    AlertPayloadLinks(number, f);
    if f.createdAt.Some? {
      var text := Format(f.createdAt.value);
      ParseFormat(f.createdAt.value);
      assert ReplaceChar(text, 'Z', "+00:00") == text;
      assert AlertTimestamp(Or(Str(text), Null)) == Ok(f.createdAt);
    } else {
      assert AlertTimestamp(Or(Null, Null)) == Ok(None);
    }
  }

  /** The details are assembled from the instance and four readings. */
  lemma {:induction false} AlertDetailsFrom(p: Object, instance: Object, description: Option<string>, url: Option<string>,
                                            resource: Option<string>, createdAt: Option<Timestamp>)
    requires GetObj(p, "most_recent_instance") == Ok(instance)
    requires GetObj(instance, "message").Ok? && GetObj(instance, "location").Ok?
    requires AsOptionalString(Get(GetObj(instance, "message").value, "text", Null), "description") == Ok(description)
    requires AsOptionalString(Or(Get(p, "html_url", Null), Get(p, "url", Null)), "url") == Ok(url)
    requires AsOptionalString(Get(GetObj(instance, "location").value, "path", Null), "resource") == Ok(resource)
    requires AlertTimestamp(Or(Get(p, "created_at", Null), Get(p, "created", Null))) == Ok(createdAt)
    ensures AlertDetails(p) == Ok((description, url, resource, createdAt))
  {
  }

  /**
   * Converting an alert that carries a finding's fields gives that finding
   * back, with the alert number as its id: every fallback chain picks the
   * field the alert provides, the lower-case severity normalises to the
   * finding's level, and the creation time survives its text form.
   */
  lemma {:induction false} ConvertAlertRoundTrip(number: nat, f: Finding)
    requires number > 0 && f.title != "" && f.url != Some("")
    ensures ConvertAlert(AlertPayload(number, f), f.provider) == Ok(f.(id := IntToDecimal(number)))
  {
    AlertPayloadHead(number, f);
    AlertPayloadDetails(number, f);
  }
}

/**
 The redirect loop of the fast client (section 15.4 of RFC 9110).

 Location resolution, the domain-hierarchy test and the text of a URI are parameters (`Env`). What a hop meets
 (jar cookies, URI credentials, the server's reply) is an oracle indexed by hop number. Header values are lists
 of parts that remember whether the caller or the engine supplied them.
 */
module Redirects {
  import opened Prelude

  datatype Uri = Uri(scheme: string, host: string, rest: string)

  datatype Part = FromCaller(text: string) | FromEngine(text: string)

  type Headers = map<Name, seq<Part>>

  datatype Request = Request(verb: string, uri: Uri, headers: Headers, body: string)

  /** `jarCookies`: what the jar has for this URI; `credentials`: Basic credentials found in the URI. */
  datatype Hop = Hop(jarCookies: string, credentials: string, reply: Reply)

  datatype Reply = Failure | Response(status: int, location: string)

  datatype Env = Env(resolve: (Uri, string) -> Uri, sameHierarchy: (string, string) -> bool, fullText: Uri -> string)

  datatype Credential =
    | Authorization | ProxyAuthorization | ProxyAuthenticate | WWWAuthenticate | Cookie2 | XApiKey | XAuthToken
    | XAccessToken | XSecret | XClientSecret | ApiKey | Token | Secret | PrivateKey

  datatype Content = ContentType | ContentLength | ContentEncoding | ContentLanguage | ContentLocation | Digest

  /** Canonical header names; only the ones the loop knows are told apart. */
  datatype Name =
    | Sensitive(credential: Credential) | Representation(content: Content) | Cookie | Referer | Other(text: string)

  const SENSITIVE_HEADERS: seq<Credential> := [
    Authorization, ProxyAuthorization, ProxyAuthenticate, WWWAuthenticate, Cookie2, XApiKey, XAuthToken, XAccessToken,
    XSecret, XClientSecret, ApiKey, Token, Secret, PrivateKey]

  const REPRESENTATION_HEADERS: seq<Content> := [
    ContentType, ContentLength, ContentEncoding, ContentLanguage, ContentLocation, Digest]

  predicate SameHost(a: Uri, b: Uri) { ToLower(a.host) == ToLower(b.host) }

  predicate Downgrade(a: Uri, b: Uri) { ToLower(a.scheme) == "https" && ToLower(b.scheme) == "http" }

  predicate IsRedirectStatus(code: int) { code == 301 || code == 302 || code == 303 || code == 307 || code == 308 }

  predicate RewritesMethod(code: int) { code == 301 || code == 302 || code == 303 }

  /** `applyCookies` and `extractUserInfoAndSetAuth`: what the engine adds before sending. */
  function Prepare(r: Request, hop: Hop): Request {
    var cookie := if Cookie in r.headers then r.headers[Cookie] else [];
    var h1 := if hop.jarCookies == "" then r.headers else r.headers[Cookie := cookie + [FromEngine(hop.jarCookies)]];
    var h2 := if hop.credentials == "" || Sensitive(Authorization) in h1 then h1
              else h1[Sensitive(Authorization) := [FromEngine(hop.credentials)]];
    r.(headers := h2)
  }

  function WithoutRepresentation(h: Headers): Headers { map n | n in h && !n.Representation? :: h[n] }

  function WithoutSensitive(h: Headers): Headers { map n | n in h && !n.Sensitive? :: h[n] }

  function MethodAndBody(status: int, r: Request): Request {
    if RewritesMethod(status) && r.verb != "GET" && r.verb != "HEAD"
    then r.(verb := "GET", body := "", headers := WithoutRepresentation(r.headers))
    else r
  }

  function Target(env: Env, from: Uri, location: string): Uri {
    var u := env.resolve(from, location);
    Uri(if u.scheme == "" then from.scheme else u.scheme, if u.host == "" then from.host else u.host, u.rest)
  }

  function Scrub(env: Env, h: Headers, from: Uri, next: Uri): Headers {
    var kept := WithoutSensitive(h);
    if env.sameHierarchy(from.host, next.host) then kept else kept - {Cookie}
  }

  /** The request that follows `r` after a redirect. */
  function Follow(env: Env, r: Request, status: int, location: string): Request {
    var r1 := MethodAndBody(status, r);
    var next := Target(env, r.uri, location);
    var h := if SameHost(r.uri, next) then r1.headers else Scrub(env, r1.headers, r.uri, next);
    r1.(uri := next,
        headers := if Downgrade(r.uri, next) then h - {Referer} else h[Referer := [FromEngine(env.fullText(r.uri))]])
  }

  predicate Redirected(hop: Hop) {
    hop.reply.Response? && IsRedirectStatus(hop.reply.status) && hop.reply.location != ""
  }

  /** Request `i + 1` is what follows request `i`. */
  predicate LinkOk(env: Env, hops: seq<Hop>, sent: seq<Request>, i: nat)
    requires i + 1 < |sent| <= |hops|
  {
    Redirected(hops[i])
    && sent[i + 1] == Prepare(Follow(env, sent[i], hops[i].reply.status, hops[i].reply.location), hops[i + 1])
  }

  /** `sent` is a chain of requests that starts with the caller's. */
  ghost predicate IsChain(env: Env, req: Request, hops: seq<Hop>, sent: seq<Request>) {
    && 0 < |sent| <= |hops| && sent[0] == Prepare(req, hops[0])
    && forall i: nat | i + 1 < |sent| :: LinkOk(env, hops, sent, i)
  }

  datatype Outcome = Answered(status: int) | Error | TooManyRedirects

  // ---- The loop ----

  function Limit(configured: int): nat { if configured < 0 then 10 else configured }

  function CredentialIndex(c: Credential): nat {
    match c
    case Authorization => 0
    case ProxyAuthorization => 1
    case ProxyAuthenticate => 2
    case WWWAuthenticate => 3
    case Cookie2 => 4
    case XApiKey => 5
    case XAuthToken => 6
    case XAccessToken => 7
    case XSecret => 8
    case XClientSecret => 9
    case ApiKey => 10
    case Token => 11
    case Secret => 12
    case PrivateKey => 13
  }

  function ContentIndex(c: Content): nat {
    match c
    case ContentType => 0
    case ContentLength => 1
    case ContentEncoding => 2
    case ContentLanguage => 3
    case ContentLocation => 4
    case Digest => 5
  }

  /** The two lists name every header of their kind. */
  lemma AllListed()
    ensures forall c: Credential :: c in SENSITIVE_HEADERS
    ensures forall c: Content :: c in REPRESENTATION_HEADERS
  {
    forall c: Credential ensures c in SENSITIVE_HEADERS { assert SENSITIVE_HEADERS[CredentialIndex(c)] == c; }
    forall c: Content ensures c in REPRESENTATION_HEADERS { assert REPRESENTATION_HEADERS[ContentIndex(c)] == c; }
  }

  /** The deletion loop over `sensitiveRedirectHeaders`. */
  method DeleteSensitive(headers: Headers) returns (r: Headers)
    ensures r == WithoutSensitive(headers)
  {
    r := headers;
    for i := 0 to |SENSITIVE_HEADERS|
      invariant forall n :: n in r <==> n in headers && !(n.Sensitive? && n.credential in SENSITIVE_HEADERS[..i])
      invariant forall n | n in r :: r[n] == headers[n]
    {
      r := r - {Sensitive(SENSITIVE_HEADERS[i])};
    }
    assert SENSITIVE_HEADERS[..|SENSITIVE_HEADERS|] == SENSITIVE_HEADERS;
    AllListed();
  }

  /** The deletion loop over `representationHeaders`. */
  method DeleteRepresentation(headers: Headers) returns (r: Headers)
    ensures r == WithoutRepresentation(headers)
  {
    r := headers;
    for i := 0 to |REPRESENTATION_HEADERS|
      invariant forall n :: n in r <==> n in headers && !(n.Representation? && n.content in REPRESENTATION_HEADERS[..i])
      invariant forall n | n in r :: r[n] == headers[n]
    {
      r := r - {Representation(REPRESENTATION_HEADERS[i])};
    }
    assert REPRESENTATION_HEADERS[..|REPRESENTATION_HEADERS|] == REPRESENTATION_HEADERS;
    AllListed();
  }

  /** What the loop does to the request after a redirect. */
  method Redirect(env: Env, req: Request, status: int, location: string) returns (r: Request)
    ensures r == Follow(env, req, status, location)
  {
    r := req;
    if RewritesMethod(status) && r.verb != "GET" && r.verb != "HEAD" {
      var kept := DeleteRepresentation(r.headers);
      r := r.(verb := "GET", body := "", headers := kept);
    }
    var next := Target(env, req.uri, location);
    r := r.(uri := next);
    if !SameHost(req.uri, next) {
      var kept := DeleteSensitive(r.headers);
      if !env.sameHierarchy(req.uri.host, next.host) {
        kept := kept - {Cookie};
      }
      r := r.(headers := kept);
    }
    if Downgrade(req.uri, next) {
      r := r.(headers := r.headers - {Referer});
    } else {
      r := r.(headers := r.headers[Referer := [FromEngine(env.fullText(req.uri))]]);
    }
  }

  lemma ChainGrows(env: Env, req: Request, hops: seq<Hop>, sent: seq<Request>, r: Request)
    requires IsChain(env, req, hops, sent) && |sent| < |hops| && Redirected(hops[|sent| - 1])
    requires var hop := hops[|sent| - 1];
             r == Prepare(Follow(env, sent[|sent| - 1], hop.reply.status, hop.reply.location), hops[|sent|])
    ensures IsChain(env, req, hops, sent + [r])
  {
    forall i: nat | i + 1 < |sent + [r]| ensures LinkOk(env, hops, sent + [r], i) {
      if i + 1 < |sent| {
        assert LinkOk(env, hops, sent, i);
      }
    }
  }

  /**
   `executeWithRedirects`: `sent` are the requests that went out, in order. A limit of zero answers redirects
   like any other response.
   */
  method ExecuteWithRedirects(env: Env, configured: int, req: Request, hops: seq<Hop>)
    returns (sent: seq<Request>, outcome: Outcome)
    requires |hops| > Limit(configured)
    ensures 1 <= |sent| <= Limit(configured) + 1 && IsChain(env, req, hops, sent)
    ensures outcome == OutcomeOf(Limit(configured), hops[|sent| - 1])
    ensures outcome.TooManyRedirects? ==> |sent| == Limit(configured) + 1
    ensures Limit(configured) == if configured < 0 then 10 else configured
    ensures var last := hops[|sent| - 1].reply;
            && (outcome.Error? <==> last.Failure?)
            && (outcome.TooManyRedirects? <==>
                  last.Response? && last.status in [301, 302, 303, 307, 308] && last.location != "" && configured != 0)
            && (outcome.Answered? ==> outcome.status == last.status)
  {
    var limit := Limit(configured);
    var r := Prepare(req, hops[0]);
    sent := [r];
    if limit == 0 {
      outcome := if hops[0].reply.Failure? then Error else Answered(hops[0].reply.status);
      return;
    }
    var followed := 0;
    while true
      invariant 0 <= followed <= limit && |sent| == followed + 1 && r == sent[followed]
      invariant IsChain(env, req, hops, sent)
      decreases limit - followed
    {
      var hop := hops[followed];
      if hop.reply.Failure? {
        return sent, Error;
      }
      if !IsRedirectStatus(hop.reply.status) || hop.reply.location == "" {
        return sent, Answered(hop.reply.status);
      }
      if followed + 1 > limit {
        return sent, TooManyRedirects;
      }
      followed := followed + 1;
      r := Redirect(env, r, hop.reply.status, hop.reply.location);
      r := Prepare(r, hops[followed]);
      ChainGrows(env, req, hops, sent, r);
      sent := sent + [r];
    }
  }

  function OutcomeOf(limit: nat, last: Hop): Outcome {
    if last.reply.Failure? then Error
    else if Redirected(last) && limit > 0 then TooManyRedirects
    else Answered(last.reply.status)
  }

  // ---- Chains of any length ----

  /** Some redirect before request `i` led to another host. */
  ghost predicate HostChanged(sent: seq<Request>, i: nat)
    requires i < |sent|
  {
    exists j: nat :: j < i && !EqualFold(sent[j].uri.host, sent[j + 1].uri.host)
  }

  predicate Leaves(env: Env, a: Uri, b: Uri) { !EqualFold(a.host, b.host) && !env.sameHierarchy(a.host, b.host) }

  /** Some redirect before request `i` left the domain hierarchy. */
  ghost predicate HierarchyLeft(env: Env, sent: seq<Request>, i: nat)
    requires i < |sent|
  {
    exists j: nat :: j < i && Leaves(env, sent[j].uri, sent[j + 1].uri)
  }

  ghost predicate CallerSupplied(headers: Headers, h: Name) {
    h in headers && exists k :: 0 <= k < |headers[h]| && headers[h][k].FromCaller?
  }

  lemma PrepareKeepsCaller(r: Request, hop: Hop, h: Name)
    ensures CallerSupplied(Prepare(r, hop).headers, h) <==> CallerSupplied(r.headers, h)
  {
    var before, after := r.headers, Prepare(r, hop).headers;
    if h == Cookie && h in before && h in after {
      assert forall k | 0 <= k < |before[h]| :: after[h][k] == before[h][k];
    }
  }

  /** One redirect either drops such a header or leaves it alone. */
  lemma FollowKeeps(env: Env, r: Request, status: int, location: string, h: Name)
    requires h.Sensitive? || h == Cookie
    ensures var r' := Follow(env, r, status, location);
            var kept := if h.Sensitive? then EqualFold(r.uri.host, r'.uri.host) else !Leaves(env, r.uri, r'.uri);
            (h in r'.headers <==> h in r.headers && kept) && (h in r'.headers ==> r'.headers[h] == r.headers[h])
  {
    ToLowerMeaning(r.uri.host, Target(env, r.uri, location).host);
  }

  /** One redirect takes a caller's sensitive header away exactly when it changes the host. */
  lemma FollowScrubs(env: Env, r: Request, status: int, location: string, h: Name)
    ensures var r' := Follow(env, r, status, location);
            && (h.Sensitive? ==>
                  (CallerSupplied(r'.headers, h)
                   <==> CallerSupplied(r.headers, h) && EqualFold(r.uri.host, r'.uri.host)))
            && (h == Cookie ==>
                  (CallerSupplied(r'.headers, h) <==> CallerSupplied(r.headers, h) && !Leaves(env, r.uri, r'.uri)))
  {
    if h.Sensitive? || h == Cookie {
      FollowKeeps(env, r, status, location, h);
    }
  }

  lemma LinkScrubs(env: Env, hops: seq<Hop>, sent: seq<Request>, i: nat, h: Name)
    requires i + 1 < |sent| <= |hops| && LinkOk(env, hops, sent, i)
    ensures h.Sensitive? ==>
              (CallerSupplied(sent[i + 1].headers, h)
               <==> CallerSupplied(sent[i].headers, h) && EqualFold(sent[i].uri.host, sent[i + 1].uri.host))
    ensures h == Cookie ==>
              (CallerSupplied(sent[i + 1].headers, h)
               <==> CallerSupplied(sent[i].headers, h) && !Leaves(env, sent[i].uri, sent[i + 1].uri))
  {
    var hop := hops[i];
    FollowScrubs(env, sent[i], hop.reply.status, hop.reply.location, h);
    PrepareKeepsCaller(Follow(env, sent[i], hop.reply.status, hop.reply.location), hops[i + 1], h);
  }

  lemma OneStepFurther(env: Env, sent: seq<Request>, i: nat)
    requires i + 1 < |sent|
    ensures HostChanged(sent, i + 1)
            <==> HostChanged(sent, i) || !EqualFold(sent[i].uri.host, sent[i + 1].uri.host)
    ensures HierarchyLeft(env, sent, i + 1)
            <==> HierarchyLeft(env, sent, i) || Leaves(env, sent[i].uri, sent[i + 1].uri)
  {
  }

  /**
   A caller's sensitive header goes out with a request exactly when no redirect before it changed the host; once
   one has, the header never comes back, whatever hosts follow. The caller's Cookie header goes likewise
   when the domain hierarchy is left.
   */
  lemma {:induction false} SensitiveHeadersStopAtTheHost(
      env: Env, req: Request, hops: seq<Hop>, sent: seq<Request>, i: nat, h: Name)
    requires IsChain(env, req, hops, sent) && i < |sent|
    ensures h.Sensitive? ==>
              (CallerSupplied(sent[i].headers, h) <==> CallerSupplied(req.headers, h) && !HostChanged(sent, i))
    ensures h == Cookie ==>
              (CallerSupplied(sent[i].headers, h) <==> CallerSupplied(req.headers, h) && !HierarchyLeft(env, sent, i))
  {
    if i == 0 {
      PrepareKeepsCaller(req, hops[0], h);
    } else {
      SensitiveHeadersStopAtTheHost(env, req, hops, sent, i - 1, h);
      assert LinkOk(env, hops, sent, i - 1);
      LinkScrubs(env, hops, sent, i - 1, h);
      OneStepFurther(env, sent, i - 1);
    }
  }

  /** A 301, 302 or 303 has turned the caller's request into a GET before request `i`. */
  ghost predicate Rewritten(hops: seq<Hop>, req: Request, i: nat)
    requires i < |hops|
  {
    req.verb != "GET" && req.verb != "HEAD"
    && exists j: nat :: j < i && hops[j].reply.Response? && hops[j].reply.status in [301, 302, 303]
  }

  /** The request still has the caller's method, body and representation headers. */
  ghost predicate Original(req: Request, r: Request) {
    r.verb == req.verb && r.body == req.body
    && forall h: Name | h.Representation? ::
         (h in r.headers <==> h in req.headers) && (h in req.headers ==> r.headers[h] == req.headers[h])
  }

  ghost predicate BareGet(r: Request) {
    r.verb == "GET" && r.body == "" && forall h: Name | h.Representation? :: h !in r.headers
  }

  lemma LinkMethod(env: Env, req: Request, hops: seq<Hop>, sent: seq<Request>, i: nat)
    requires i + 1 < |sent| <= |hops| && LinkOk(env, hops, sent, i)
    ensures BareGet(sent[i]) ==> BareGet(sent[i + 1])
    ensures Original(req, sent[i]) ==>
              if hops[i].reply.status in [301, 302, 303] && req.verb != "GET" && req.verb != "HEAD"
              then BareGet(sent[i + 1]) else Original(req, sent[i + 1])
  {
  }

  /**
   The method, body and representation headers stay the caller's until such a redirect; from then on every
   request is a GET without body and without representation headers.
   */
  lemma {:induction false} MethodFollowsTheStatus(env: Env, req: Request, hops: seq<Hop>, sent: seq<Request>, i: nat)
    requires IsChain(env, req, hops, sent) && i < |sent|
    ensures if Rewritten(hops, req, i) then BareGet(sent[i]) else Original(req, sent[i])
  {
    if i > 0 {
      MethodFollowsTheStatus(env, req, hops, sent, i - 1);
      assert LinkOk(env, hops, sent, i - 1);
      LinkMethod(env, req, hops, sent, i - 1);
      assert Rewritten(hops, req, i) <==>
             Rewritten(hops, req, i - 1)
             || (req.verb != "GET" && req.verb != "HEAD" && hops[i - 1].reply.status in [301, 302, 303]);
    }
  }

  lemma LowerSchemes(s: string)
    ensures ToLower(s) == "https" <==> EqualFold(s, "https")
    ensures ToLower(s) == "http" <==> EqualFold(s, "http")
  {
    ToLowerMeaning(s, "https");
    ToLowerMeaning(s, "http");
    assert ToLower("https") == "https" && ToLower("http") == "http";
  }

  /** Every request after the first carries the previous URI as Referer, except after a step from https to http. */
  lemma RefererIsThePreviousUri(env: Env, req: Request, hops: seq<Hop>, sent: seq<Request>, i: nat)
    requires IsChain(env, req, hops, sent) && 0 < i < |sent|
    ensures if EqualFold(sent[i - 1].uri.scheme, "https") && EqualFold(sent[i].uri.scheme, "http")
            then Referer !in sent[i].headers
            else Referer in sent[i].headers && sent[i].headers[Referer] == [FromEngine(env.fullText(sent[i - 1].uri))]
  {
    assert LinkOk(env, hops, sent, i - 1);
    LowerSchemes(sent[i - 1].uri.scheme);
    LowerSchemes(sent[i].uri.scheme);
  }

  /** Headers the loop has no business with reach every request as the caller gave them. */
  lemma {:induction false} OtherHeadersAreUntouched(
      env: Env, req: Request, hops: seq<Hop>, sent: seq<Request>, i: nat, text: string)
    requires IsChain(env, req, hops, sent) && i < |sent|
    ensures Other(text) in sent[i].headers <==> Other(text) in req.headers
    ensures Other(text) in req.headers ==> sent[i].headers[Other(text)] == req.headers[Other(text)]
  {
    if i > 0 {
      OtherHeadersAreUntouched(env, req, hops, sent, i - 1, text);
      assert LinkOk(env, hops, sent, i - 1);
    }
  }

  /** One redirect to another host: none of the caller's credentials, under any of the fourteen names, goes along. */
  lemma NoCredentialCrossesHosts(env: Env, req: Request, hops: seq<Hop>, sent: seq<Request>, i: nat, c: Credential)
    requires IsChain(env, req, hops, sent) && i + 1 < |sent|
    requires !EqualFold(sent[i].uri.host, sent[i + 1].uri.host)
    ensures !CallerSupplied(sent[i + 1].headers, Sensitive(c))
  {
    assert LinkOk(env, hops, sent, i);
    LinkScrubs(env, hops, sent, i, Sensitive(c));
  }

  /**
   A chain goes on only after a 301, 302, 303, 307 or 308 with a Location, and then to the URI that the Location
   resolves to, completed by the scheme and host of the current one.
   */
  lemma ChainFollowsTheLocation(env: Env, req: Request, hops: seq<Hop>, sent: seq<Request>, i: nat)
    requires IsChain(env, req, hops, sent) && i + 1 < |sent|
    ensures var reply := hops[i].reply;
            && reply.Response? && reply.status in [301, 302, 303, 307, 308] && reply.location != ""
            && var u := env.resolve(sent[i].uri, reply.location);
               sent[i + 1].uri == Uri(if u.scheme == "" then sent[i].uri.scheme else u.scheme,
                                      if u.host == "" then sent[i].uri.host else u.host, u.rest)
  {
    assert LinkOk(env, hops, sent, i);
  }

  /** What the engine adds to a request: the jar's cookies behind the caller's, and URI credentials if it has none. */
  lemma EngineAddsItsShare(env: Env, req: Request, hops: seq<Hop>, sent: seq<Request>, i: nat)
    requires IsChain(env, req, hops, sent) && i < |sent|
    ensures var h, hop := sent[i].headers, hops[i];
            && (hop.jarCookies != "" ==>
                  Cookie in h && |h[Cookie]| > 0 && h[Cookie][|h[Cookie]| - 1] == FromEngine(hop.jarCookies))
            && (hop.credentials != "" ==> Sensitive(Authorization) in h)
            && (hop.credentials != "" && i == 0 && Sensitive(Authorization) !in req.headers ==>
                  h[Sensitive(Authorization)] == [FromEngine(hop.credentials)])
  {
    if i > 0 {
      assert LinkOk(env, hops, sent, i - 1);
    }
  }
}

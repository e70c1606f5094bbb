/**
 The in-memory cookie jar with CHIPS partitions, and its isolation by proxy.

 `Expires` is a time or absent; the jar reads one clock value per call. Address literals and the public suffix
 list are parameters (`Env`). Letters are lower-cased in the ASCII range.
 */
module CookieJar {
  import opened Prelude

  /** Nanoseconds. */
  type Time = int

  /** `isIP` is net.ParseIP succeeding; `suffix` is the optional public suffix list. */
  datatype Env = Env(isIP: string -> bool, suffix: Option<string -> string>)

  datatype Url = Url(host: string, path: string, https: bool)

  /** A cookie as received (`http.Cookie`). */
  datatype Received = Received(
    name: string, value: string, domain: string, path: string,
    expires: Option<Time>, maxAge: int, secure: bool, httpOnly: bool, partitioned: bool)

  /** A cookie as stored. */
  datatype Cookie = Cookie(
    name: string, value: string, domain: string, path: string,
    expires: Option<Time>, maxAge: int, secure: bool, httpOnly: bool, partitionKey: string)

  datatype Key = Key(domain: string, path: string, name: string, partitionKey: string)

  type Jar = map<Key, Cookie>

  predicate DomainMatch(env: Env, host: string, cookieDomain: string) {
    var h, d := ToLower(host), ToLower(cookieDomain);
    h == d || (!env.isIP(h) && HasSuffix(h, d) && |h| > |d| && h[|h| - |d| - 1] == '.')
  }

  /** An empty path stands for the root. */
  function OrRoot(path: string): string { if path == "" then "/" else path }

  predicate PathMatch(reqPath: string, cookiePath: string) {
    var r, c := OrRoot(reqPath), OrRoot(cookiePath);
    r == c || (c <= r && (HasSuffix(c, "/") || (|r| > |c| && r[|c|] == '/')))
  }

  predicate Expired(expires: Option<Time>, maxAge: int, now: Time) {
    (expires.Some? && expires.value < now) || maxAge < 0
  }

  /** Section 5.1.3 of RFC 6265: the same name, or a host name that ends in a dot and the cookie's domain. */
  lemma DomainMatchMeaning(env: Env, host: string, cookieDomain: string)
    ensures var h, d := ToLower(host), ToLower(cookieDomain);
            DomainMatch(env, host, cookieDomain) <==> h == d || (!env.isIP(h) && exists pre :: h == pre + "." + d)
  {
    var h, d := ToLower(host), ToLower(cookieDomain);
    if HasSuffix(h, d) && |h| > |d| && h[|h| - |d| - 1] == '.' {
      assert h == h[..|h| - |d| - 1] + "." + d;
    }
  }

  /** Section 5.1.4 of RFC 6265: the same path, or a proper prefix that stops at a slash. */
  lemma PathMatchMeaning(reqPath: string, cookiePath: string)
    ensures var r, c := OrRoot(reqPath), OrRoot(cookiePath);
            PathMatch(reqPath, cookiePath)
            <==> r == c || exists rest :: rest != "" && r == c + rest && (c[|c| - 1] == '/' || rest[0] == '/')
  {
    var r, c := OrRoot(reqPath), OrRoot(cookiePath);
    if c <= r && r != c {
      assert r == c + r[|c|..];
    }
  }

  /**
   Section 5.3 of RFC 6265, step 3: a positive Max-Age counts from the receipt and goes before Expires. (A zero here
   means that there is no Max-Age attribute, a negative value that the cookie is to go at once.)
   */
  predicate ExpiredByStandard(expires: Option<Time>, maxAge: int, received: Time, now: Time) {
    if maxAge > 0 then received + maxAge * SECOND < now else Expired(expires, maxAge, now)
  }

  /** The jar keeps a cookie exactly as long as the standard says. */
  ghost predicate LifetimeIsStandard(expires: Option<Time>, maxAge: int, received: Time) {
    forall now | now >= received :: Expired(expires, maxAge, now) <==> ExpiredByStandard(expires, maxAge, received, now)
  }

  /**
   It does if and only if there is no positive Max-Age, or Expires says the same: the jar never turns a Max-Age into an
   expiry, so such a cookie without Expires is never dropped.
   */
  lemma LifetimeIsStandardExactlyWhen(expires: Option<Time>, maxAge: int, received: Time)
    ensures LifetimeIsStandard(expires, maxAge, received)
            <==> maxAge <= 0 || expires == Some(received + maxAge * SECOND)
  {
    if maxAge > 0 && expires != Some(received + maxAge * SECOND) {
      var limit := received + maxAge * SECOND;
      // Just past the earlier of the two limits, only one of them has passed.
      var now := if expires.Some? && expires.value < limit then Max(received, expires.value + 1) else limit + 1;
      assert Expired(expires, maxAge, now) != ExpiredByStandard(expires, maxAge, received, now);
    }
  }

  // ---- SetCookies and Cookies on values ----

  function DomainOf(u: Url, c: Received): string { ToLower(if c.domain == "" then u.host else c.domain) }

  /** Section 5.3 of RFC 6265, steps 5 and 6: only a Domain attribute can be refused. */
  predicate Accepted(env: Env, u: Url, c: Received) {
    c.domain == "" ||
    (&& !(env.suffix.Some? && env.suffix.value(DomainOf(u, c)) == DomainOf(u, c))
     && DomainMatch(env, u.host, DomainOf(u, c)))
  }

  function KeyOf(u: Url, pk: string, c: Received): Key {
    Key(DomainOf(u, c), OrRoot(c.path), c.name, if c.partitioned then pk else "")
  }

  function StoredForm(u: Url, pk: string, c: Received): Cookie {
    var k := KeyOf(u, pk, c);
    Cookie(c.name, c.value, k.domain, k.path, c.expires, c.maxAge, c.secure, c.httpOnly, k.partitionKey)
  }

  function SetOne(env: Env, jar: Jar, u: Url, pk: string, c: Received, now: Time): Jar {
    if !Accepted(env, u, c) then jar
    else if Expired(c.expires, c.maxAge, now) then jar - {KeyOf(u, pk, c)}
    else jar[KeyOf(u, pk, c) := StoredForm(u, pk, c)]
  }

  function SetAll(env: Env, jar: Jar, u: Url, pk: string, cs: seq<Received>, now: Time): Jar {
    if cs == [] then jar
    else SetOne(env, SetAll(env, jar, u, pk, cs[..|cs| - 1], now), u, pk, cs[|cs| - 1], now)
  }

  function Purge(jar: Jar, now: Time): Jar {
    map k | k in jar && !Expired(jar[k].expires, jar[k].maxAge, now) :: jar[k]
  }

  /** The cookie goes with a request for `u` made under partition `pk`. */
  predicate Sendable(env: Env, c: Cookie, u: Url, pk: string) {
    && (c.partitionKey == "" || c.partitionKey == pk)
    && DomainMatch(env, u.host, c.domain)
    && PathMatch(u.path, c.path)
    && (c.secure ==> u.https)
  }

  /** The keys of the cookies `Cookies` returns at `now`. */
  function Visible(env: Env, jar: Jar, u: Url, pk: string, now: Time): set<Key> {
    set k | k in jar && !Expired(jar[k].expires, jar[k].maxAge, now) && Sendable(env, jar[k], u, pk)
  }

  // ---- Host-only cookies ----

  /**
   Sections 5.3 (step 6) and 5.4 of RFC 6265: a cookie received from `u` goes to host `host` if it has a Domain
   attribute that the host matches, or none and the host is the one it came from.
   */
  predicate GoesByStandard(env: Env, u: Url, c: Received, host: string) {
    if c.domain == "" then ToLower(host) == ToLower(u.host) else DomainMatch(env, host, DomainOf(u, c))
  }

  lemma LowerTwice(s: string)
    ensures ToLower(ToLower(s)) == ToLower(s)
  {
  }

  /** A host below `host`, and no address literal. */
  predicate Below(env: Env, sub: string, host: string) {
    !env.isIP(ToLower(sub)) && HasSuffix(ToLower(sub), "." + ToLower(host))
  }

  /**
   The stored cookie goes to a host exactly when the standard says, if and only if it has a Domain attribute or that
   host is not below the one it came from: the jar does not remember that a cookie is host-only.
   */
  lemma GoesByStandardExactlyWhen(env: Env, u: Url, pk: string, c: Received, host: string)
    ensures (DomainMatch(env, host, StoredForm(u, pk, c).domain) <==> GoesByStandard(env, u, c, host))
            <==> c.domain != "" || !Below(env, host, u.host)
  {
    var h, d := ToLower(host), ToLower(u.host);
    LowerTwice(u.host);
    LowerTwice(c.domain);
    if |h| > |d| {
      assert h[|h| - |d| - 1..] == [h[|h| - |d| - 1]] + h[|h| - |d|..];
    }
  }

  /** A live cookie without Domain attribute or Secure, for the root path, is sent to every host below its own. */
  lemma HostOnlyCookiesReachSubdomains(env: Env, u: Url, c: Received, pk: string, now: Time, sub: Url)
    requires c.domain == "" && c.path == "/" && !c.secure && !c.partitioned && !Expired(c.expires, c.maxAge, now)
    requires Below(env, sub.host, u.host) && sub.path == "/"
    ensures KeyOf(u, pk, c) in Visible(env, SetAll(env, map[], u, pk, [c], now), sub, pk, now)
    ensures !GoesByStandard(env, u, c, sub.host)
  {
    assert [c][..0] == [] && SetAll(env, map[], u, pk, [], now) == map[];
    GoesByStandardExactlyWhen(env, u, pk, c, sub.host);
    assert ToLower(sub.host) != ToLower(u.host) by { assert |ToLower(sub.host)| > |ToLower(u.host)|; }
  }

  /** Every cookie lies under its own key. */
  ghost predicate Keyed(jar: Jar) {
    forall k | k in jar ::
      && jar[k].domain == k.domain && jar[k].path == k.path
      && jar[k].name == k.name && jar[k].partitionKey == k.partitionKey
  }

  lemma SetOneKeepsKeyed(env: Env, jar: Jar, u: Url, pk: string, c: Received, now: Time)
    requires Keyed(jar)
    ensures Keyed(SetOne(env, jar, u, pk, c, now))
  {
  }

  lemma {:induction false} SetAllKeepsKeyed(env: Env, jar: Jar, u: Url, pk: string, cs: seq<Received>, now: Time)
    requires Keyed(jar)
    ensures Keyed(SetAll(env, jar, u, pk, cs, now))
  {
    if cs != [] {
      SetAllKeepsKeyed(env, jar, u, pk, cs[..|cs| - 1], now);
      SetOneKeepsKeyed(env, SetAll(env, jar, u, pk, cs[..|cs| - 1], now), u, pk, cs[|cs| - 1], now);
    }
  }

  // ---- The jar as code ----

  /** Each key of the set exactly once, and nothing else. */
  ghost predicate Lists(order: seq<Key>, keys: set<Key>) {
    && (forall i | 0 <= i < |order| :: order[i] in keys)
    && (forall i, j | 0 <= i < j < |order| :: order[i] != order[j])
    && (forall k | k in keys :: k in order)
  }

  ghost predicate LongestPathFirst(order: seq<Key>) {
    forall i, j | 0 <= i < j < |order| :: |order[i].path| >= |order[j].path|
  }

  lemma InsertedAt(order: seq<Key>, p: nat, k: Key, i: nat)
    requires p <= |order| && i <= |order|
    ensures (order[..p] + [k] + order[p..])[i] == if i < p then order[i] else if i == p then k else order[i - 1]
  {
  }

  lemma InsertInList(order: seq<Key>, keys: set<Key>, p: nat, k: Key)
    requires Lists(order, keys) && p <= |order| && k !in keys
    ensures Lists(order[..p] + [k] + order[p..], keys + {k})
  {
    var longer := order[..p] + [k] + order[p..];
    forall i | 0 <= i < |longer| ensures longer[i] in keys + {k} { InsertedAt(order, p, k, i); }
    forall i, j | 0 <= i < j < |longer| ensures longer[i] != longer[j] {
      InsertedAt(order, p, k, i);
      InsertedAt(order, p, k, j);
    }
    forall j | j in keys + {k} ensures j in longer {
      if j == k {
        InsertedAt(order, p, k, p);
      } else {
        var i :| 0 <= i < |order| && order[i] == j;
        InsertedAt(order, p, k, if i < p then i else i + 1);
      }
    }
  }

  lemma InsertKeepsDrawn(order: seq<Key>, r: seq<Key>, p: nat, i: nat)
    requires p <= |r| && i < |order| && forall a | 0 <= a < |r| :: r[a] in order[..i]
    ensures forall a | 0 <= a <= |r| :: (r[..p] + [order[i]] + r[p..])[a] in order[..i + 1]
  {
    forall a | 0 <= a <= |r| ensures (r[..p] + [order[i]] + r[p..])[a] in order[..i + 1] {
      InsertedAt(r, p, order[i], a);
      assert order[..i + 1] == order[..i] + [order[i]];
    }
  }

  /** `x` stands before `y`. */
  ghost predicate Precedes(order: seq<Key>, x: Key, y: Key) {
    exists i, j :: 0 <= i < j < |order| && order[i] == x && order[j] == y
  }

  /** Keys with equally long paths stand in `r` as in `order`. */
  ghost predicate Stable(order: seq<Key>, r: seq<Key>) {
    forall a, b | 0 <= a < b < |r| && |r[a].path| == |r[b].path| :: Precedes(order, r[a], r[b])
  }

  lemma InsertKeepsStable(order: seq<Key>, r: seq<Key>, p: nat, i: nat)
    requires Stable(order, r) && p <= |r| && i < |order|
    requires forall a | 0 <= a < |r| :: r[a] in order[..i]
    requires forall b | p <= b < |r| :: |r[b].path| < |order[i].path|
    ensures Stable(order, r[..p] + [order[i]] + r[p..])
  {
    var longer := r[..p] + [order[i]] + r[p..];
    forall a, b | 0 <= a < b < |longer| && |longer[a].path| == |longer[b].path|
      ensures Precedes(order, longer[a], longer[b])
    {
      InsertedAt(r, p, order[i], a);
      InsertedAt(r, p, order[i], b);
      if b == p {
        var k :| 0 <= k < i && order[..i][k] == r[a];
        assert order[k] == longer[a] && order[i] == longer[b];
      } else if a != p {
        var a', b' := if a < p then a else a - 1, if b < p then b else b - 1;
        assert Precedes(order, r[a'], r[b']);
      }
    }
  }

  /** Where `x` goes: behind every key whose path is at least as long. */
  method FindPlace(order: seq<Key>, x: Key) returns (p: nat)
    requires LongestPathFirst(order)
    ensures p <= |order| && LongestPathFirst(order[..p] + [x] + order[p..])
    ensures forall j | p <= j < |order| :: |order[j].path| < |x.path|
  {
    p := |order|;
    while p > 0 && |order[p - 1].path| < |x.path|
      invariant 0 <= p <= |order|
      invariant forall j | p <= j < |order| :: |order[j].path| < |x.path|
    {
      p := p - 1;
    }
  }

  /** `SortForBrowser`: a stable sort by path length, longest first. */
  method SortForBrowser(order: seq<Key>, ghost keys: set<Key>) returns (r: seq<Key>)
    requires Lists(order, keys)
    ensures Lists(r, keys) && LongestPathFirst(r) && Stable(order, r)
  {
    r := [];
    ghost var left := keys;
    for i := 0 to |order|
      invariant LongestPathFirst(r) && left <= keys && Lists(r, keys - left) && Lists(order[i..], left)
      invariant Stable(order, r) && forall a | 0 <= a < |r| :: r[a] in order[..i]
    {
      var p := FindPlace(r, order[i]);
      InsertKeepsStable(order, r, p, i);
      InsertKeepsDrawn(order, r, p, i);
      InsertInList(r, keys - left, p, order[i]);
      r := r[..p] + [order[i]] + r[p..];
      DropFromList(order[i..], left);
      assert keys - left + {order[i]} == keys - (left - {order[i]});
      left := left - {order[i]};
      assert order[i..][1..] == order[i + 1..];
    }
    assert order[|order|..] == [] && left == {};
    assert keys - left == keys;
  }

  lemma DropFromList(order: seq<Key>, keys: set<Key>)
    requires Lists(order, keys) && order != []
    ensures Lists(order[1..], keys - {order[0]})
  {
    forall k | k in keys - {order[0]} ensures k in order[1..] {
      var i :| 0 <= i < |order| && order[i] == k;
      assert order[1..][i - 1] == k;
    }
  }

  class MemoryJar {
    var cookies: Jar

    constructor ()
      ensures cookies == map[]
    {
      cookies := map[];
    }

    /** One round of the loop in `SetCookies`. */
    method Take(env: Env, u: Url, pk: string, c: Received, now: Time)
      modifies this
      ensures cookies == SetOne(env, old(cookies), u, pk, c, now)
    {
      var domain := ToLower(if c.domain == "" then u.host else c.domain);
      if c.domain != "" {
        if env.suffix.Some? && env.suffix.value(domain) == domain {
          return;
        }
        if !DomainMatch(env, u.host, domain) {
          return;
        }
      }
      var path := if c.path == "" then "/" else c.path;
      var key := Key(domain, path, c.name, if c.partitioned then pk else "");
      if Expired(c.expires, c.maxAge, now) {
        cookies := cookies - {key};
      } else {
        cookies := cookies[key := Cookie(c.name, c.value, domain, path, c.expires, c.maxAge, c.secure, c.httpOnly,
                                         key.partitionKey)];
      }
    }

    method SetCookies(env: Env, u: Url, pk: string, cs: seq<Received>, now: Time)
      requires Keyed(cookies)
      modifies this
      ensures cookies == Purge(SetAll(env, old(cookies), u, pk, cs, now), now) && Keyed(cookies)
    {
      for i := 0 to |cs|
        invariant cookies == SetAll(env, old(cookies), u, pk, cs[..i], now)
      {
        assert cs[..i + 1][..i] == cs[..i];
        Take(env, u, pk, cs[i], now);
      }
      assert cs[..|cs|] == cs;
      SetAllKeepsKeyed(env, old(cookies), u, pk, cs, now);
      PurgeExpired(now);
    }

    method PurgeExpired(now: Time)
      modifies this
      ensures cookies == Purge(old(cookies), now)
    {
      var rest := cookies.Keys;
      while rest != {}
        invariant rest <= cookies.Keys <= old(cookies).Keys
        invariant forall k | k in cookies :: cookies[k] == old(cookies)[k]
        invariant forall k | k in old(cookies) ::
                    k in rest || (k in cookies <==> !Expired(old(cookies)[k].expires, old(cookies)[k].maxAge, now))
        decreases |rest|
      {
        var k :| k in rest;
        if Expired(cookies[k].expires, cookies[k].maxAge, now) {
          cookies := cookies - {k};
        }
        rest := rest - {k};
      }
    }

    /** The cookies for a request: each visible one exactly once, longest path first, whatever order the map gives. */
    method Cookies(env: Env, u: Url, pk: string, now: Time) returns (sent: seq<Cookie>, ghost order: seq<Key>)
      requires Keyed(cookies)
      modifies this
      ensures cookies == Purge(old(cookies), now) && Keyed(cookies)
      ensures Lists(order, Visible(env, old(cookies), u, pk, now)) && |sent| == |order|
      ensures forall i | 0 <= i < |sent| :: order[i] in old(cookies) && sent[i] == old(cookies)[order[i]]
      ensures forall i, j | 0 <= i < j < |sent| :: |sent[i].path| >= |sent[j].path|
    {
      PurgeExpired(now);
      var jar := cookies;
      ghost var visible := Visible(env, old(cookies), u, pk, now);
      assert visible == Visible(env, jar, u, pk, now);
      var found := Collect(env, jar, u, pk, now);
      var sorted := SortForBrowser(found, visible);
      order := sorted;
      assert forall i | 0 <= i < |sorted| :: sorted[i] in jar;
      sent := seq(|sorted|, i requires 0 <= i < |sorted| && sorted[i] in jar => jar[sorted[i]]);
    }
  }

  /** The filtering loop, in whatever order the map gives. */
  method Collect(env: Env, jar: Jar, u: Url, pk: string, ghost now: Time) returns (found: seq<Key>)
    requires forall k | k in jar :: !Expired(jar[k].expires, jar[k].maxAge, now)
    ensures Lists(found, Visible(env, jar, u, pk, now))
  {
    ghost var visible := Visible(env, jar, u, pk, now);
    var rest := jar.Keys;
    found := [];
    ghost var seen: set<Key> := {};
    while rest != {}
      invariant rest <= jar.Keys && seen == visible - rest && Lists(found, seen)
      decreases |rest|
    {
      var k :| k in rest;
      if Sendable(env, jar[k], u, pk) {
        InsertInList(found, seen, |found|, k);
        found := found[..|found|] + [k] + found[|found|..];
        seen := seen + {k};
      }
      rest := rest - {k};
    }
    assert seen == visible;
  }

  // ---- Histories over all proxies ----

  datatype Op =
    | Set(proxy: string, pk: string, u: Url, cs: seq<Received>, now: Time)
    | Get(proxy: string, pk: string, u: Url, now: Time)

  type Jars = map<string, Jar>

  /** `GetJarForProxy` without a storage backend and with room in the table: one jar per proxy, made on first use. */
  function JarOf(jars: Jars, proxy: string): Jar { if proxy in jars then jars[proxy] else map[] }

  function Apply(env: Env, jars: Jars, op: Op): Jars {
    var jar := JarOf(jars, op.proxy);
    match op
    case Set(proxy, pk, u, cs, now) => jars[proxy := Purge(SetAll(env, jar, u, pk, cs, now), now)]
    case Get(proxy, _, _, now) => jars[proxy := Purge(jar, now)]
  }

  function After(env: Env, ops: seq<Op>): Jars {
    if ops == [] then map[] else Apply(env, After(env, ops[..|ops| - 1]), ops[|ops| - 1])
  }

  // ---- Partitions and proxies do not interfere ----

  /** Belongs to a partition other than `pk`. */
  predicate Foreign(c: Received, setUnder: string, pk: string) {
    c.partitioned && setUnder != "" && setUnder != pk
  }

  function Strip(cs: seq<Received>, setUnder: string, pk: string): seq<Received> {
    if cs == [] then []
    else
      var n := |cs| - 1;
      Strip(cs[..n], setUnder, pk) + (if Foreign(cs[n], setUnder, pk) then [] else [cs[n]])
  }

  /** The history without other proxies' operations and without other partitions' cookies. */
  function Censor(ops: seq<Op>, proxy: string, pk: string): seq<Op> {
    if ops == [] then []
    else
      var n := |ops| - 1;
      Censor(ops[..n], proxy, pk) +
      (if ops[n].proxy != proxy then []
       else if ops[n].Set? then [ops[n].(cs := Strip(ops[n].cs, ops[n].pk, pk))]
       else [ops[n]])
  }

  /** The two jars hold the same under `k`, if partition `pk` can see it at all. */
  ghost predicate SameAt(jar: Jar, jar': Jar, pk: string, k: Key) {
    k.partitionKey == "" || k.partitionKey == pk ==> (k in jar <==> k in jar') && (k in jar ==> jar[k] == jar'[k])
  }

  lemma SetOneSame(env: Env, jar: Jar, jar': Jar, u: Url, setUnder: string, c: Received, now: Time, pk: string, k: Key)
    requires SameAt(jar, jar', pk, k)
    ensures SameAt(SetOne(env, jar, u, setUnder, c, now),
                   if Foreign(c, setUnder, pk) then jar' else SetOne(env, jar', u, setUnder, c, now), pk, k)
  {
  }

  lemma {:induction false} SetAllSame(
      env: Env, jar: Jar, jar': Jar, u: Url, setUnder: string, cs: seq<Received>, now: Time, pk: string, k: Key)
    requires SameAt(jar, jar', pk, k)
    ensures SameAt(SetAll(env, jar, u, setUnder, cs, now),
                   SetAll(env, jar', u, setUnder, Strip(cs, setUnder, pk), now), pk, k)
  {
    if cs != [] {
      var n := |cs| - 1;
      SetAllSame(env, jar, jar', u, setUnder, cs[..n], now, pk, k);
      var kept := Strip(cs[..n], setUnder, pk);
      if Foreign(cs[n], setUnder, pk) {
        assert Strip(cs, setUnder, pk) == kept;
      } else {
        assert Strip(cs, setUnder, pk)[..|kept|] == kept;
      }
      SetOneSame(env, SetAll(env, jar, u, setUnder, cs[..n], now), SetAll(env, jar', u, setUnder, kept, now), u,
                 setUnder, cs[n], now, pk, k);
    }
  }

  lemma {:induction false} CensoredSame(env: Env, ops: seq<Op>, proxy: string, pk: string, k: Key)
    ensures SameAt(JarOf(After(env, ops), proxy), JarOf(After(env, Censor(ops, proxy, pk)), proxy), pk, k)
  {
    if ops != [] {
      var n := |ops| - 1;
      var op, before, kept := ops[n], ops[..n], Censor(ops[..n], proxy, pk);
      CensoredSame(env, before, proxy, pk, k);
      if op.proxy != proxy {
        assert Censor(ops, proxy, pk) == kept;
      } else {
        assert Censor(ops, proxy, pk)[..|kept|] == kept;
        if op.Set? {
          SetAllSame(env, JarOf(After(env, before), proxy), JarOf(After(env, kept), proxy), op.u, op.pk, op.cs, op.now,
                     pk, k);
        }
      }
    }
  }

  lemma {:induction false} AfterKeepsKeyed(env: Env, ops: seq<Op>, proxy: string)
    ensures Keyed(JarOf(After(env, ops), proxy))
  {
    if ops != [] {
      var n := |ops| - 1;
      AfterKeepsKeyed(env, ops[..n], proxy);
      AfterKeepsKeyed(env, ops[..n], ops[n].proxy);
      if ops[n].Set? {
        SetAllKeepsKeyed(env, JarOf(After(env, ops[..n]), ops[n].proxy), ops[n].u, ops[n].pk, ops[n].cs, ops[n].now);
      }
    }
  }

  /**
   What a request under `proxy` and partition `pk` is given does not change when every operation under another
   proxy, and every partitioned cookie set under another partition, is taken out of the history.
   */
  lemma PartitionsAndProxiesDoNotInterfere(env: Env, ops: seq<Op>, proxy: string, pk: string, u: Url, now: Time)
    ensures var jar, jar' := JarOf(After(env, ops), proxy), JarOf(After(env, Censor(ops, proxy, pk)), proxy);
            && Visible(env, jar, u, pk, now) == Visible(env, jar', u, pk, now)
            && forall k | k in Visible(env, jar, u, pk, now) :: k in jar && k in jar' && jar[k] == jar'[k]
  {
    var jar, jar' := JarOf(After(env, ops), proxy), JarOf(After(env, Censor(ops, proxy, pk)), proxy);
    AfterKeepsKeyed(env, ops, proxy);
    AfterKeepsKeyed(env, Censor(ops, proxy, pk), proxy);
    forall k: Key
      ensures k in Visible(env, jar, u, pk, now) <==> k in Visible(env, jar', u, pk, now)
      ensures k in Visible(env, jar, u, pk, now) ==> k in jar && k in jar' && jar[k] == jar'[k]
    {
      CensoredSame(env, ops, proxy, pk, k);
    }
  }

  // ---- The jar against the list of received cookies ----

  /** The last accepted cookie for key `k` among those of one call. */
  function LastIn(env: Env, u: Url, pk: string, cs: seq<Received>, k: Key): Option<Cookie> {
    if cs == [] then None
    else
      var c := cs[|cs| - 1];
      if Accepted(env, u, c) && KeyOf(u, pk, c) == k then Some(StoredForm(u, pk, c))
      else LastIn(env, u, pk, cs[..|cs| - 1], k)
  }

  /** The last accepted cookie for key `k` in the whole history under `proxy`, expired or not. */
  function LastWrite(env: Env, ops: seq<Op>, proxy: string, k: Key): Option<Cookie> {
    if ops == [] then None
    else
      var op := ops[|ops| - 1];
      var last := if op.Set? && op.proxy == proxy then LastIn(env, op.u, op.pk, op.cs, k) else None;
      if last.Some? then last else LastWrite(env, ops[..|ops| - 1], proxy, k)
  }

  function LiveAt(c: Option<Cookie>, t: Time): Option<Cookie> {
    if c.Some? && !Expired(c.value.expires, c.value.maxAge, t) then c else None
  }

  function At(jar: Jar, k: Key): Option<Cookie> { if k in jar then Some(jar[k]) else None }

  /** The clock readings of the history do not decrease, and end no later than `t`. */
  predicate Chronological(ops: seq<Op>, t: Time) {
    ops == [] || (ops[|ops| - 1].now <= t && Chronological(ops[..|ops| - 1], ops[|ops| - 1].now))
  }

  lemma {:induction false} SetAllIsLastIn(
      env: Env, jar: Jar, u: Url, pk: string, cs: seq<Received>, now: Time, t: Time, k: Key)
    requires now <= t
    ensures var last := LastIn(env, u, pk, cs, k);
            LiveAt(At(SetAll(env, jar, u, pk, cs, now), k), t) == LiveAt(if last.Some? then last else At(jar, k), t)
  {
    if cs != [] {
      SetAllIsLastIn(env, jar, u, pk, cs[..|cs| - 1], now, t, k);
    }
  }

  lemma {:induction false} JarIsLastWrite(env: Env, ops: seq<Op>, proxy: string, k: Key, t: Time)
    requires Chronological(ops, t)
    ensures LiveAt(At(JarOf(After(env, ops), proxy), k), t) == LiveAt(LastWrite(env, ops, proxy, k), t)
  {
    if ops != [] {
      var n := |ops| - 1;
      var op := ops[n];
      assert Chronological(ops[..n], t);
      JarIsLastWrite(env, ops[..n], proxy, k, t);
      if op.Set? && op.proxy == proxy {
        SetAllIsLastIn(env, JarOf(After(env, ops[..n]), proxy), op.u, op.pk, op.cs, op.now, t, k);
      }
    }
  }

  /**
   After any chronological history a request is given, for each key, the last accepted cookie received under
   its proxy, provided it has not expired by now and may be sent; deletions and purges change nothing else.
   */
  lemma CookiesAreTheLastOnesReceived(env: Env, ops: seq<Op>, proxy: string, pk: string, u: Url, now: Time, k: Key)
    requires Chronological(ops, now)
    ensures var jar, last := JarOf(After(env, ops), proxy), LastWrite(env, ops, proxy, k);
            && (k in Visible(env, jar, u, pk, now) <==>
                  LiveAt(last, now).Some? && Sendable(env, last.value, u, pk))
            && (k in Visible(env, jar, u, pk, now) ==> jar[k] == last.value)
  {
    JarIsLastWrite(env, ops, proxy, k, now);
  }

  // ---- One cookie, from receipt to request ----

  /** The host is the domain, or no address literal and ends in a dot and the domain; in whatever case. */
  predicate HostMatches(env: Env, host: string, domain: string) {
    || EqualFold(host, domain)
    || (&& !env.isIP(ToLower(host)) && |domain| < |host| && host[|host| - |domain| - 1] == '.'
        && EqualFold(host[|host| - |domain|..], domain))
  }

  lemma DomainMatchIsHostMatches(env: Env, host: string, domain: string)
    ensures DomainMatch(env, host, ToLower(domain)) <==> HostMatches(env, host, domain)
  {
    LowerTwice(domain);
    ToLowerMeaning(host, domain);
    if |domain| < |host| {
      var at := |host| - |domain|;
      ToLowerMeaning(host[at..], domain);
      assert ToLower(host[at..]) == ToLower(host)[at..];
      LowerCharMeaning(host[at - 1], '.');
    }
  }

  /** The request path is the cookie's, or continues it at a slash. */
  predicate PathContinues(reqPath: string, cookiePath: string)
    requires cookiePath != ""
  {
    reqPath == cookiePath
    || (cookiePath < reqPath && (cookiePath[|cookiePath| - 1] == '/' || reqPath[|cookiePath|] == '/'))
  }

  /** The jar takes the cookie: it has no Domain attribute, or no public suffix as one and its sender matches it. */
  predicate Takes(env: Env, u: Url, c: Received) {
    c.domain == "" ||
    (HostMatches(env, u.host, c.domain)
     && (env.suffix.None? || env.suffix.value(ToLower(c.domain)) != ToLower(c.domain)))
  }

  predicate Lives(c: Received, t: Time) { (c.expires.None? || t <= c.expires.value) && c.maxAge >= 0 }

  /**
   A cookie received into an empty jar is sent with a request if and only if the jar takes it; it is alive at receipt
   and at the request; it is not partitioned, or was received in the request's partition or in none; the request's host
   matches its domain (or its sender), the path continues its path, and a Secure cookie goes over https. It is sent as
   it was received.
   */
  lemma ReceivedIsSentExactlyWhen(
      env: Env, u: Url, pk: string, c: Received, now: Time, req: Url, reqKey: string, t: Time)
    ensures var jar, k := SetOne(env, map[], u, pk, c, now), KeyOf(u, pk, c);
            && (k in Visible(env, jar, req, reqKey, t) <==>
                  && Takes(env, u, c) && Lives(c, now) && Lives(c, t)
                  && (!c.partitioned || pk == "" || pk == reqKey)
                  && HostMatches(env, req.host, if c.domain == "" then u.host else c.domain)
                  && PathContinues(if req.path == "" then "/" else req.path, if c.path == "" then "/" else c.path)
                  && (c.secure ==> req.https))
            && (k in jar ==>
                  && jar[k].name == c.name && jar[k].value == c.value && jar[k].expires == c.expires
                  && jar[k].maxAge == c.maxAge && jar[k].secure == c.secure && jar[k].httpOnly == c.httpOnly
                  && jar[k].path == if c.path == "" then "/" else c.path)
  {
    var from := if c.domain == "" then u.host else c.domain;
    DomainMatchIsHostMatches(env, req.host, from);
    DomainMatchIsHostMatches(env, u.host, c.domain);
    PathMatchIsPathContinues(req.path, OrRoot(c.path));
  }

  lemma PathMatchIsPathContinues(reqPath: string, cookiePath: string)
    requires cookiePath != ""
    ensures PathMatch(reqPath, cookiePath) <==> PathContinues(if reqPath == "" then "/" else reqPath, cookiePath)
  {
    var r, n := OrRoot(reqPath), |cookiePath|;
    assert HasSuffix(cookiePath, "/") <==> cookiePath[n - 1] == '/';
    if cookiePath <= r && |r| == n {
      assert r == cookiePath;
    }
  }
}

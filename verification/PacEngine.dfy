/**
 The PAC engine: first-match evaluation of its rules behind a result cache that readers fill under the read lock
 and `AddRule` clears under the write lock.

 The glob matcher, the subnet test (with its fixed resolver) and `url.Parse` are parameters (`Env`).
 */
module PacEngine {
  import opened Prelude
  import Text = PacText

  type Gid = nat
  type Answer = seq<Text.Directive>

  datatype Env = Env(glob: (string, string) -> bool, inSubnet: (string, string) -> bool, urlOk: string -> bool)

  datatype Rule = Rule(pattern: string, hostSuffix: string, subnet: Option<string>, result: string)

  // ---- Rules ----

  predicate IsPlainHostName(host: string) { '.' !in host }

  predicate DNSDomainIs(host: string, domain: string) {
    HasSuffix(ToLower(host), ToLower(if "." <= domain then domain else "." + domain))
  }

  predicate LocalHostOrDomainIs(host: string, hostdom: string) {
    var h, d := ToLower(host), ToLower(hostdom);
    h == d || (IsPlainHostName(h) && h + "." <= d)
  }

  predicate MatchesRule(env: Env, rule: Rule, url: string, host: string) {
    (rule.hostSuffix == "local" && IsPlainHostName(host)) ||
    (&& (rule.hostSuffix != "" ==> DNSDomainIs(host, rule.hostSuffix) || LocalHostOrDomainIs(host, rule.hostSuffix))
     && (rule.pattern != "" ==> env.glob(url, rule.pattern) || env.glob(host, rule.pattern))
     && (rule.subnet.Some? ==> env.inSubnet(rule.subnet.value, host)))
  }

  /** What the rule list says: the result of the first rule that matches, or the default route. */
  function Eval(env: Env, fallback: string, rules: seq<Rule>, url: string, host: string): Answer {
    if rules == [] then Text.Parse(env.urlOk, fallback)
    else if MatchesRule(env, rules[0], url, host) then Text.Parse(env.urlOk, rules[0].result)
    else Eval(env, fallback, rules[1..], url, host)
  }

  // ---- The cache key ----

  function CacheKey(url: string, host: string): string { url + "|" + host }

  /** One host is the other behind a bar, and perhaps more: their keys can coincide. */
  predicate Clash(host: string, host': string) { HasSuffix(host', "|" + host) || HasSuffix(host, "|" + host') }

  lemma ShorterUrlSharesTail(url: string, host: string, url': string, host': string)
    requires CacheKey(url, host) == CacheKey(url', host') && |url| <= |url'|
    ensures (url == url' && host == host') || HasSuffix(host, "|" + host')
  {
    var k := CacheKey(url, host);
    assert url == k[..|url|] && host == k[|url| + 1..];
    assert url' == k[..|url'|] && "|" + host' == k[|url'|..];
    if |url| < |url'| {
      assert host[|url'| - |url| - 1..] == k[|url'|..];
    }
  }

  /** Two calls share a key only if they are the same call or their hosts clash. */
  lemma KeyInjective(url: string, host: string, url': string, host': string)
    requires CacheKey(url, host) == CacheKey(url', host')
    ensures (url == url' && host == host') || Clash(host, host')
  {
    if |url| <= |url'| {
      ShorterUrlSharesTail(url, host, url', host');
    } else {
      ShorterUrlSharesTail(url', host', url, host);
    }
  }

  /** The longer of two clashing hosts takes over part of the shorter one's URL. */
  lemma ClashSharesKey(url: string, host: string, long: string)
    requires HasSuffix(long, "|" + host)
    ensures CacheKey(url, long) == CacheKey(url + "|" + long[..|long| - |host| - 1], host)
  {
    assert long == long[..|long| - |host| - 1] + ("|" + host);
  }

  ghost predicate SharesKey(host: string, host': string) {
    exists url, url' :: CacheKey(url, host) == CacheKey(url', host')
  }

  /** Calls with two different hosts can share a cache entry if and only if the hosts clash. */
  lemma KeysShareExactlyWhenClashing(host: string, host': string)
    requires host != host'
    ensures SharesKey(host, host') <==> Clash(host, host')
  {
    if SharesKey(host, host') {
      var url, url' :| CacheKey(url, host) == CacheKey(url', host');
      KeyInjective(url, host, url', host');
    }
    if HasSuffix(host', "|" + host) {
      ClashSharesKey("", host, host');
      assert CacheKey("" + "|" + host'[..|host'| - |host| - 1], host) == CacheKey("", host');
    } else if HasSuffix(host, "|" + host') {
      ClashSharesKey("", host', host);
      assert CacheKey("", host) == CacheKey("" + "|" + host[..|host| - |host'| - 1], host');
    }
  }

  /** A set of hosts no two of which clash. */
  ghost predicate Separate(hosts: iset<string>) {
    forall host, host' | host in hosts && host' in hosts :: !Clash(host, host')
  }

  /** Hosts without a bar are such a set. */
  lemma BarFreeHostsAreSeparate(hosts: iset<string>)
    requires forall host | host in hosts :: '|' !in host
    ensures Separate(hosts)
  {
    forall host, host' | host in hosts && host' in hosts ensures !HasSuffix(host', "|" + host) {
      if |host| < |host'| {
        assert host'[|host'| - |host| - 1] in host' && ("|" + host)[0] == '|';
      }
    }
  }

  // ---- The engine as code ----

  class PACEngine {
    var rules: seq<Rule>
    var cache: map<string, Answer>
    const defaultRoute: string

    constructor (defaultRoute: string)
      ensures rules == [] && cache == map[]
      ensures this.defaultRoute == if defaultRoute == "" then "DIRECT" else defaultRoute
    {
      rules, cache := [], map[];
      this.defaultRoute := if defaultRoute == "" then "DIRECT" else defaultRoute;
    }

    method AddRule(rule: Rule)
      modifies this
      ensures rules == old(rules) + [rule] && cache == map[]
    {
      rules := rules + [rule];
      cache := map[];
    }

    /** A call that nothing interleaves with. */
    method FindProxyForURL(env: Env, url: string, host: string) returns (answer: Answer)
      modifies this`cache
      ensures var k := CacheKey(url, host);
              && answer == (if k in old(cache) then old(cache)[k] else Eval(env, defaultRoute, rules, url, host))
              && cache == old(cache)[k := answer]
    {
      var k := url + "|" + host;
      if k in cache {
        assert cache == cache[k := cache[k]];
        return cache[k];
      }
      for i := 0 to |rules|
        invariant Eval(env, defaultRoute, rules[i..], url, host) == Eval(env, defaultRoute, rules, url, host)
        invariant cache == old(cache)
      {
        assert rules[i..][1..] == rules[i + 1..];
        if MatchesRule(env, rules[i], url, host) {
          answer := Text.ParsePACResult(env.urlOk, rules[i].result);
          cache := cache[k := answer];
          return;
        }
      }
      answer := Text.ParsePACResult(env.urlOk, defaultRoute);
      cache := cache[k := answer];
    }
  }

  // ---- Any number of readers and writers ----

  datatype Proc =
    | Looking(url: string, host: string, since: nat)                 // before the cache load
    | Missed(url: string, host: string, since: nat)                  // before RLock
    | Reading(url: string, host: string, since: nat)                 // holds the read lock
    | Stored(url: string, host: string, since: nat, answer: Answer)  // cached, before RUnlock
    | Found(url: string, host: string, since: nat, answer: Answer)   // returned
    | Adding(rule: Rule)                                             // before Lock
    | Appending(rule: Rule)                                          // holds the write lock
    | Clearing(rule: Rule)                                           // appended, cache not yet cleared
    | Cleared(rule: Rule)                                            // before Unlock
    | Added(rule: Rule)

  /** `epochs`: the rule lists in force so far, the current one last; one comes into force when the cache is cleared. */
  datatype State = State(
    rules: seq<Rule>,
    cache: map<string, Answer>,
    epochs: seq<seq<Rule>>,
    readers: set<Gid>,
    writer: Option<Gid>,
    procs: map<Gid, Proc>)

  datatype Event = Find(g: Gid, url: string, host: string) | Add(g: Gid, rule: Rule) | Step(g: Gid)

  /** The read-write lock admits the step. */
  predicate Enabled(s: State, e: Event) {
    s.epochs != [] &&
    match e
    case Find(g, _, _) => g !in s.procs
    case Add(g, _) => g !in s.procs
    case Step(g) =>
      g in s.procs && !s.procs[g].Found? && !s.procs[g].Added?
      && (s.procs[g].Missed? ==> s.writer.None?)
      && (s.procs[g].Adding? ==> s.writer.None? && s.readers == {})
  }

  function Current(s: State): seq<Rule>
    requires s.epochs != []
  {
    s.epochs[|s.epochs| - 1]
  }

  function Next(env: Env, fallback: string, s: State, e: Event): State
    requires Enabled(s, e)
  {
    match e
    case Find(g, url, host) => s.(procs := s.procs[g := Looking(url, host, |s.epochs| - 1)])
    case Add(g, rule) => s.(procs := s.procs[g := Adding(rule)])
    case Step(g) =>
      match s.procs[g]
      case Looking(url, host, since) =>
        var k := CacheKey(url, host);
        s.(procs := s.procs[
             g := if k in s.cache then Found(url, host, since, s.cache[k]) else Missed(url, host, since)])
      case Missed(url, host, since) =>
        s.(readers := s.readers + {g}, procs := s.procs[g := Reading(url, host, since)])
      case Reading(url, host, since) =>
        var answer := Eval(env, fallback, s.rules, url, host);
        s.(cache := s.cache[CacheKey(url, host) := answer], procs := s.procs[g := Stored(url, host, since, answer)])
      case Stored(url, host, since, answer) =>
        s.(readers := s.readers - {g}, procs := s.procs[g := Found(url, host, since, answer)])
      case Adding(rule) => s.(writer := Some(g), procs := s.procs[g := Appending(rule)])
      case Appending(rule) => s.(rules := s.rules + [rule], procs := s.procs[g := Clearing(rule)])
      case Clearing(rule) => s.(cache := map[], epochs := s.epochs + [s.rules], procs := s.procs[g := Cleared(rule)])
      case Cleared(rule) => s.(writer := None, procs := s.procs[g := Added(rule)])
      case _ => s
  }

  ghost predicate Init(s: State) {
    s.cache == map[] && s.epochs == [s.rules] && s.readers == {} && s.writer == None && s.procs == map[]
  }

  predicate Searching(q: Proc) { q.Looking? || q.Missed? || q.Reading? || q.Stored? || q.Found? }

  predicate Writing(q: Proc) { q.Appending? || q.Clearing? || q.Cleared? }

  /** The answer is what some rule list said that was in force since the call began. */
  ghost predicate InForce(env: Env, fallback: string, s: State, q: Proc)
    requires q.Stored? || q.Found?
  {
    exists k :: q.since <= k < |s.epochs| && q.answer == Eval(env, fallback, s.epochs[k], q.url, q.host)
  }

  ghost predicate ProcOk(env: Env, fallback: string, hosts: iset<string>, s: State, g: Gid)
    requires g in s.procs && s.epochs != []
  {
    var q := s.procs[g];
    && (Searching(q) ==> q.host in hosts && q.since < |s.epochs|)
    && (g in s.readers <==> q.Reading? || q.Stored?)
    && (s.writer == Some(g) <==> Writing(q))
    && (q.Stored? || q.Found? ==> InForce(env, fallback, s, q))
  }

  ghost predicate LockOk(s: State)
    requires s.epochs != []
  {
    && (s.writer.Some? ==> s.readers == {} && s.writer.value in s.procs && Writing(s.procs[s.writer.value]))
    && s.rules == (if s.writer.Some? && s.procs[s.writer.value].Clearing?
                   then Current(s) + [s.procs[s.writer.value].rule] else Current(s))
  }

  /** Every entry that a call for one of the hosts may find is what the rules say. */
  ghost predicate CacheOk(
      env: Env, fallback: string, hosts: iset<string>, cache: map<string, Answer>, rules: seq<Rule>) {
    forall url, host | host in hosts && CacheKey(url, host) in cache ::
      cache[CacheKey(url, host)] == Eval(env, fallback, rules, url, host)
  }

  ghost predicate Inv(env: Env, fallback: string, hosts: iset<string>, s: State) {
    && s.epochs != [] && LockOk(s) && CacheOk(env, fallback, hosts, s.cache, Current(s))
    && (forall g | g in s.procs :: ProcOk(env, fallback, hosts, s, g)) && s.readers <= s.procs.Keys
  }

  lemma StepKeepsLock(env: Env, fallback: string, hosts: iset<string>, s: State, e: Event)
    requires Enabled(s, e) && LockOk(s)
    requires e.Step? ==> ProcOk(env, fallback, hosts, s, e.g)
    ensures LockOk(Next(env, fallback, s, e))
  {
  }

  lemma StoreKeepsCache(
      env: Env, fallback: string, hosts: iset<string>, cache: map<string, Answer>, rules: seq<Rule>,
      url: string, host: string)
    requires Separate(hosts) && host in hosts && CacheOk(env, fallback, hosts, cache, rules)
    ensures CacheOk(env, fallback, hosts, cache[CacheKey(url, host) := Eval(env, fallback, rules, url, host)], rules)
  {
    var cache' := cache[CacheKey(url, host) := Eval(env, fallback, rules, url, host)];
    forall url', host' | host' in hosts && CacheKey(url', host') in cache'
      ensures cache'[CacheKey(url', host')] == Eval(env, fallback, rules, url', host')
    {
      if CacheKey(url', host') == CacheKey(url, host) {
        KeyInjective(url', host', url, host);
      }
    }
  }

  /** A step stores one result of the current rules, clears the cache, or leaves cache and rules in force alone. */
  lemma StepOnCache(env: Env, fallback: string, hosts: iset<string>, s: State, e: Event)
    requires Enabled(s, e) && LockOk(s)
    requires e.Step? ==> ProcOk(env, fallback, hosts, s, e.g)
    ensures var s' := Next(env, fallback, s, e);
            if e.Step? && s.procs[e.g].Reading? then
              var q := s.procs[e.g];
              && Current(s') == Current(s) == s.rules && q.host in hosts
              && s'.cache == s.cache[CacheKey(q.url, q.host) := Eval(env, fallback, s.rules, q.url, q.host)]
            else s'.cache == map[] || (s'.cache == s.cache && Current(s') == Current(s))
  {
  }

  lemma StepKeepsCache(env: Env, fallback: string, hosts: iset<string>, s: State, e: Event)
    requires Separate(hosts) && Enabled(s, e) && LockOk(s) && CacheOk(env, fallback, hosts, s.cache, Current(s))
    requires e.Step? ==> ProcOk(env, fallback, hosts, s, e.g)
    ensures var s' := Next(env, fallback, s, e); CacheOk(env, fallback, hosts, s'.cache, Current(s'))
  {
    StepOnCache(env, fallback, hosts, s, e);
    if e.Step? && s.procs[e.g].Reading? {
      StoreKeepsCache(env, fallback, hosts, s.cache, s.rules, s.procs[e.g].url, s.procs[e.g].host);
    }
  }

  lemma StepKeepsOthers(env: Env, fallback: string, hosts: iset<string>, s: State, e: Event, g: Gid)
    requires Enabled(s, e) && g in s.procs && g != e.g && ProcOk(env, fallback, hosts, s, g)
    requires e.Step? ==> ProcOk(env, fallback, hosts, s, e.g)
    ensures ProcOk(env, fallback, hosts, Next(env, fallback, s, e), g)
  {
    var q := s.procs[g];
    if q.Stored? || q.Found? {
      var k :| q.since <= k < |s.epochs| && q.answer == Eval(env, fallback, s.epochs[k], q.url, q.host);
      assert Next(env, fallback, s, e).epochs[k] == s.epochs[k];
    }
  }

  lemma StepKeepsMover(env: Env, fallback: string, hosts: iset<string>, s: State, e: Event)
    requires Enabled(s, e) && LockOk(s) && CacheOk(env, fallback, hosts, s.cache, Current(s))
    requires if e.Step? then ProcOk(env, fallback, hosts, s, e.g) else e.g !in s.readers && s.writer != Some(e.g)
    requires e.Find? ==> e.host in hosts
    ensures ProcOk(env, fallback, hosts, Next(env, fallback, s, e), e.g)
  {
    var s' := Next(env, fallback, s, e);
    var q' := s'.procs[e.g];
    if q'.Stored? || (q'.Found? && s.procs[e.g].Looking?) {
      assert q'.answer == Eval(env, fallback, s'.epochs[|s.epochs| - 1], q'.url, q'.host);
    }
  }

  lemma StepKeepsInv(env: Env, fallback: string, hosts: iset<string>, s: State, e: Event)
    requires Separate(hosts) && Inv(env, fallback, hosts, s) && Enabled(s, e) && (e.Find? ==> e.host in hosts)
    ensures Inv(env, fallback, hosts, Next(env, fallback, s, e))
  {
    StepKeepsLock(env, fallback, hosts, s, e);
    StepKeepsCache(env, fallback, hosts, s, e);
    forall g | g in Next(env, fallback, s, e).procs ensures ProcOk(env, fallback, hosts, Next(env, fallback, s, e), g) {
      if g == e.g {
        StepKeepsMover(env, fallback, hosts, s, e);
      } else {
        StepKeepsOthers(env, fallback, hosts, s, e, g);
      }
    }
  }

  // ---- Whole runs ----

  /** An interleaving of calls for the given hosts with any number of `AddRule` calls. */
  ghost predicate Run(env: Env, fallback: string, hosts: iset<string>, ss: seq<State>, es: seq<Event>) {
    && |ss| == |es| + 1 && Init(ss[0])
    && (forall i | 0 <= i < |es| :: Enabled(ss[i], es[i]) && ss[i + 1] == Next(env, fallback, ss[i], es[i]))
    && (forall i | 0 <= i < |es| && es[i].Find? :: es[i].host in hosts)
  }

  lemma {:induction false} RunKeepsInv(
      env: Env, fallback: string, hosts: iset<string>, ss: seq<State>, es: seq<Event>, i: nat)
    requires Separate(hosts) && Run(env, fallback, hosts, ss, es) && i < |ss|
    ensures Inv(env, fallback, hosts, ss[i])
  {
    if i > 0 {
      RunKeepsInv(env, fallback, hosts, ss, es, i - 1);
      StepKeepsInv(env, fallback, hosts, ss[i - 1], es[i - 1]);
    }
  }

  /** Whenever no writer holds the lock, every cache entry is the first-match result of the current rules. */
  lemma CacheIsNeverStale(
      env: Env, fallback: string, hosts: iset<string>, ss: seq<State>, es: seq<Event>, i: nat,
      url: string, host: string)
    requires Separate(hosts) && Run(env, fallback, hosts, ss, es) && i < |ss| && ss[i].writer.None?
    requires host in hosts && CacheKey(url, host) in ss[i].cache
    ensures ss[i].cache[CacheKey(url, host)] == Eval(env, fallback, ss[i].rules, url, host)
  {
    RunKeepsInv(env, fallback, hosts, ss, es, i);
  }

  /** Every call returns what a rule list said that was in force at some moment between its start and its return. */
  lemma AnswersWereInForce(
      env: Env, fallback: string, hosts: iset<string>, ss: seq<State>, es: seq<Event>, i: nat, g: Gid)
    requires Separate(hosts) && Run(env, fallback, hosts, ss, es) && i < |ss|
    requires g in ss[i].procs && ss[i].procs[g].Found?
    ensures InForce(env, fallback, ss[i], ss[i].procs[g])
  {
    RunKeepsInv(env, fallback, hosts, ss, es, i);
    assert ProcOk(env, fallback, hosts, ss[i], g);
  }

  // ---- Clashing hosts ----

  /** A rule by host suffix alone. */
  function SuffixRule(suffix: string, result: string): Rule { Rule("", suffix, None, result) }

  /** The suffix that tells two clashing hosts apart. */
  function TellingSuffix(host: string, long: string): string {
    if !(IsPlainHostName(ToLower(host)) && ToLower(host) + "." <= ToLower(long)) then long
    else if host != "" then host
    else "local"
  }

  lemma SuffixRuleMeaning(env: Env, suffix: string, result: string, url: string, host: string)
    requires suffix != "" && suffix != "local"
    ensures MatchesRule(env, SuffixRule(suffix, result), url, host)
            <==> DNSDomainIs(host, suffix) || LocalHostOrDomainIs(host, suffix)
  {
  }

  lemma LongerIsNoSuffix(host: string, suffix: string)
    requires |host| < |suffix|
    ensures !DNSDomainIs(host, suffix) && ToLower(host) != ToLower(suffix)
  {
    assert |ToLower(host)| == |host| && |ToLower(suffix)| == |suffix|;
  }

  lemma BarIsNotLocal(s: string, i: nat)
    requires i < |s| && s[i] == '|'
    ensures s != "local"
  {
    assert '|' in s && '|' !in "local";
  }

  /** The long host matches itself; the short one does not match it. */
  lemma LongSuffixTells(env: Env, host: string, long: string, result: string, url: string, url': string)
    requires HasSuffix(long, "|" + host) && !(IsPlainHostName(ToLower(host)) && ToLower(host) + "." <= ToLower(long))
    ensures MatchesRule(env, SuffixRule(long, result), url, long)
    ensures !MatchesRule(env, SuffixRule(long, result), url', host)
  {
    BarIsNotLocal(long, |long| - |host| - 1);
    SuffixRuleMeaning(env, long, result, url, long);
    SuffixRuleMeaning(env, long, result, url', host);
    LongerIsNoSuffix(host, long);
  }

  lemma DotIsKept(s: string, i: nat)
    requires i < |s|
    ensures ToLower(s)[i] == '.' <==> s[i] == '.'
    ensures ToLower(s)[i] == '|' <==> s[i] == '|'
  {
  }

  /** A plain host matches itself; the long one has a dot, and a bar where the dot before the suffix would be. */
  lemma ShortSuffixTells(env: Env, host: string, long: string, result: string, url: string, url': string)
    requires HasSuffix(long, "|" + host) && host != ""
    requires IsPlainHostName(ToLower(host)) && ToLower(host) + "." <= ToLower(long)
    ensures !MatchesRule(env, SuffixRule(host, result), url, long)
    ensures MatchesRule(env, SuffixRule(host, result), url', host)
  {
    var at := |long| - |host| - 1;
    assert long[at] == '|';
    DotIsKept(long, at);
    DotIsKept(long, |host|);
    assert ToLower(long)[|host|] == '.' && '.' in long && '.' in ToLower(long);
    DotIsKept(host, 0);
    assert host[0] != '.';
    assert ToLower("." + host)[0] == '.' && ToLower(long)[at..][0] == '|';
  }

  lemma EmptyHostTells(env: Env, long: string, result: string, url: string, url': string)
    requires HasSuffix(long, "|") && "." <= ToLower(long)
    ensures !MatchesRule(env, SuffixRule("local", result), url, long)
    ensures MatchesRule(env, SuffixRule("local", result), url', "")
  {
    var last := |long| - 1;
    assert long[last] == '|';
    DotIsKept(long, last);
    DotIsKept(long, 0);
    assert '.' in long && '.' in ToLower(long);
    assert ToLower("." + "local")[5] == 'l' && ToLower("local")[4] == 'l';
  }

  /** Whatever the environment, one rule by host suffix matches exactly one of two calls for clashing hosts. */
  lemma OneRuleTellsApart(env: Env, host: string, long: string, result: string, url: string, url': string)
    requires HasSuffix(long, "|" + host)
    ensures var rule := SuffixRule(TellingSuffix(host, long), result);
            MatchesRule(env, rule, url, long) != MatchesRule(env, rule, url', host)
  {
    if !(IsPlainHostName(ToLower(host)) && ToLower(host) + "." <= ToLower(long)) {
      LongSuffixTells(env, host, long, result, url, url');
    } else if host != "" {
      ShortSuffixTells(env, host, long, result, url, url');
    } else {
      assert ToLower(host) + "." == "." && "|" + host == "|";
      EmptyHostTells(env, long, result, url, url');
    }
  }

  lemma RunGrows(env: Env, fallback: string, hosts: iset<string>, ss: seq<State>, es: seq<Event>, e: Event)
    requires Run(env, fallback, hosts, ss, es) && Enabled(ss[|es|], e) && (e.Find? ==> e.host in hosts)
    ensures Run(env, fallback, hosts, ss + [Next(env, fallback, ss[|es|], e)], es + [e])
  {
  }

  /** A run of one call, up to the point where its answer is in the cache. */
  lemma FirstCall(env: Env, fallback: string, hosts: iset<string>, rules: seq<Rule>, url: string, host: string)
    returns (ss: seq<State>, es: seq<Event>)
    requires host in hosts
    ensures Run(env, fallback, hosts, ss, es)
    ensures var last, answer := ss[|es|], Eval(env, fallback, rules, url, host);
            && last.epochs == [rules] && last.procs == map[0 := Stored(url, host, 0, answer)]
            && last.cache == map[CacheKey(url, host) := answer]
  {
    ss, es := [State(rules, map[], [rules], {}, None, map[])], [];
    var todo := [Find(0, url, host), Step(0), Step(0), Step(0)];
    RunGrows(env, fallback, hosts, ss, es, todo[0]);
    ss, es := ss + [Next(env, fallback, ss[0], todo[0])], es + [todo[0]];
    assert ss[1].procs == map[0 := Looking(url, host, 0)];
    RunGrows(env, fallback, hosts, ss, es, todo[1]);
    ss, es := ss + [Next(env, fallback, ss[1], todo[1])], es + [todo[1]];
    assert ss[2].procs == map[0 := Missed(url, host, 0)];
    RunGrows(env, fallback, hosts, ss, es, todo[2]);
    ss, es := ss + [Next(env, fallback, ss[2], todo[2])], es + [todo[2]];
    assert ss[3].procs == map[0 := Reading(url, host, 0)];
    RunGrows(env, fallback, hosts, ss, es, todo[3]);
    ss, es := ss + [Next(env, fallback, ss[3], todo[3])], es + [todo[3]];
  }

  /** Another call after it finds what the first one stored, if the keys are the same. */
  lemma SecondCallFindsTheFirst(
      env: Env, fallback: string, hosts: iset<string>, rules: seq<Rule>,
      url: string, host: string, url': string, host': string)
    returns (ss: seq<State>, es: seq<Event>)
    requires host in hosts && host' in hosts && CacheKey(url, host) == CacheKey(url', host')
    ensures Run(env, fallback, hosts, ss, es)
    ensures var last := ss[|es|];
            && last.epochs == [rules] && 1 in last.procs
            && last.procs[1] == Found(url', host', 0, Eval(env, fallback, rules, url, host))
  {
    ss, es := FirstCall(env, fallback, hosts, rules, url, host);
    var begin, look := Find(1, url', host'), Step(1);
    RunGrows(env, fallback, hosts, ss, es, begin);
    ss, es := ss + [Next(env, fallback, ss[|es|], begin)], es + [begin];
    RunGrows(env, fallback, hosts, ss, es, look);
    ss, es := ss + [Next(env, fallback, ss[|es|], look)], es + [look];
  }

  /** Where `ProxyURLFunc` sends a request: to the first proxy listed, or direct. */
  function Route(answer: Answer): Option<string> {
    if answer == [] || answer[0].kind == "DIRECT" then None
    else if answer[0].proxyURL.Some? then answer[0].proxyURL
    else Route(answer[1..])
  }

  /** A well-formed directive that names a proxy. */
  predicate IsProxy(urlOk: string -> bool, d: Text.Directive) { Text.WellFormed(urlOk, d) && d != Text.DIRECT }

  /** Any upper-case word and any address whose URL parses make one, such as "PROXY p:1". */
  lemma UpperCaseIsProxy(urlOk: string -> bool, kind: string, hostPort: string)
    requires kind != "" && kind != "DIRECT" && (forall i | 0 <= i < |kind| :: 'A' <= kind[i] <= 'Z')
    requires Text.Plain(hostPort) && urlOk(Text.UrlText(kind, hostPort))
    ensures IsProxy(urlOk, Text.Directive(kind, hostPort, Some(Text.UrlText(kind, hostPort))))
  {
    assert Text.ToUpper(kind) == kind;
  }

  /** The text of a proxy and the text "DIRECT" route differently. */
  lemma ResultsRouteDifferently(urlOk: string -> bool, proxy: Text.Directive)
    requires IsProxy(urlOk, proxy)
    ensures Route(Text.Parse(urlOk, Text.Join([proxy]))) != Route(Text.Parse(urlOk, Text.Join([Text.DIRECT])))
  {
    Text.RoundTripExactlyWhenWellFormed(urlOk, [proxy]);
    Text.RoundTripExactlyWhenWellFormed(urlOk, [Text.DIRECT]);
  }

  /** The answer of a call routes as some rule list said that was in force since the call began. */
  ghost predicate RoutedInForce(env: Env, fallback: string, s: State, q: Proc)
    requires q.Found?
  {
    exists k :: q.since <= k < |s.epochs| && Route(q.answer) == Route(Eval(env, fallback, s.epochs[k], q.url, q.host))
  }

  /**
   One rule and two calls whose hosts clash, whatever the environment: the second call is answered with what the first
   one put in the cache, and is routed as no rule list ever said.
   */
  lemma ClashMisroutes(env: Env, proxy: Text.Directive, hosts: iset<string>, host: string, long: string)
    returns (fallback: string, ss: seq<State>, es: seq<Event>)
    requires IsProxy(env.urlOk, proxy)
    requires host in hosts && long in hosts && HasSuffix(long, "|" + host)
    ensures Run(env, fallback, hosts, ss, es)
    ensures var last := ss[|es|];
            1 in last.procs && last.procs[1].Found? && !RoutedInForce(env, fallback, last, last.procs[1])
  {
    var url, url' := "", "" + "|" + long[..|long| - |host| - 1];
    var rule := SuffixRule(TellingSuffix(host, long), Text.Join([proxy]));
    fallback := Text.Join([Text.DIRECT]);
    ResultsRouteDifferently(env.urlOk, proxy);
    OneRuleTellsApart(env, host, long, rule.result, url, url');
    EvalOfOneRule(env, fallback, rule, url, long);
    EvalOfOneRule(env, fallback, rule, url', host);
    ClashSharesKey(url, host, long);
    ss, es := SecondCallFindsTheFirst(env, fallback, hosts, [rule], url, long, url', host);
  }

  lemma EvalOfOneRule(env: Env, fallback: string, rule: Rule, url: string, host: string)
    ensures Eval(env, fallback, [rule], url, host)
            == Text.Parse(env.urlOk, if MatchesRule(env, rule, url, host) then rule.result else fallback)
  {
    assert [rule][1..] == [];
  }

  /** Every answer returned so far was in force during its call. */
  ghost predicate AllInForce(env: Env, fallback: string, s: State) {
    forall g | g in s.procs && s.procs[g].Found? :: InForce(env, fallback, s, s.procs[g])
  }

  ghost predicate AllRoutedInForce(env: Env, fallback: string, s: State) {
    forall g | g in s.procs && s.procs[g].Found? :: RoutedInForce(env, fallback, s, s.procs[g])
  }

  /** So it is at every moment of every run for these hosts, whatever the rules and the default route. */
  ghost predicate NeverWrong(env: Env, hosts: iset<string>) {
    forall fallback: string, ss: seq<State>, es: seq<Event>, i: nat
      | Run(env, fallback, hosts, ss, es) && i < |ss| :: AllInForce(env, fallback, ss[i])
  }

  /** No request is routed wrongly at any moment of any such run. */
  ghost predicate NeverMisrouted(env: Env, hosts: iset<string>) {
    forall fallback: string, ss: seq<State>, es: seq<Event>, i: nat
      | Run(env, fallback, hosts, ss, es) && i < |ss| :: AllRoutedInForce(env, fallback, ss[i])
  }

  lemma InForceRoutes(env: Env, fallback: string, s: State)
    requires AllInForce(env, fallback, s)
    ensures AllRoutedInForce(env, fallback, s)
  {
    forall g | g in s.procs && s.procs[g].Found? ensures RoutedInForce(env, fallback, s, s.procs[g]) {
      var q := s.procs[g];
      assert InForce(env, fallback, s, q);
      var k :| q.since <= k < |s.epochs| && q.answer == Eval(env, fallback, s.epochs[k], q.url, q.host);
      assert Route(q.answer) == Route(Eval(env, fallback, s.epochs[k], q.url, q.host));
    }
  }

  lemma SeparateIsNeverWrong(env: Env, hosts: iset<string>)
    requires Separate(hosts)
    ensures NeverWrong(env, hosts)
  {
    forall fallback: string, ss: seq<State>, es: seq<Event>, i: nat
      | Run(env, fallback, hosts, ss, es) && i < |ss| ensures AllInForce(env, fallback, ss[i])
    {
      forall g | g in ss[i].procs && ss[i].procs[g].Found? ensures InForce(env, fallback, ss[i], ss[i].procs[g]) {
        AnswersWereInForce(env, fallback, hosts, ss, es, i, g);
      }
    }
  }

  /**
   In every environment, as soon as it knows one proxy: the engine answers right for a set of hosts, and routes right,
   if and only if no two of the hosts clash.
   */
  lemma AnswersAreRightExactlyWhenSeparate(env: Env, proxy: Text.Directive, hosts: iset<string>)
    requires IsProxy(env.urlOk, proxy)
    ensures NeverWrong(env, hosts) <==> Separate(hosts)
    ensures NeverMisrouted(env, hosts) <==> Separate(hosts)
  {
    if Separate(hosts) {
      SeparateIsNeverWrong(env, hosts);
      forall fallback: string, ss: seq<State>, es: seq<Event>, i: nat
        | Run(env, fallback, hosts, ss, es) && i < |ss| ensures AllRoutedInForce(env, fallback, ss[i])
      {
        InForceRoutes(env, fallback, ss[i]);
      }
    } else {
      var host, host' :| host in hosts && host' in hosts && Clash(host, host');
      var fallback, ss, es;
      if HasSuffix(host', "|" + host) {
        fallback, ss, es := ClashMisroutes(env, proxy, hosts, host, host');
      } else {
        fallback, ss, es := ClashMisroutes(env, proxy, hosts, host', host);
      }
      assert !AllRoutedInForce(env, fallback, ss[|es|]);
      if AllInForce(env, fallback, ss[|es|]) {
        InForceRoutes(env, fallback, ss[|es|]);
      }
    }
  }

  // ---- What the rules say ----

  /** The first rule that matches decides, and the default route if none does. */
  lemma {:induction false} FirstMatchDecides(
      env: Env, fallback: string, rules: seq<Rule>, url: string, host: string, k: nat)
    requires k <= |rules| && forall i | 0 <= i < k :: !MatchesRule(env, rules[i], url, host)
    requires k < |rules| ==> MatchesRule(env, rules[k], url, host)
    ensures Eval(env, fallback, rules, url, host)
            == Text.Parse(env.urlOk, if k < |rules| then rules[k].result else fallback)
  {
    if k > 0 {
      FirstMatchDecides(env, fallback, rules[1..], url, host, k - 1);
    }
  }

  /** `host` ends in `tail`, letter by letter. */
  predicate EndsWithFold(host: string, tail: string) {
    |tail| <= |host| && EqualFold(host[|host| - |tail|..], tail)
  }

  predicate BeginsWithFold(s: string, head: string) { |head| <= |s| && EqualFold(s[..|head|], head) }

  /** The suffix with a dot in front. */
  function Dotted(suffix: string): string { if suffix != "" && suffix[0] == '.' then suffix else "." + suffix }

  /**
   A host fits a non-empty suffix if it ends in the dotted suffix, is the suffix, or has no dot and is its first label;
   all in whatever case.
   */
  predicate Fits(host: string, suffix: string) {
    || EndsWithFold(host, Dotted(suffix)) || EqualFold(host, suffix)
    || ('.' !in host && BeginsWithFold(suffix, host + "."))
  }

  lemma LowerSlices(s: string, i: nat)
    requires i <= |s|
    ensures ToLower(s[i..]) == ToLower(s)[i..] && ToLower(s[..i]) == ToLower(s)[..i]
  {
  }

  lemma LowerKeepsDots(s: string)
    ensures '.' in ToLower(s) <==> '.' in s
  {
    forall i: nat | i < |s| ensures ToLower(s)[i] == '.' <==> s[i] == '.' { DotIsKept(s, i); }
    if '.' in s {
      var i :| 0 <= i < |s| && s[i] == '.';
      assert ToLower(s)[i] == '.';
    }
  }

  lemma SuffixMeaning(host: string, suffix: string)
    ensures DNSDomainIs(host, suffix) <==> EndsWithFold(host, Dotted(suffix))
  {
    var d := Dotted(suffix);
    assert d == if "." <= suffix then suffix else "." + suffix;
    if |d| <= |host| {
      LowerSlices(host, |host| - |d|);
      ToLowerMeaning(host[|host| - |d|..], d);
    }
  }

  lemma LocalMeaning(host: string, suffix: string)
    ensures LocalHostOrDomainIs(host, suffix)
            <==> EqualFold(host, suffix) || ('.' !in host && BeginsWithFold(suffix, host + "."))
  {
    ToLowerMeaning(host, suffix);
    LowerKeepsDots(host);
    var head := host + ".";
    assert ToLower(head) == ToLower(host) + ".";
    if |head| <= |suffix| {
      LowerSlices(suffix, |head|);
      ToLowerMeaning(suffix[..|head|], head);
    }
  }

  /**
   A rule matches a call if its suffix is "local" and the host has no dot; or if the host fits its suffix, its pattern
   matches the URL or the host, and the host lies in its subnet, as far as it has these.
   */
  lemma RuleMeaning(env: Env, rule: Rule, url: string, host: string)
    ensures MatchesRule(env, rule, url, host) <==>
            || (rule.hostSuffix == "local" && '.' !in host)
            || (&& (rule.hostSuffix == "" || Fits(host, rule.hostSuffix))
                && (rule.pattern == "" || env.glob(url, rule.pattern) || env.glob(host, rule.pattern))
                && (rule.subnet.None? || env.inSubnet(rule.subnet.value, host)))
  {
    SuffixMeaning(host, rule.hostSuffix);
    LocalMeaning(host, rule.hostSuffix);
  }
}

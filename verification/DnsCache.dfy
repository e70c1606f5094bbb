/**
 The in-memory DNS cache: fresh hits, negative caching (RFC 2308), the NXDOMAIN cut (RFC 8020), serving stale
 data (RFC 8767) and the background eviction pass.

 Times are nanoseconds. A lookup reads the cache on entry, reads it again in its single-flight body, and stores when
 upstream has answered; an eviction pass inspects a key and then deletes it. `Step` interleaves these sections of any
 number of lookups with the pass; `Lookup` is a call that nothing comes between. A flight stands for all callers that
 share its single-flight result.
 */
module DnsCache {
  import opened Prelude

  type Host = string
  type Time = int
  type Ips = seq<string>

  const DEFAULT_STALE_RESPONSE_TTL: int := 30 * SECOND
  const FAILURE_RECHECK_INTERVAL: int := 30 * SECOND
  const DEFAULT_NEGATIVE_TTL: int := 300 * SECOND
  const MIN_RECORD_TTL: int := 5 * SECOND

  datatype Error = NxDomain | NoData | HostNotFound | Other(text: string)

  predicate IsNxDomain(e: Error) { e.NxDomain? || e.HostNotFound? }

  predicate IsNotFound(e: Error) { !e.Other? }

  datatype Entry =
    | Positive(ips: Ips, freshUntil: Time, staleUntil: Time, lastFailure: Option<Time>)
    | Negative(err: Error, freshUntil: Time, staleUntil: Time)

  type Cache = map<Host, Entry>

  /** `extended`: the resolver also answers `LookupDNSRecords`. */
  datatype Config = Config(
    ttl: int, negativeTTL: int, maxStaleTTL: int, serveStale: bool, negativeCaching: bool, extended: bool)

  datatype Records = Found(ips: Ips, ttl: int) | Empty | RecordsErr

  datatype Reply = Resolved(ips: Ips) | Failed(err: Error)

  /** What upstream answers if asked, and when the record store reads the clock. */
  datatype Upstream = Upstream(records: Records, reply: Reply, storedAt: Time)

  datatype Answer = Addresses(ips: Ips) | NotFound(err: Error) | Wrapped(err: Error)

  /** `queried`: upstream was asked; `fromCache`: the addresses are a cache entry's, judged at `checkedAt`. */
  datatype Result = Result(answer: Answer, queried: bool, fromCache: bool, checkedAt: Time)

  // ---- The NXDOMAIN cut ----

  predicate FreshNx(cache: Cache, host: Host, now: Time) {
    host in cache && cache[host].Negative? && now < cache[host].freshUntil && IsNxDomain(cache[host].err)
  }

  /** A proper, non-empty suffix of `host` after a dot. */
  predicate IsAncestorAt(host: Host, i: int) { 0 < i < |host| && host[i - 1] == '.' }

  /** The nearest ancestor with a fresh NXDOMAIN among the suffixes from position `i` on. */
  function NxAncestor(cache: Cache, host: Host, i: nat, now: Time): (r: Option<Error>)
    ensures r.Some? <==> exists j :: i <= j && IsAncestorAt(host, j) && FreshNx(cache, host[j..], now)
    decreases |host| - i
  {
    if i >= |host| then None
    else if IsAncestorAt(host, i) && FreshNx(cache, host[i..], now) then Some(cache[host[i..]].err)
    else NxAncestor(cache, host, i + 1, now)
  }

  // ---- A lookup on values ----

  predicate Fresh(cache: Cache, host: Host, now: Time) { host in cache && now < cache[host].freshUntil }

  predicate Stale(cfg: Config, cache: Cache, host: Host, now: Time) {
    cfg.serveStale && host in cache && cache[host].Positive? && now < cache[host].staleUntil
  }

  predicate InRecheckWindow(cfg: Config, cache: Cache, host: Host, now: Time) {
    Stale(cfg, cache, host, now) && cache[host].lastFailure.Some?
    && now - cache[host].lastFailure.value < FAILURE_RECHECK_INTERVAL
  }

  function EntryAnswer(e: Entry): Answer {
    match e
    case Positive(ips, _, _, _) => Addresses(ips)
    case Negative(err, _, _) => NotFound(err)
  }

  function Rewrap(a: Answer): Answer { if a.NotFound? then Wrapped(a.err) else a }

  function Cut(cfg: Config, cache: Cache, host: Host, now: Time): Option<Error> {
    if cfg.negativeCaching then NxAncestor(cache, host, 1, now) else None
  }

  /** What a lookup does: the entry it writes for its host, if any, and its result. */
  datatype Verdict = Verdict(write: Option<Entry>, result: Result)

  function ServeStale(e: Entry, now: Time): Verdict
    requires e.Positive?
  {
    Verdict(Some(e.(lastFailure := Some(now))), Result(Addresses(e.ips), true, true, now))
  }

  function Store(cfg: Config, ips: Ips, freshUntil: Time, now: Time): Verdict {
    Verdict(Some(Positive(ips, freshUntil, freshUntil + cfg.maxStaleTTL, None)),
            Result(Addresses(ips), true, false, now))
  }

  /** The cache reads on entry: an answer, or nothing. */
  function FastRead(cfg: Config, cache: Cache, host: Host, now: Time): Option<Result> {
    if Fresh(cache, host, now) || InRecheckWindow(cfg, cache, host, now) then
      Some(Result(EntryAnswer(cache[host]), false, cache[host].Positive?, now))
    else if Cut(cfg, cache, host, now).Some? then
      Some(Result(NotFound(Cut(cfg, cache, host, now).value), false, false, now))
    else None
  }

  /** The cache reads of the single-flight body; its errors come back wrapped. */
  function BodyRead(cfg: Config, cache: Cache, host: Host, now: Time): Option<Result> {
    if Fresh(cache, host, now) then
      Some(Result(Rewrap(EntryAnswer(cache[host])), false, cache[host].Positive?, now))
    else if Cut(cfg, cache, host, now).Some? then
      Some(Result(Wrapped(Cut(cfg, cache, host, now).value), false, false, now))
    else None
  }

  /** The entry the body has read and may serve stale at `now`. */
  function StaleEntry(cfg: Config, cache: Cache, host: Host, now: Time): (r: Option<Entry>)
    ensures r.Some? ==> r.value.Positive?
  {
    if Stale(cfg, cache, host, now) then Some(cache[host]) else None
  }

  /** What the body does with upstream's answer. */
  function Settle(cfg: Config, stale: Option<Entry>, now: Time, up: Upstream): Verdict
    requires stale.Some? ==> stale.value.Positive?
  {
    if cfg.extended && up.records.Found? then
      Store(cfg, up.records.ips, up.storedAt + Max(up.records.ttl, MIN_RECORD_TTL), now)
    else if cfg.extended && up.records.RecordsErr? && stale.Some? then ServeStale(stale.value, now)
    else
      match up.reply
      case Resolved(ips) =>
        Store(cfg, ips, now + (if cfg.ttl <= 0 then DEFAULT_STALE_RESPONSE_TTL else cfg.ttl), now)
      case Failed(err) =>
        if cfg.negativeCaching && IsNotFound(err) then
          var until := now + (if cfg.negativeTTL <= 0 then DEFAULT_NEGATIVE_TTL else cfg.negativeTTL);
          Verdict(Some(Negative(err, until, until)), Result(Wrapped(err), true, false, now))
        else if stale.Some? then ServeStale(stale.value, now)
        else Verdict(None, Result(Wrapped(err), true, false, now))
  }

  /** The whole single-flight body, when nothing comes between its reads and its store. */
  function Resolve(cfg: Config, cache: Cache, host: Host, now: Time, up: Upstream): Verdict {
    match BodyRead(cfg, cache, host, now)
    case Some(r) => Verdict(None, r)
    case None => Settle(cfg, StaleEntry(cfg, cache, host, now), now, up)
  }

  /** `LookupIPAddr` entered at `now`, its single-flight body at `later`, when nothing comes between. */
  function Lookup(cfg: Config, cache: Cache, host: Host, now: Time, later: Time, up: Upstream): Verdict {
    match FastRead(cfg, cache, host, now)
    case Some(r) => Verdict(None, r)
    case None => Resolve(cfg, cache, host, later, up)
  }

  function Apply(cache: Cache, host: Host, v: Verdict): Cache {
    if v.write.Some? then cache[host := v.write.value] else cache
  }

  /** The eviction pass at coarse time `now`. */
  function Purge(cache: Cache, now: Time): Cache {
    map h | h in cache && now <= cache[h].staleUntil :: cache[h]
  }

  // ---- The cache as code ----

  class InMemoryDNSCache {
    var cache: Cache
    const cfg: Config

    constructor (cfg: Config)
      ensures cache == map[] && this.cfg == cfg
    {
      cache, this.cfg := map[], cfg;
    }

    /** Index of the next dot at or after `from`, or the length of the host. */
    static method IndexDot(host: Host, from: nat) returns (i: nat)
      requires from <= |host|
      ensures from <= i <= |host| && (i < |host| ==> host[i] == '.')
      ensures forall j | from <= j < i :: host[j] != '.'
    {
      i := from;
      while i < |host| && host[i] != '.'
        invariant from <= i <= |host| && forall j | from <= j < i :: host[j] != '.'
      {
        i := i + 1;
      }
    }

    method CheckAncestorNXDOMAIN(host: Host, now: Time) returns (r: Option<Error>)
      ensures r == NxAncestor(cache, host, 1, now)
    {
      var idx := 0;
      while true
        invariant idx == 0 || 0 < idx < |host|
        invariant NxAncestor(cache, host, 1, now) == NxAncestor(cache, host, idx + 1, now)
        decreases |host| - idx
      {
        var dot := IndexDot(host, idx);
        SkipToDot(cache, host, idx + 1, dot + 1, now);
        if dot == |host| {
          return None;
        }
        idx := dot + 1;
        if idx >= |host| {
          return None;
        }
        if FreshNx(cache, host[idx..], now) {
          return Some(cache[host[idx..]].err);
        }
      }
    }

    /** The reads on entry. */
    method ReadFast(host: Host, now: Time) returns (res: Option<Result>)
      ensures res == FastRead(cfg, cache, host, now)
    {
      if host in cache {
        var entry := cache[host];
        if entry.Negative? && now < entry.freshUntil {
          return Some(Result(NotFound(entry.err), false, false, now));
        }
        if entry.Positive? && now < entry.freshUntil {
          return Some(Result(Addresses(entry.ips), false, true, now));
        }
        if cfg.serveStale && entry.Positive? && now < entry.staleUntil && entry.lastFailure.Some?
           && now - entry.lastFailure.value < FAILURE_RECHECK_INTERVAL {
          return Some(Result(Addresses(entry.ips), false, true, now));
        }
      }
      if cfg.negativeCaching {
        var cut := CheckAncestorNXDOMAIN(host, now);
        if cut.Some? {
          return Some(Result(NotFound(cut.value), false, false, now));
        }
      }
      return None;
    }

    /** The reads of the single-flight body; `stale` is what it may fall back on. */
    method ReadInBody(host: Host, now: Time) returns (res: Option<Result>, stale: Option<Entry>)
      ensures res == BodyRead(cfg, cache, host, now) && stale == StaleEntry(cfg, cache, host, now)
    {
      stale := None;
      if cfg.serveStale && host in cache && cache[host].Positive? && now < cache[host].staleUntil {
        stale := Some(cache[host]);
      }
      if host in cache && now < cache[host].freshUntil {
        return Some(Result(Rewrap(EntryAnswer(cache[host])), false, cache[host].Positive?, now)), stale;
      }
      if cfg.negativeCaching {
        var cut := CheckAncestorNXDOMAIN(host, now);
        if cut.Some? {
          return Some(Result(Wrapped(cut.value), false, false, now)), stale;
        }
      }
      return None, stale;
    }

    /** The store after upstream answered, whatever the cache holds by then. */
    method StoreAnswer(host: Host, stale: Option<Entry>, now: Time, up: Upstream) returns (res: Result)
      requires stale.Some? ==> stale.value.Positive?
      modifies this
      ensures var v := Settle(cfg, stale, now, up); res == v.result && cache == Apply(old(cache), host, v)
    {
      if cfg.extended {
        if up.records.Found? {
          var freshUntil := up.storedAt + Max(up.records.ttl, MIN_RECORD_TTL);
          cache := cache[host := Positive(up.records.ips, freshUntil, freshUntil + cfg.maxStaleTTL, None)];
          return Result(Addresses(up.records.ips), true, false, now);
        }
        if up.records.RecordsErr? && stale.Some? {
          cache := cache[host := stale.value.(lastFailure := Some(now))];
          return Result(Addresses(stale.value.ips), true, true, now);
        }
      }
      if up.reply.Failed? {
        if cfg.negativeCaching && IsNotFound(up.reply.err) {
          var until := now + (if cfg.negativeTTL <= 0 then DEFAULT_NEGATIVE_TTL else cfg.negativeTTL);
          cache := cache[host := Negative(up.reply.err, until, until)];
          return Result(Wrapped(up.reply.err), true, false, now);
        }
        if stale.Some? {
          cache := cache[host := stale.value.(lastFailure := Some(now))];
          return Result(Addresses(stale.value.ips), true, true, now);
        }
        return Result(Wrapped(up.reply.err), true, false, now);
      }
      var freshUntil := now + (if cfg.ttl <= 0 then DEFAULT_STALE_RESPONSE_TTL else cfg.ttl);
      cache := cache[host := Positive(up.reply.ips, freshUntil, freshUntil + cfg.maxStaleTTL, None)];
      return Result(Addresses(up.reply.ips), true, false, now);
    }

    /** A whole call with nothing in between. */
    method LookupIPAddr(host: Host, now: Time, later: Time, up: Upstream) returns (res: Result)
      modifies this
      ensures var v := Lookup(cfg, old(cache), host, now, later, up);
              res == v.result && cache == Apply(old(cache), host, v)
    {
      var fast := ReadFast(host, now);
      if fast.Some? {
        return fast.value;
      }
      var body, stale := ReadInBody(host, later);
      if body.Some? {
        return body.value;
      }
      res := StoreAnswer(host, stale, later, up);
    }

    /** The pass looks at one key: true if its entry is past the stale limit. */
    method InspectKey(host: Host, now: Time) returns (dead: bool)
      ensures dead <==> host in cache && now > cache[host].staleUntil
    {
      dead := host in cache && now > cache[host].staleUntil;
    }

    /** The pass deletes a key it found dead, whatever the cache holds under it by then. */
    method DeleteKey(host: Host)
      modifies this
      ensures cache == old(cache) - {host}
    {
      cache := cache - {host};
    }

    /** A whole pass with nothing in between: visits every key once and deletes what is past its stale limit. */
    method PurgeExpired(now: Time)
      modifies this
      ensures cache == Purge(old(cache), now)
    {
      var rest := cache.Keys;
      while rest != {}
        invariant rest <= cache.Keys <= old(cache).Keys
        invariant forall h | h in cache :: cache[h] == old(cache)[h]
        invariant forall h | h in old(cache) :: h in rest || (h in cache <==> now <= old(cache)[h].staleUntil)
        decreases |rest|
      {
        var h :| h in rest;
        var dead := InspectKey(h, now);
        if dead {
          DeleteKey(h);
        }
        rest := rest - {h};
      }
    }
  }

  lemma {:induction false} SkipToDot(cache: Cache, host: Host, from: nat, until: nat, now: Time)
    requires 0 < from <= until && forall j | from - 1 <= j < until - 1 && j < |host| :: host[j] != '.'
    ensures NxAncestor(cache, host, from, now) == NxAncestor(cache, host, until, now)
    decreases until - from
  {
    if from < until {
      SkipToDot(cache, host, from + 1, until, now);
    }
  }

  // ---- Lookups and the eviction pass, interleaved ----

  type Gid = nat

  /** A lookup under way: past its first reads, or waiting for upstream with what its body has read. */
  datatype Flight = Missed(host: Host) | Asking(host: Host, stale: Option<Entry>, now: Time)

  /** `doomed`: the key the pass found dead and is about to delete. */
  datatype World = World(cache: Cache, flights: map<Gid, Flight>, doomed: Option<Host>)

  datatype Event =
    | Begin(g: Gid, host: Host, now: Time)
    | Enter(g: Gid, later: Time)
    | Reply(g: Gid, up: Upstream)
    | Inspect(host: Host, coarse: Time)
    | Delete

  /** What callers and the upstream resolver see of a step. */
  datatype Seen = Answered(g: Gid, result: Result) | Queried(g: Gid, host: Host) | Nothing

  predicate FlightOk(f: Flight) { f.Asking? && f.stale.Some? ==> f.stale.value.Positive? }

  /** The events that have their place: a lookup begins once, then enters its body, then hears from upstream. */
  predicate Applies(w: World, e: Event) {
    match e
    case Begin(g, _, _) => g !in w.flights
    case Enter(g, _) => g in w.flights && w.flights[g].Missed?
    case Reply(g, _) => g in w.flights && w.flights[g].Asking? && FlightOk(w.flights[g])
    case Inspect(h, coarse) => w.doomed.None? && h in w.cache && coarse > w.cache[h].staleUntil
    case Delete => w.doomed.Some?
  }

  /** One section; an event out of place does nothing. */
  function Step(cfg: Config, w: World, e: Event): (World, Seen) {
    if !Applies(w, e) then (w, Nothing)
    else
      match e
      case Begin(g, host, now) =>
        (match FastRead(cfg, w.cache, host, now)
         case Some(r) => (w, Answered(g, r))
         case None => (w.(flights := w.flights[g := Missed(host)]), Nothing))
      case Enter(g, later) =>
        var host := w.flights[g].host;
        (match BodyRead(cfg, w.cache, host, later)
         case Some(r) => (w.(flights := w.flights - {g}), Answered(g, r))
         case None =>
           (w.(flights := w.flights[g := Asking(host, StaleEntry(cfg, w.cache, host, later), later)]),
            Queried(g, host)))
      case Reply(g, up) =>
        var f := w.flights[g];
        var v := Settle(cfg, f.stale, f.now, up);
        (w.(cache := Apply(w.cache, f.host, v), flights := w.flights - {g}), Answered(g, v.result))
      case Inspect(h, _) => (w.(doomed := Some(h)), Nothing)
      case Delete => (w.(cache := w.cache - {w.doomed.value}, doomed := None), Nothing)
  }

  const START := World(map[], map[], None)

  function Shown(x: Seen): seq<Seen> { if x.Nothing? then [] else [x] }

  /** Everything seen of a run. */
  function Observe(cfg: Config, w: World, events: seq<Event>): seq<Seen>
    decreases |events|
  {
    if events == [] then []
    else
      var (w', x) := Step(cfg, w, events[0]);
      Shown(x) + Observe(cfg, w', events[1..])
  }

  predicate Evicts(e: Event) { e.Inspect? || e.Delete? }

  function WithoutEvictions(events: seq<Event>): seq<Event> {
    if events == [] then []
    else (if Evicts(events[0]) then [] else [events[0]]) + WithoutEvictions(events[1..])
  }

  /** The least time a lookup may read after `e`: the coarse clock of the pass is never ahead of the real one. */
  function Clock(t: Time, e: Event): Time { if e.Inspect? then Max(t, e.coarse) else t }

  /** No lookup reads a time before a coarse time already used to inspect. */
  predicate ClockOk(events: seq<Event>, t: Time) {
    events == [] ||
    (&& (events[0].Begin? ==> t <= events[0].now) && (events[0].Enter? ==> t <= events[0].later)
     && ClockOk(events[1..], Clock(t, events[0])))
  }

  // ---- When eviction can be observed ----

  function Live(cache: Cache, h: Host, t: Time): Option<Entry> {
    if h in cache && t <= cache[h].staleUntil then Some(cache[h]) else None
  }

  /** Every deletion of the run hits a key without a live entry. */
  predicate Undisturbed(cfg: Config, w: World, events: seq<Event>, t: Time)
    decreases |events|
  {
    events == [] ||
    (&& (events[0].Delete? && w.doomed.Some? ==> Live(w.cache, w.doomed.value, t).None?)
     && Undisturbed(cfg, Step(cfg, w, events[0]).0, events[1..], Clock(t, events[0])))
  }

  /** No key is stored between its inspection and its deletion. */
  predicate NoStoreBetween(cfg: Config, w: World, events: seq<Event>)
    decreases |events|
  {
    events == [] ||
    (&& (events[0].Reply? && Applies(w, events[0]) ==> w.doomed != Some(w.flights[events[0].g].host))
     && NoStoreBetween(cfg, Step(cfg, w, events[0]).0, events[1..]))
  }

  /** A key that was found dead and not stored since is still dead when it is deleted. */
  lemma {:induction false} NoStoreIsUndisturbed(cfg: Config, w: World, events: seq<Event>, t: Time)
    requires NoStoreBetween(cfg, w, events) && (w.doomed.Some? ==> Live(w.cache, w.doomed.value, t).None?)
    ensures Undisturbed(cfg, w, events, t)
    decreases |events|
  {
    if events != [] {
      NoStoreIsUndisturbed(cfg, Step(cfg, w, events[0]).0, events[1..], Clock(t, events[0]));
    }
  }

  /** No entry stays fresh beyond its stale limit, up to the one instant the two comparisons leave between them. */
  predicate SoundEntry(e: Entry) { e.freshUntil <= e.staleUntil + 1 }

  ghost predicate Sound(w: World) {
    && (forall h | h in w.cache :: SoundEntry(w.cache[h]))
    && (forall g | g in w.flights ::
          w.flights[g].Asking? && w.flights[g].stale.Some? ==> SoundEntry(w.flights[g].stale.value))
  }

  ghost predicate SameLive(c: Cache, d: Cache, t: Time) { forall h :: Live(c, h, t) == Live(d, h, t) }

  /** The two worlds differ only in dead entries. */
  ghost predicate Alike(w: World, v: World, t: Time) {
    Sound(w) && Sound(v) && w.flights == v.flights && SameLive(w.cache, v.cache, t)
  }

  lemma {:induction false} SameAncestor(w: World, v: World, t: Time, host: Host, i: nat, now: Time)
    requires Alike(w, v, t) && t <= now
    ensures NxAncestor(w.cache, host, i, now) == NxAncestor(v.cache, host, i, now)
    decreases |host| - i
  {
    if i < |host| {
      SameAncestor(w, v, t, host, i + 1, now);
      assert Live(w.cache, host[i..], t) == Live(v.cache, host[i..], t);
    }
  }

  lemma SameReads(cfg: Config, w: World, v: World, t: Time, host: Host, now: Time)
    requires Alike(w, v, t) && t <= now
    ensures FastRead(cfg, w.cache, host, now) == FastRead(cfg, v.cache, host, now)
    ensures BodyRead(cfg, w.cache, host, now) == BodyRead(cfg, v.cache, host, now)
    ensures StaleEntry(cfg, w.cache, host, now) == StaleEntry(cfg, v.cache, host, now)
  {
    assert Live(w.cache, host, t) == Live(v.cache, host, t);
    SameAncestor(w, v, t, host, 1, now);
  }

  lemma SettleIsSound(cfg: Config, stale: Option<Entry>, now: Time, up: Upstream)
    requires cfg.maxStaleTTL >= -1 && (stale.Some? ==> stale.value.Positive? && SoundEntry(stale.value))
    ensures var v := Settle(cfg, stale, now, up); v.write.Some? ==> SoundEntry(v.write.value)
  {
  }

  /** A step of a lookup is seen the same in both worlds and keeps them alike. */
  lemma LookupStepAlike(cfg: Config, w: World, v: World, t: Time, e: Event)
    requires cfg.maxStaleTTL >= -1 && Alike(w, v, t) && !Evicts(e) && ClockOk([e], t)
    ensures Step(cfg, w, e).1 == Step(cfg, v, e).1 && Alike(Step(cfg, w, e).0, Step(cfg, v, e).0, t)
  {
    match e
    case Begin(_, host, now) => SameReads(cfg, w, v, t, host, now);
    case Enter(g, later) => if Applies(w, e) { SameReads(cfg, w, v, t, w.flights[g].host, later); }
    case Reply(g, up) => if Applies(w, e) { ReplyAlike(cfg, w, v, t, g, up); }
  }

  lemma ReplyAlike(cfg: Config, w: World, v: World, t: Time, g: Gid, up: Upstream)
    requires cfg.maxStaleTTL >= -1 && Alike(w, v, t) && Applies(w, Reply(g, up))
    ensures Alike(Step(cfg, w, Reply(g, up)).0, Step(cfg, v, Reply(g, up)).0, t)
  {
    var f := w.flights[g];
    SettleIsSound(cfg, f.stale, f.now, up);
    var c, d := Step(cfg, w, Reply(g, up)).0.cache, Step(cfg, v, Reply(g, up)).0.cache;
    forall h ensures Live(c, h, t) == Live(d, h, t) { assert Live(w.cache, h, t) == Live(v.cache, h, t); }
  }

  /** A step of the pass is not seen, and keeps the worlds alike if it deletes no live entry. */
  lemma EvictionStepAlike(cfg: Config, w: World, v: World, t: Time, e: Event)
    requires Alike(w, v, t) && Evicts(e)
    requires e.Delete? && w.doomed.Some? ==> Live(w.cache, w.doomed.value, t).None?
    ensures Step(cfg, w, e).1.Nothing? && Alike(Step(cfg, w, e).0, v, Clock(t, e))
  {
    var c, t' := Step(cfg, w, e).0.cache, Clock(t, e);
    forall h ensures Live(c, h, t') == Live(v.cache, h, t') { assert Live(w.cache, h, t) == Live(v.cache, h, t); }
  }

  /** Worlds that differ only in dead entries look the same for every future, with and without its eviction steps. */
  lemma {:induction false} EvictionInvisibleFrom(cfg: Config, w: World, v: World, t: Time, events: seq<Event>)
    requires cfg.maxStaleTTL >= -1 && Alike(w, v, t) && ClockOk(events, t) && Undisturbed(cfg, w, events, t)
    ensures Observe(cfg, w, events) == Observe(cfg, v, WithoutEvictions(events))
    decreases events
  {
    if events != [] {
      var e, rest := events[0], events[1..];
      if Evicts(e) {
        EvictionStepAlike(cfg, w, v, t, e);
        EvictionInvisibleFrom(cfg, Step(cfg, w, e).0, v, Clock(t, e), rest);
        assert [] + WithoutEvictions(rest) == WithoutEvictions(rest);
      } else {
        assert [e][1..] == [];
        LookupStepAlike(cfg, w, v, t, e);
        EvictionInvisibleFrom(cfg, Step(cfg, w, e).0, Step(cfg, v, e).0, t, rest);
        assert ([e] + WithoutEvictions(rest))[1..] == WithoutEvictions(rest);
      }
    }
  }

  /** Dropping the pass from a run changes nothing that can be seen. */
  predicate Unseen(cfg: Config, events: seq<Event>) {
    Observe(cfg, START, events) == Observe(cfg, START, WithoutEvictions(events))
  }

  /** So it is for every run whose deletions hit no live entry. */
  ghost predicate EvictionIsInvisible(cfg: Config) {
    forall events, t | ClockOk(events, t) && Undisturbed(cfg, START, events, t) :: Unseen(cfg, events)
  }

  lemma Unfold(cfg: Config, w: World, e: Event, rest: seq<Event>, t: Time)
    ensures WithoutEvictions([e] + rest) == (if Evicts(e) then [] else [e]) + WithoutEvictions(rest)
    ensures Observe(cfg, w, [e] + rest) == Shown(Step(cfg, w, e).1) + Observe(cfg, Step(cfg, w, e).0, rest)
    ensures ClockOk([e] + rest, t) <==>
            (e.Begin? ==> t <= e.now) && (e.Enter? ==> t <= e.later) && ClockOk(rest, Clock(t, e))
    ensures Undisturbed(cfg, w, [e] + rest, t) <==>
            (e.Delete? && w.doomed.Some? ==> Live(w.cache, w.doomed.value, t).None?)
            && Undisturbed(cfg, Step(cfg, w, e).0, rest, Clock(t, e))
  {
    assert ([e] + rest)[0] == e && ([e] + rest)[1..] == rest;
  }

  /** One whole lookup, then `rest`. */
  function Ask(g: Gid, host: Host, now: Time, up: Upstream, rest: seq<Event>): seq<Event> {
    [Begin(g, host, now)] + ([Enter(g, now)] + ([Reply(g, up)] + rest))
  }

  function PlainTtl(cfg: Config): int { if cfg.ttl <= 0 then DEFAULT_STALE_RESPONSE_TTL else cfg.ttl }

  /** What a plain address lookup at `now` stores. */
  function Obtains(cfg: Config, now: Time): Entry {
    Positive(IPS, now + PlainTtl(cfg), now + PlainTtl(cfg) + cfg.maxStaleTTL, None)
  }

  const IPS: Ips := ["192.0.2.1"]

  const PLAIN := Upstream(Empty, Resolved(IPS), 0)

  /** A lookup that finds nothing usable asks upstream and stores. */
  lemma AskStores(cfg: Config, w: World, g: Gid, host: Host, now: Time, rest: seq<Event>, t: Time)
    requires g !in w.flights && t <= now
    requires FastRead(cfg, w.cache, host, now).None? && BodyRead(cfg, w.cache, host, now).None?
    ensures var w' := w.(cache := w.cache[host := Obtains(cfg, now)]);
            var events := Ask(g, host, now, PLAIN, rest);
            && Observe(cfg, w, events)
               == [Queried(g, host), Answered(g, Result(Addresses(IPS), true, false, now))] + Observe(cfg, w', rest)
            && WithoutEvictions(events) == Ask(g, host, now, PLAIN, WithoutEvictions(rest))
            && (ClockOk(events, t) <==> ClockOk(rest, t))
            && (Undisturbed(cfg, w, events, t) <==> Undisturbed(cfg, w', rest, t))
  {
    var e0, e1, e2 := Begin(g, host, now), Enter(g, now), Reply(g, PLAIN);
    AskSteps(cfg, w, g, host, now);
    var w1, w2 := Step(cfg, w, e0).0, Step(cfg, Step(cfg, w, e0).0, e1).0;
    Unfold(cfg, w, e0, [e1] + ([e2] + rest), t);
    Unfold(cfg, w1, e1, [e2] + rest, t);
    Unfold(cfg, w2, e2, rest, t);
  }

  lemma AskSteps(cfg: Config, w: World, g: Gid, host: Host, now: Time)
    requires g !in w.flights && FastRead(cfg, w.cache, host, now).None? && BodyRead(cfg, w.cache, host, now).None?
    ensures var w1 := w.(flights := w.flights[g := Missed(host)]);
            var w2 := w.(flights := w.flights[g := Asking(host, StaleEntry(cfg, w.cache, host, now), now)]);
            && Step(cfg, w, Begin(g, host, now)) == (w1, Nothing)
            && Step(cfg, w1, Enter(g, now)) == (w2, Queried(g, host))
            && Step(cfg, w2, Reply(g, PLAIN))
               == (w.(cache := w.cache[host := Obtains(cfg, now)]),
                   Answered(g, Result(Addresses(IPS), true, false, now)))
  {
    var w1 := w.(flights := w.flights[g := Missed(host)]);
    var w2 := w.(flights := w.flights[g := Asking(host, StaleEntry(cfg, w.cache, host, now), now)]);
    assert w1.flights[g := w2.flights[g]] == w2.flights && w2.flights - {g} == w.flights;
  }

  /** Without ancestors, what a lookup of "a" reads depends on its own entry alone. */
  lemma ReadsOfA(cfg: Config, cache: Cache, now: Time)
    ensures !Fresh(cache, "a", now) && !Stale(cfg, cache, "a", now) ==>
              FastRead(cfg, cache, "a", now).None? && BodyRead(cfg, cache, "a", now).None?
    ensures Fresh(cache, "a", now) ==> FastRead(cfg, cache, "a", now).Some?
    ensures "a" !in cache ==> FastRead(cfg, cache, "a", now).None?
  {
    assert NxAncestor(cache, "a", 1, now).None?;
  }

  /** The last event of the runs below. */
  function Look(now: Time): seq<Event> { [Begin(9, "a", now)] }

  /** It shows whether "a" has a fresh entry. */
  lemma LookShows(cfg: Config, w: World, now: Time)
    requires w.flights == map[] && ("a" in w.cache ==> Fresh(w.cache, "a", now))
    ensures |Observe(cfg, w, Look(now))| == if "a" in w.cache then 1 else 0
    ensures WithoutEvictions(Look(now)) == Look(now) && ClockOk(Look(now), now) && Undisturbed(cfg, w, Look(now), now)
  {
    Unfold(cfg, w, Begin(9, "a", now), [], now);
    assert Look(now) + [] == Look(now);
    ReadsOfA(cfg, w.cache, now);
  }

  /** The only entry is deleted while it is fresh, and then looked up. */
  lemma FreshDeletionShows(cfg: Config, w: World, e: Entry, now: Time)
    requires w == World(map["a" := e], map[], Some("a")) && now < e.freshUntil
    ensures WithoutEvictions([Delete] + Look(now)) == Look(now) && ClockOk([Delete] + Look(now), now)
    ensures Undisturbed(cfg, w, [Delete] + Look(now), now) <==> e.staleUntil < now
    ensures |Observe(cfg, w, [Delete] + Look(now))| == 0 < |Observe(cfg, w.(doomed := None), Look(now))|
  {
    assert w.cache - {"a"} == map[];
    Unfold(cfg, w, Delete, Look(now), now);
    LookShows(cfg, START, now);
    LookShows(cfg, w.(doomed := None), now);
    assert [] + Look(now) == Look(now);
  }

  lemma InspectMarks(cfg: Config, w: World, now: Time, rest: seq<Event>, t: Time)
    requires w.doomed.None? && "a" in w.cache && now > w.cache["a"].staleUntil && t <= now
    ensures var events := [Inspect("a", now)] + rest;
            && WithoutEvictions(events) == WithoutEvictions(rest)
            && Observe(cfg, w, events) == Observe(cfg, w.(doomed := Some("a")), rest)
            && (ClockOk(events, t) <==> ClockOk(rest, now))
            && (Undisturbed(cfg, w, events, t) <==> Undisturbed(cfg, w.(doomed := Some("a")), rest, now))
  {
    Unfold(cfg, w, Inspect("a", now), rest, t);
    assert [] + WithoutEvictions(rest) == WithoutEvictions(rest);
  }

  /** The world after one lookup of "a" at `now`. */
  function Holding(cfg: Config, now: Time): World { World(map["a" := Obtains(cfg, now)], map[], None) }

  /** A run that begins with a lookup of "a" at time 0 and shows a difference afterwards shows it as a whole. */
  lemma DifferenceAfterFirstLookup(cfg: Config, rest: seq<Event>)
    requires |Observe(cfg, Holding(cfg, 0), rest)| < |Observe(cfg, Holding(cfg, 0), WithoutEvictions(rest))|
    ensures var events := Ask(0, "a", 0, PLAIN, rest);
            && !Unseen(cfg, events) && (ClockOk(events, 0) <==> ClockOk(rest, 0))
            && (Undisturbed(cfg, START, events, 0) <==> Undisturbed(cfg, Holding(cfg, 0), rest, 0))
  {
    ReadsOfA(cfg, START.cache, 0);
    AskStores(cfg, START, 0, "a", 0, rest, 0);
    AskStores(cfg, START, 0, "a", 0, WithoutEvictions(rest), 0);
    assert START.cache["a" := Obtains(cfg, 0)] == Holding(cfg, 0).cache;
  }

  /** A negative retention (WithMaxStaleTTL takes any) lets the pass delete an entry that is still fresh. */
  lemma NegativeRetentionIsVisible(cfg: Config) returns (events: seq<Event>)
    requires cfg.maxStaleTTL < -1
    ensures ClockOk(events, 0) && Undisturbed(cfg, START, events, 0) && !Unseen(cfg, events)
  {
    var now := PlainTtl(cfg) - 1;
    var rest := [Inspect("a", now)] + ([Delete] + Look(now));
    InspectMarks(cfg, Holding(cfg, 0), now, [Delete] + Look(now), 0);
    FreshDeletionShows(cfg, Holding(cfg, 0).(doomed := Some("a")), Obtains(cfg, 0), now);
    DifferenceAfterFirstLookup(cfg, rest);
    events := Ask(0, "a", 0, PLAIN, rest);
  }

  /** Another lookup stores "a" while it is marked; then the key is deleted and looked up. */
  lemma StoredThenDeleted(cfg: Config, now: Time)
    requires cfg.maxStaleTTL >= -1 && now == PlainTtl(cfg) + cfg.maxStaleTTL + 1
    ensures var marked, last := Holding(cfg, 0).(doomed := Some("a")), [Delete] + Look(now);
            var events := Ask(1, "a", now, PLAIN, last);
            && WithoutEvictions(events) == Ask(1, "a", now, PLAIN, Look(now))
            && |Observe(cfg, marked, events)| < |Observe(cfg, Holding(cfg, 0), Ask(1, "a", now, PLAIN, Look(now)))|
            && ClockOk(events, now) && !Undisturbed(cfg, marked, events, now)
  {
    var w := Holding(cfg, 0);
    ReadsOfA(cfg, w.cache, now);
    AskStores(cfg, w.(doomed := Some("a")), 1, "a", now, [Delete] + Look(now), now);
    AskStores(cfg, w, 1, "a", now, Look(now), now);
    assert w.cache["a" := Obtains(cfg, now)] == Holding(cfg, now).cache;
    FreshDeletionShows(cfg, Holding(cfg, now).(doomed := Some("a")), Obtains(cfg, now), now);
  }

  /** A store between inspection and deletion is lost: the next lookup asks upstream again. */
  lemma DisturbedDeletionIsVisible(cfg: Config) returns (events: seq<Event>)
    requires cfg.maxStaleTTL >= -1
    ensures ClockOk(events, 0) && !Undisturbed(cfg, START, events, 0) && !Unseen(cfg, events)
  {
    var now := PlainTtl(cfg) + cfg.maxStaleTTL + 1;
    var between := Ask(1, "a", now, PLAIN, [Delete] + Look(now));
    StoredThenDeleted(cfg, now);
    InspectMarks(cfg, Holding(cfg, 0), now, between, 0);
    DifferenceAfterFirstLookup(cfg, [Inspect("a", now)] + between);
    events := Ask(0, "a", 0, PLAIN, [Inspect("a", now)] + between);
  }

  /** Eviction is invisible on every undisturbed run exactly when the retention is at least -1ns. */
  lemma EvictionInvisibleExactlyWhen(cfg: Config)
    ensures EvictionIsInvisible(cfg) <==> cfg.maxStaleTTL >= -1
  {
    if cfg.maxStaleTTL < -1 {
      var events := NegativeRetentionIsVisible(cfg);
    } else {
      forall events, t | ClockOk(events, t) && Undisturbed(cfg, START, events, t) ensures Unseen(cfg, events) {
        EvictionInvisibleFrom(cfg, START, START, t, events);
      }
    }
  }

  /** Over all runs it is not, whatever the configuration. */
  lemma EvictionShowsOnSomeRun(cfg: Config) returns (events: seq<Event>)
    ensures ClockOk(events, 0) && !Unseen(cfg, events)
  {
    if cfg.maxStaleTTL < -1 {
      events := NegativeRetentionIsVisible(cfg);
    } else {
      events := DisturbedDeletionIsVisible(cfg);
    }
  }

  lemma {:induction false} AncestorsIgnoreTheHost(cache: Cache, host: Host, i: nat, now: Time)
    requires i > 0
    ensures NxAncestor(cache - {host}, host, i, now) == NxAncestor(cache, host, i, now)
    decreases |host| - i
  {
    if i < |host| {
      AncestorsIgnoreTheHost(cache, host, i + 1, now);
      assert |host[i..]| != |host|;
    }
  }

  /** The entry makes a difference to a lookup of its host at `now`. */
  predicate Matters(cfg: Config, cache: Cache, host: Host, now: Time)
    requires host in cache
  {
    var cut := Cut(cfg, cache, host, now);
    match cache[host]
    case Positive(_, freshUntil, _, _) =>
      now < freshUntil || InRecheckWindow(cfg, cache, host, now) || (Stale(cfg, cache, host, now) && cut.None?)
    case Negative(err, freshUntil, _) => now < freshUntil && cut != Some(err)
  }

  /** The next lookup of a host can tell that its entry was deleted if and only if the entry matters at that time. */
  lemma DeletionShowsExactlyWhen(cfg: Config, cache: Cache, host: Host, now: Time)
    requires host in cache
    ensures (exists up ::
               Lookup(cfg, cache, host, now, now, up).result != Lookup(cfg, cache - {host}, host, now, now, up).result)
            <==> Matters(cfg, cache, host, now)
  {
    AncestorsIgnoreTheHost(cache, host, 1, now);
    var up := Upstream(RecordsErr, Failed(Other("")), 0);
    assert Lookup(cfg, cache, host, now, now, up).result != Lookup(cfg, cache - {host}, host, now, now, up).result
           <==> Matters(cfg, cache, host, now);
    forall up | !Matters(cfg, cache, host, now)
      ensures Lookup(cfg, cache, host, now, now, up).result == Lookup(cfg, cache - {host}, host, now, now, up).result
    {
    }
  }

  // ---- Where cached answers come from ----

  /** An address list upstream gave, for whom and with which limits. */
  datatype Obtained = Obtained(host: Host, ips: Ips, freshUntil: Time, staleUntil: Time)

  datatype History = History(world: World, log: seq<Obtained>)

  function LogOf(host: Host, v: Verdict): seq<Obtained> {
    if v.write.Some? && v.write.value.Positive? && !v.result.fromCache
    then [Obtained(host, v.write.value.ips, v.write.value.freshUntil, v.write.value.staleUntil)] else []
  }

  /** The world and the log of upstream address lists after any interleaving. */
  function After(cfg: Config, events: seq<Event>): History {
    if events == [] then History(START, [])
    else
      var s, e := After(cfg, events[..|events| - 1]), events[|events| - 1];
      var w := s.world;
      History(Step(cfg, w, e).0,
              if e.Reply? && Applies(w, e) then
                s.log + LogOf(w.flights[e.g].host, Settle(cfg, w.flights[e.g].stale, w.flights[e.g].now, e.up))
              else s.log)
  }

  /** The entry is one that upstream gave for this host. */
  predicate Logged(log: seq<Obtained>, host: Host, e: Entry) {
    e.Positive? ==> Obtained(host, e.ips, e.freshUntil, e.staleUntil) in log
  }

  ghost predicate AllLogged(cfg: Config, s: History) {
    && (forall h | h in s.world.cache :: Logged(s.log, h, s.world.cache[h]))
    && (forall g | g in s.world.flights :: FlightLogged(cfg, s.log, s.world.flights[g]))
  }

  /** What a waiting lookup may serve stale is such an entry, not past its limit when it was read. */
  predicate FlightLogged(cfg: Config, log: seq<Obtained>, f: Flight) {
    f.Asking? && f.stale.Some? ==>
      && f.stale.value.Positive? && cfg.serveStale && f.now < f.stale.value.staleUntil
      && Logged(log, f.host, f.stale.value)
  }

  lemma {:induction false} EntriesAreLogged(cfg: Config, events: seq<Event>)
    ensures AllLogged(cfg, After(cfg, events))
  {
    if events != [] {
      EntriesAreLogged(cfg, events[..|events| - 1]);
      var s, s' := After(cfg, events[..|events| - 1]), After(cfg, events);
      forall h | h in s'.world.cache ensures Logged(s'.log, h, s'.world.cache[h]) {
        assert h in s.world.cache ==> Logged(s.log, h, s.world.cache[h]);
      }
      forall g | g in s'.world.flights ensures FlightLogged(cfg, s'.log, s'.world.flights[g]) {
        assert g in s.world.flights ==> FlightLogged(cfg, s.log, s.world.flights[g]);
      }
    }
  }

  /** The host a step of a lookup is about, and the time at which it judges entries. */
  function HostOf(w: World, e: Event): Host
    requires Applies(w, e) && !Evicts(e)
  {
    if e.Begin? then e.host else w.flights[e.g].host
  }

  function TimeOf(w: World, e: Event): Time
    requires Applies(w, e) && !Evicts(e)
  {
    if e.Begin? then e.now else if e.Enter? then e.later else w.flights[e.g].now
  }

  /**
   After any interleaving, an address list answered from cache is one upstream gave for that same host, still before
   its fresh limit or, with serve-stale on, before its stale limit. Any other address list is upstream's answer to this
   lookup.
   */
  lemma CachedAnswersAreGenuine(cfg: Config, past: seq<Event>, e: Event)
    requires Applies(After(cfg, past).world, e) && !Evicts(e) && Step(cfg, After(cfg, past).world, e).1.Answered?
    ensures var s := After(cfg, past);
            var r, now := Step(cfg, s.world, e).1.result, TimeOf(s.world, e);
            && (r.fromCache ==>
                  exists o :: o in s.log && o.host == HostOf(s.world, e) && r.answer == Addresses(o.ips)
                              && (now < o.freshUntil || (cfg.serveStale && now < o.staleUntil)))
            && (r.answer.Addresses? && !r.fromCache ==>
                  && e.Reply?
                  && (|| e.up.reply == Resolved(r.answer.ips)
                      || (e.up.records.Found? && e.up.records.ips == r.answer.ips)))
  {
    EntriesAreLogged(cfg, past);
    var s := After(cfg, past);
    var host := HostOf(s.world, e);
    if Step(cfg, s.world, e).1.result.fromCache {
      var entry := if e.Reply? then s.world.flights[e.g].stale.value else s.world.cache[host];
      assert e.Reply? ==> FlightLogged(cfg, s.log, s.world.flights[e.g]);
      assert Logged(s.log, host, entry);
      var o := Obtained(host, entry.ips, entry.freshUntil, entry.staleUntil);
      assert o in s.log && o.host == host;
    }
  }

  /**
   A host with no fresh entry and outside its recheck window is refused without asking upstream exactly when
   negative caching is on and some proper dot-suffix of it holds a fresh NXDOMAIN.
   */
  lemma CutExactlyBelowNxDomain(cfg: Config, cache: Cache, host: Host, now: Time, later: Time, up: Upstream)
    requires now <= later && !Fresh(cache, host, now) && !InRecheckWindow(cfg, cache, host, now)
    ensures var r := Lookup(cfg, cache, host, now, later, up).result;
            && (!r.queried <==> cfg.negativeCaching
                                && exists j :: IsAncestorAt(host, j) && FreshNx(cache, host[j..], now))
            && (!r.queried ==> r.answer.NotFound?)
  {
    if NxAncestor(cache, host, 1, later).Some? {
      var j :| 1 <= j && IsAncestorAt(host, j) && FreshNx(cache, host[j..], later);
      assert FreshNx(cache, host[j..], now);
    }
  }

  // ---- Two lookups, one after the other ----

  /** The cache after a whole lookup. */
  function Then(cfg: Config, cache: Cache, host: Host, begun: Time, now: Time, up: Upstream): Cache {
    Apply(cache, host, Lookup(cfg, cache, host, begun, now, up))
  }

  /** A lookup that asked upstream found no ancestor to cut it, and finds none later without a store in between. */
  lemma {:induction false} StillNoCut(cache: Cache, e: Entry, host: Host, i: nat, now: Time, t: Time)
    requires i > 0 && now <= t && NxAncestor(cache, host, i, now).None?
    ensures NxAncestor(cache[host := e], host, i, t).None?
    decreases |host| - i
  {
    if i < |host| {
      StillNoCut(cache, e, host, i + 1, now, t);
      assert |host[i..]| != |host|;
      assert IsAncestorAt(host, i) ==> !FreshNx(cache, host[i..], now);
    }
  }

  /** How long a not-found answer heard at `now` is kept. */
  function NegativeLimit(cfg: Config, now: Time): Time {
    now + if cfg.negativeTTL > 0 then cfg.negativeTTL else 300_000_000_000
  }

  /** The lookup's body ran at `now`, asked upstream, and heard that the name or its data do not exist. */
  ghost predicate HeardNotFound(
      cfg: Config, cache: Cache, host: Host, begun: Time, now: Time, up: Upstream, err: Error) {
    var r := Lookup(cfg, cache, host, begun, now, up).result;
    r.queried && r.answer == Wrapped(err) && (err.NxDomain? || err.NoData? || err.HostNotFound?)
  }

  /**
   Section 5 of RFC 2308: with negative caching on, a not-found answer heard at `now` is given again, without asking
   upstream, exactly before `now` plus the negative TTL (300 seconds when none is configured).
   */
  lemma NotFoundIsRepeatedExactlyUntil(
      cfg: Config, cache: Cache, host: Host, begun: Time, now: Time, up: Upstream, err: Error,
      t: Time, later: Time, up': Upstream)
    requires cfg.negativeCaching && HeardNotFound(cfg, cache, host, begun, now, up, err) && now <= t <= later
    ensures var r := Lookup(cfg, Then(cfg, cache, host, begun, now, up), host, t, later, up').result;
            && (!r.queried <==> t < NegativeLimit(cfg, now))
            && (!r.queried ==> r.answer == NotFound(err))
  {
    var e := Negative(err, NegativeLimit(cfg, now), NegativeLimit(cfg, now));
    assert Then(cfg, cache, host, begun, now, up) == cache[host := e];
    StillNoCut(cache, e, host, 1, now, t);
    StillNoCut(cache, e, host, 1, now, later);
  }

  /**
   Section 2 of RFC 8020: until the same moment, if the name itself does not exist, every host below it that has no
   fresh entry and is outside its recheck window is refused without asking upstream. Otherwise such a host is refused
   exactly when another of its ancestors says so.
   */
  lemma NxDomainCutsBelowExactlyUntil(
      cfg: Config, cache: Cache, host: Host, begun: Time, now: Time, up: Upstream, err: Error,
      pre: string, t: Time, later: Time, up': Upstream)
    requires cfg.negativeCaching && HeardNotFound(cfg, cache, host, begun, now, up, err) && now <= t <= later
    requires host != "" && !Fresh(cache, pre + "." + host, t) && !InRecheckWindow(cfg, cache, pre + "." + host, t)
    ensures var below := pre + "." + host;
            var r := Lookup(cfg, Then(cfg, cache, host, begun, now, up), below, t, later, up').result;
            && (!r.queried <==>
                  || (!err.NoData? && t < NegativeLimit(cfg, now))
                  || exists k :: IsAncestorAt(below, k) && below[k..] != host && FreshNx(cache, below[k..], t))
            && (!r.queried ==> r.answer.NotFound?)
  {
    var below, cache' := pre + "." + host, Then(cfg, cache, host, begun, now, up);
    var e := Negative(err, NegativeLimit(cfg, now), NegativeLimit(cfg, now));
    assert cache' == cache[host := e];
    var j := |pre| + 1;
    assert IsAncestorAt(below, j) && below[j..] == host;
    assert |below| > |host|;
    CutExactlyBelowNxDomain(cfg, cache', below, t, later, up');
    if k :| IsAncestorAt(below, k) && FreshNx(cache', below[k..], t) {
      assert below[k..] != host ==> FreshNx(cache, below[k..], t);
    }
    if k :| IsAncestorAt(below, k) && below[k..] != host && FreshNx(cache, below[k..], t) {
      assert FreshNx(cache', below[k..], t);
    }
    if !err.NoData? && t < NegativeLimit(cfg, now) {
      assert FreshNx(cache', below[j..], t);
    }
  }

  /** How long an address list stays fresh: for records at least 5 seconds, otherwise 30 when no TTL is configured. */
  function FreshLimit(cfg: Config, now: Time, up: Upstream): Time {
    if cfg.extended && up.records.Found? then
      up.storedAt + if up.records.ttl > 5_000_000_000 then up.records.ttl else 5_000_000_000
    else now + if cfg.ttl > 0 then cfg.ttl else 30_000_000_000
  }

  /** The lookup's body ran at `now`, asked upstream, and was given these addresses. */
  ghost predicate HeardAddresses(
      cfg: Config, cache: Cache, host: Host, begun: Time, now: Time, up: Upstream, ips: Ips) {
    var r := Lookup(cfg, cache, host, begun, now, up).result;
    r.queried && r.answer == Addresses(ips) && !r.fromCache
  }

  lemma HeardIsStored(cfg: Config, cache: Cache, host: Host, begun: Time, now: Time, up: Upstream, ips: Ips)
    requires HeardAddresses(cfg, cache, host, begun, now, up, ips)
    ensures var limit := FreshLimit(cfg, now, up);
            Then(cfg, cache, host, begun, now, up)
            == cache[host := Positive(ips, limit, limit + cfg.maxStaleTTL, None)]
    ensures Cut(cfg, cache, host, now).None?
    ensures if cfg.extended && up.records.Found? then ips == up.records.ips else up.reply == Resolved(ips)
  {
  }

  /** Addresses heard at `now` are given again, without asking upstream, exactly before their fresh limit. */
  lemma AddressesAreRepeatedExactlyUntil(
      cfg: Config, cache: Cache, host: Host, begun: Time, now: Time, up: Upstream, ips: Ips,
      t: Time, later: Time, up': Upstream)
    requires HeardAddresses(cfg, cache, host, begun, now, up, ips) && now <= t <= later
    ensures var r := Lookup(cfg, Then(cfg, cache, host, begun, now, up), host, t, later, up').result;
            && (!r.queried <==> t < FreshLimit(cfg, now, up))
            && (!r.queried ==> r == Result(Addresses(ips), false, true, t))
  {
    var limit := FreshLimit(cfg, now, up);
    var e := Positive(ips, limit, limit + cfg.maxStaleTTL, None);
    HeardIsStored(cfg, cache, host, begun, now, up, ips);
    if cfg.negativeCaching {
      StillNoCut(cache, e, host, 1, now, t);
      StillNoCut(cache, e, host, 1, now, later);
    }
  }

  /** Upstream could not be reached: neither records nor addresses, and no word that the name does not exist. */
  predicate Unreachable(cfg: Config, up: Upstream) {
    up.reply.Failed? && up.reply.err.Other? && !(cfg.extended && up.records.Found?)
  }

  /**
   Sections 4 and 5 of RFC 8767: past the fresh limit, when upstream cannot be reached, the old addresses are served if
   and only if that is switched on and the stale limit has not passed; then they are served for 30 seconds more without
   asking again, and no longer than the stale limit.
   */
  lemma StaleIsServedExactlyUntil(
      cfg: Config, cache: Cache, host: Host, begun: Time, now: Time, up: Upstream, ips: Ips,
      t: Time, later: Time, up': Upstream, t': Time, later': Time, up'': Upstream)
    requires HeardAddresses(cfg, cache, host, begun, now, up, ips) && now <= t <= later <= t' <= later'
    requires FreshLimit(cfg, now, up) <= t && Unreachable(cfg, up')
    ensures var cache' := Then(cfg, cache, host, begun, now, up);
            var r := Lookup(cfg, cache', host, t, later, up').result;
            var r' := Lookup(cfg, Then(cfg, cache', host, t, later, up'), host, t', later', up'').result;
            var stale := FreshLimit(cfg, now, up) + cfg.maxStaleTTL;
            && r.queried && (r.answer == Addresses(ips) <==> cfg.serveStale && later < stale)
            && (r.answer != Addresses(ips) ==> r.answer == Wrapped(up'.reply.err))
            && (r.answer == Addresses(ips) ==>
                  && (!r'.queried <==> t' - later < 30_000_000_000 && t' < stale)
                  && (!r'.queried ==> r'.answer == Addresses(ips)))
  {
    var limit := FreshLimit(cfg, now, up);
    var e := Positive(ips, limit, limit + cfg.maxStaleTTL, None);
    HeardIsStored(cfg, cache, host, begun, now, up, ips);
    if cfg.negativeCaching {
      StillNoCut(cache, e, host, 1, now, t);
      StillNoCut(cache, e, host, 1, now, later);
      var served := e.(lastFailure := Some(later));
      StillNoCut(cache, served, host, 1, now, t');
      StillNoCut(cache, served, host, 1, now, later');
    }
    assert cache[host := e][host := e.(lastFailure := Some(later))] == cache[host := e.(lastFailure := Some(later))];
  }

  /**
   What a lookup that asks upstream answers when there is nothing to serve stale, or no reason to: the records found,
   the addresses resolved, or, with negative caching on, that there is nothing.
   */
  lemma AnswerFollowsUpstream(cfg: Config, cache: Cache, host: Host, now: Time, later: Time, up: Upstream)
    requires Lookup(cfg, cache, host, now, later, up).result.queried
    ensures var answer := Lookup(cfg, cache, host, now, later, up).result.answer;
            && (cfg.extended && up.records.Found? ==> answer == Addresses(up.records.ips))
            && (!cfg.extended || up.records.Empty? ==>
                  && (up.reply.Resolved? ==> answer == Addresses(up.reply.ips))
                  && (up.reply.Failed? && !up.reply.err.Other? && cfg.negativeCaching ==>
                        answer == Wrapped(up.reply.err)))
  {
  }

  /** When the record lookup fails, old addresses are served before the plain resolver is asked at all. */
  lemma RecordsErrorServesStale(
      cfg: Config, cache: Cache, host: Host, begun: Time, now: Time, up: Upstream, ips: Ips,
      t: Time, later: Time, up': Upstream)
    requires HeardAddresses(cfg, cache, host, begun, now, up, ips) && now <= t <= later
    requires FreshLimit(cfg, now, up) <= t && cfg.extended && up'.records.RecordsErr?
    requires cfg.serveStale && later < FreshLimit(cfg, now, up) + cfg.maxStaleTTL
    ensures Lookup(cfg, Then(cfg, cache, host, begun, now, up), host, t, later, up').result
            == Result(Addresses(ips), true, true, later)
  {
    var limit := FreshLimit(cfg, now, up);
    var e := Positive(ips, limit, limit + cfg.maxStaleTTL, None);
    HeardIsStored(cfg, cache, host, begun, now, up, ips);
    if cfg.negativeCaching {
      StillNoCut(cache, e, host, 1, now, t);
      StillNoCut(cache, e, host, 1, now, later);
    }
  }
}

/**
 The HTTP/3 engine's connection pool: single-flight dial promises racing with
 `Close` and `CloseIdleConnections`.

 `Pool` is what `e.mu` guards together with the promise and connection objects
 goroutines share. Every critical section is a function on `Pool`; the class
 `Engine` carries the same critical sections as code that updates its fields.
 `State` adds one program counter per goroutine, and `Next` interleaves the
 critical sections of any number of `getConn` callers with the rest.
 */
module H3Engine {
  import opened Prelude

  type Addr = string
  type ConnId = nat
  type PromiseId = nat
  type Gid = nat

  /** A connection: where it was dialled, by whom, and whether it is still open. */
  datatype Conn = Conn(addr: Addr, dialer: Gid, open: bool)

  /** A `dialPromise`; `closes` counts `close(p.done)`, `dialer` is the goroutine that made it. */
  datatype Promise = Promise(addr: Addr, dialer: Gid, closes: nat, conn: Option<ConnId>, cancelled: bool)

  datatype Pool = Pool(
    closed: bool,
    fixed: Option<ConnId>,
    conns: map<Addr, ConnId>,
    dials: map<Addr, PromiseId>,
    promises: seq<Promise>,
    heap: seq<Conn>)

  datatype Outcome = Got(conn: ConnId) | EngineClosed | FixedClosed | ContextErr | DialErr

  /** Where a `getConn` call stands. */
  datatype Proc =
    | Entered(addr: Addr)                                  // before the read lock
    | Checking(addr: Addr, conn: ConnId)                   // holds the fixed connection, before IsClosed
    | AtLoop(addr: Addr)                                   // before the write lock
    | Waiting(addr: Addr, p: PromiseId)                    // in the select on p.done
    | Dialing(addr: Addr, p: PromiseId)                    // network I/O, no lock
    | Dialed(addr: Addr, p: PromiseId, got: Option<ConnId>) // dial returned, before the lock
    | Discarding(addr: Addr, p: PromiseId, conn: ConnId)   // engine closed meanwhile, before cc.Close
    | Discarded(addr: Addr, p: PromiseId)                  // after cc.Close, before close(p.done)
    | Returned(addr: Addr, outcome: Outcome)

  // ---- The critical sections on values ----

  predicate IsOpen(heap: seq<Conn>, c: ConnId) { c < |heap| && heap[c].open }

  predicate Pooled(pool: Pool, addr: Addr) {
    addr in pool.conns && IsOpen(pool.heap, pool.conns[addr])
  }

  function ShutOne(heap: seq<Conn>, c: ConnId): seq<Conn> {
    if c < |heap| then heap[c := heap[c].(open := false)] else heap
  }

  function ShutAll(heap: seq<Conn>, cs: set<ConnId>): seq<Conn> {
    seq(|heap|, i requires 0 <= i < |heap| => if i in cs then heap[i].(open := false) else heap[i])
  }

  function CancelAll(promises: seq<Promise>, ps: set<PromiseId>): seq<Promise> {
    seq(|promises|, i requires 0 <= i < |promises| =>
      if i in ps then promises[i].(cancelled := true) else promises[i])
  }

  function CancelOne(promises: seq<Promise>, p: PromiseId): seq<Promise> {
    if p < |promises| then promises[p := promises[p].(cancelled := true)] else promises
  }

  lemma ShutOneOfAll(heap: seq<Conn>, conns: map<Addr, ConnId>, a: Addr)
    requires a in conns
    ensures ShutAll(ShutOne(heap, conns[a]), (conns - {a}).Values) == ShutAll(heap, conns.Values)
  {
    ValuesWithout(conns, a);
  }

  lemma CancelOneOfAll(promises: seq<Promise>, dials: map<Addr, PromiseId>, a: Addr)
    requires a in dials
    ensures CancelAll(CancelOne(promises, dials[a]), (dials - {a}).Values) == CancelAll(promises, dials.Values)
  {
    ValuesWithout(dials, a);
  }

  /** The read-locked section at the top of `getConn`. */
  function FastSection(pool: Pool, addr: Addr): Proc {
    if pool.closed then Returned(addr, EngineClosed)
    else if pool.fixed.Some? then Checking(addr, pool.fixed.value)
    else if Pooled(pool, addr) then Returned(addr, Got(pool.conns[addr]))
    else AtLoop(addr)
  }

  /** The write-locked section at the top of the loop. */
  function ReserveSection(pool: Pool, addr: Addr, g: Gid): (Pool, Proc) {
    if pool.closed then (pool, Returned(addr, EngineClosed))
    else if Pooled(pool, addr) then (pool, Returned(addr, Got(pool.conns[addr])))
    else if addr in pool.dials then (pool, Waiting(addr, pool.dials[addr]))
    else
      var p := |pool.promises|;
      (pool.(promises := pool.promises + [Promise(addr, g, 0, None, false)], dials := pool.dials[addr := p]),
       Dialing(addr, p))
  }

  /** The write-locked section after the dial. */
  function SettleSection(pool: Pool, addr: Addr, p: PromiseId, got: Option<ConnId>): (Pool, Proc)
    requires p < |pool.promises|
  {
    var freed := pool.(dials := pool.dials - {addr});
    match got
    case None =>
      (freed.(promises := CloseDone(pool.promises, p)), Returned(addr, DialErr))
    case Some(c) =>
      if pool.closed then (freed, Discarding(addr, p, c))
      else
        (freed.(conns := pool.conns[addr := c],
                promises := CloseDone(pool.promises[p := pool.promises[p].(conn := Some(c))], p)),
         Returned(addr, Got(c)))
  }

  function CloseDone(promises: seq<Promise>, p: PromiseId): seq<Promise>
    requires p < |promises|
  {
    promises[p := promises[p].(closes := promises[p].closes + 1)]
  }

  function CloseIdle(pool: Pool): Pool {
    pool.(heap := ShutAll(pool.heap, pool.conns.Values), conns := map[])
  }

  function CloseEngine(pool: Pool): Pool {
    var heap := if pool.fixed.Some? then ShutOne(pool.heap, pool.fixed.value) else pool.heap;
    pool.(closed := true,
          heap := ShutAll(heap, pool.conns.Values), conns := map[],
          promises := CancelAll(pool.promises, pool.dials.Values), dials := map[])
  }

  // ---- The same critical sections as code ----

  /** `H3Engine`: the fields the mutex guards, and the sections that run under it. */
  class Engine {
    var closed: bool
    var fixed: Option<ConnId>
    var conns: map<Addr, ConnId>
    var dials: map<Addr, PromiseId>
    var promises: seq<Promise>
    var heap: seq<Conn>

    ghost function Snapshot(): Pool
      reads this
    {
      Pool(closed, fixed, conns, dials, promises, heap)
    }

    constructor ()
      ensures Snapshot() == Pool(false, None, map[], map[], [], [])
    {
      closed, fixed, conns, dials, promises, heap := false, None, map[], map[], [], [];
    }

    /** The loop's locked section, run by goroutine `g`. */
    method Reserve(addr: Addr, g: Gid) returns (next: Proc)
      modifies this
      ensures (Snapshot(), next) == ReserveSection(old(Snapshot()), addr, g)
    {
      if closed {
        return Returned(addr, EngineClosed);
      }
      if addr in conns && conns[addr] < |heap| && heap[conns[addr]].open {
        return Returned(addr, Got(conns[addr]));
      }
      if addr in dials {
        return Waiting(addr, dials[addr]);
      }
      var p := |promises|;
      promises := promises + [Promise(addr, g, 0, None, false)];
      dials := dials[addr := p];
      return Dialing(addr, p);
    }

    /** The locked section after the dial. */
    method Settle(addr: Addr, p: PromiseId, got: Option<ConnId>) returns (next: Proc)
      requires p < |promises|
      modifies this
      ensures (Snapshot(), next) == SettleSection(old(Snapshot()), addr, p, got)
    {
      dials := dials - {addr};
      if got.None? {
        promises := promises[p := promises[p].(closes := promises[p].closes + 1)];
        return Returned(addr, DialErr);
      }
      if closed {
        return Discarding(addr, p, got.value);
      }
      conns := conns[addr := got.value];
      promises := promises[p := promises[p].(conn := got)];
      promises := promises[p := promises[p].(closes := promises[p].closes + 1)];
      return Returned(addr, Got(got.value));
    }

    /** Closes every pooled connection, entry by entry. */
    method CloseIdleConnections()
      modifies this
      ensures Snapshot() == CloseIdle(old(Snapshot()))
    {
      while conns != map[]
        invariant Snapshot() == old(Snapshot()).(heap := heap, conns := conns)
        invariant ShutAll(heap, conns.Values) == CloseIdle(old(Snapshot())).heap
        decreases |conns|
      {
        var a :| a in conns;
        ShutOneOfAll(heap, conns, a);
        heap := ShutOne(heap, conns[a]);
        conns := conns - {a};
      }
      assert ShutAll(heap, {}) == heap;
    }

    /** Marks the engine closed, then shuts connections and cancels dials entry by entry. */
    method Close()
      modifies this
      ensures Snapshot() == CloseEngine(old(Snapshot()))
    {
      closed := true;
      if fixed.Some? {
        heap := ShutOne(heap, fixed.value);
      }
      CloseIdleConnections();
      while dials != map[]
        invariant Snapshot() == CloseEngine(old(Snapshot())).(promises := promises, dials := dials)
        invariant CancelAll(promises, dials.Values) == CloseEngine(old(Snapshot())).promises
        decreases |dials|
      {
        var a :| a in dials;
        CancelOneOfAll(promises, dials, a);
        promises := CancelOne(promises, dials[a]);
        dials := dials - {a};
      }
      assert CancelAll(promises, {}) == promises;
    }
  }

  // ---- Any number of goroutines, interleaved ----

  datatype State = State(pool: Pool, procs: map<Gid, Proc>)

  datatype Event =
    | Call(g: Gid, addr: Addr)
    | ReadLocked(g: Gid)
    | CheckFixed(g: Gid)
    | Locked(g: Gid)
    | DialReturns(g: Gid, ok: bool)
    | Relocked(g: Gid)
    | ShutUnused(g: Gid)
    | AnnounceUnused(g: Gid)
    | Wake(g: Gid, contextDone: bool)   // p.done was closed
    | GiveUp(g: Gid)                    // the waiter's own context ended
    | IdleClosed
    | EngineClosing
    | PeerCloses(c: ConnId)             // a connection dies on its own

  predicate Enabled(s: State, e: Event) {
    match e
    case Call(g, _) => g !in s.procs
    case ReadLocked(g) => g in s.procs && s.procs[g].Entered?
    case CheckFixed(g) => g in s.procs && s.procs[g].Checking?
    case Locked(g) => g in s.procs && s.procs[g].AtLoop?
    case DialReturns(g, _) => g in s.procs && s.procs[g].Dialing?
    case Relocked(g) => g in s.procs && s.procs[g].Dialed? && s.procs[g].p < |s.pool.promises|
    case ShutUnused(g) => g in s.procs && s.procs[g].Discarding?
    case AnnounceUnused(g) => g in s.procs && s.procs[g].Discarded? && s.procs[g].p < |s.pool.promises|
    case Wake(g, _) =>
      g in s.procs && s.procs[g].Waiting? && s.procs[g].p < |s.pool.promises|
      && s.pool.promises[s.procs[g].p].closes > 0
    case GiveUp(g) => g in s.procs && s.procs[g].Waiting?
    case IdleClosed => true
    case EngineClosing => true
    case PeerCloses(c) => c < |s.pool.heap|
  }

  function Next(s: State, e: Event): State
    requires Enabled(s, e)
  {
    var pool := s.pool;
    match e
    case Call(g, addr) => s.(procs := s.procs[g := Entered(addr)])
    case ReadLocked(g) => s.(procs := s.procs[g := FastSection(pool, s.procs[g].addr)])
    case CheckFixed(g) =>
      var q := s.procs[g];
      s.(procs := s.procs[g := Returned(q.addr, if IsOpen(pool.heap, q.conn) then Got(q.conn) else FixedClosed)])
    case Locked(g) =>
      var (pool', proc) := ReserveSection(pool, s.procs[g].addr, g);
      State(pool', s.procs[g := proc])
    case DialReturns(g, ok) =>
      var q := s.procs[g];
      if ok then
        State(pool.(heap := pool.heap + [Conn(q.addr, g, true)]),
              s.procs[g := Dialed(q.addr, q.p, Some(|pool.heap|))])
      else s.(procs := s.procs[g := Dialed(q.addr, q.p, None)])
    case Relocked(g) =>
      var q := s.procs[g];
      var (pool', proc) := SettleSection(pool, q.addr, q.p, q.got);
      State(pool', s.procs[g := proc])
    case ShutUnused(g) =>
      var q := s.procs[g];
      State(pool.(heap := ShutOne(pool.heap, q.conn)), s.procs[g := Discarded(q.addr, q.p)])
    case AnnounceUnused(g) =>
      var q := s.procs[g];
      State(pool.(promises := CloseDone(pool.promises, q.p)), s.procs[g := Returned(q.addr, EngineClosed)])
    case Wake(g, contextDone) =>
      var q := s.procs[g];
      var got := pool.promises[q.p].conn;
      s.(procs := s.procs[g :=
        if got.Some? && IsOpen(pool.heap, got.value) then Returned(q.addr, Got(got.value))
        else if contextDone then Returned(q.addr, ContextErr)
        else AtLoop(q.addr)])
    case GiveUp(g) => s.(procs := s.procs[g := Returned(s.procs[g].addr, ContextErr)])
    case IdleClosed => s.(pool := CloseIdle(pool))
    case EngineClosing => s.(pool := CloseEngine(pool))
    case PeerCloses(c) => s.(pool := pool.(heap := ShutOne(pool.heap, c)))
  }

  /** `NewH3Engine`, or `NewH3EngineFromConn` around one open connection. */
  ghost predicate Init(s: State) {
    && s.procs == map[] && !s.pool.closed
    && s.pool.conns == map[] && s.pool.dials == map[] && s.pool.promises == []
    && ((s.pool.fixed == None && s.pool.heap == [])
        || (s.pool.fixed == Some(0) && |s.pool.heap| == 1))
  }

  // ---- The invariant ----

  predicate Flying(q: Proc) { q.Dialing? || q.Dialed? }

  /** The goroutine still has to close this promise's channel. */
  predicate Owes(q: Proc, p: PromiseId) {
    (q.Dialing? || q.Dialed? || q.Discarding? || q.Discarded?) && q.p == p
  }

  predicate Busy(q: Proc) { q.Dialing? || q.Dialed? || q.Discarding? || q.Discarded? }

  /** The goroutine holds a connection nobody else has seen. */
  predicate Holds(q: Proc, c: ConnId) {
    (q.Dialed? && q.got == Some(c)) || (q.Discarding? && q.conn == c)
  }

  predicate DialedBy(pool: Pool, c: ConnId, addr: Addr, g: Gid) {
    c < |pool.heap| && pool.heap[c].addr == addr && pool.heap[c].dialer == g
  }

  ghost predicate ProcOk(s: State, g: Gid)
    requires g in s.procs
  {
    var q, pool := s.procs[g], s.pool;
    && (Busy(q) || q.Waiting? ==> q.p < |pool.promises| && pool.promises[q.p].addr == q.addr)
    && (Busy(q) ==> pool.promises[q.p].dialer == g && pool.promises[q.p].closes == 0)
    && (Flying(q) && !pool.closed ==> q.addr in pool.dials && pool.dials[q.addr] == q.p)
    && (q.Discarding? || q.Discarded? ==> pool.closed)
    && (q.Dialing? && pool.closed ==> pool.promises[q.p].cancelled)
    && (q.Dialed? && q.got.Some? ==> DialedBy(pool, q.got.value, q.addr, g))
    && (q.Discarding? ==> DialedBy(pool, q.conn, q.addr, g))
    && (pool.fixed.Some? ==> q.Entered? || q.Checking? || q.Returned?)
    && (q.Checking? ==> pool.fixed == Some(q.conn) && q.conn < |pool.heap|)
    && (q.Returned? && q.outcome.Got? ==>
          q.outcome.conn < |pool.heap|
          && (pool.heap[q.outcome.conn].addr == q.addr || pool.fixed == Some(q.outcome.conn)))
  }

  ghost predicate PromiseOk(s: State, p: PromiseId)
    requires p < |s.pool.promises|
  {
    var x := s.pool.promises[p];
    && x.closes <= 1
    && (x.closes == 0 ==> x.dialer in s.procs && Owes(s.procs[x.dialer], p))
    && (x.conn.Some? ==>
          x.conn.value < |s.pool.heap| && s.pool.heap[x.conn.value].addr == x.addr && Published(s, x.conn.value))
  }

  /** No goroutine still holds `c` privately. */
  ghost predicate Published(s: State, c: ConnId)
    requires c < |s.pool.heap|
  {
    s.pool.heap[c].dialer in s.procs ==> !Holds(s.procs[s.pool.heap[c].dialer], c)
  }

  /** An open connection is the fixed one, pooled under its own address, or privately held. */
  ghost predicate ConnOk(s: State, c: ConnId)
    requires c < |s.pool.heap|
  {
    var x := s.pool.heap[c];
    x.open ==>
      || (s.pool.fixed == Some(c) && !s.pool.closed)
      || (x.addr in s.pool.conns && s.pool.conns[x.addr] == c)
      || (x.dialer in s.procs && Holds(s.procs[x.dialer], c))
  }

  ghost predicate AddrOk(s: State, a: Addr) {
    var pool := s.pool;
    && (a in pool.conns ==>
          pool.conns[a] < |pool.heap| && pool.heap[pool.conns[a]].addr == a && Published(s, pool.conns[a]))
    && (a in pool.dials ==>
          && !Pooled(pool, a)
          && pool.dials[a] < |pool.promises|
          && pool.promises[pool.dials[a]].addr == a
          && pool.promises[pool.dials[a]].dialer in s.procs
          && Flying(s.procs[pool.promises[pool.dials[a]].dialer])
          && s.procs[pool.promises[pool.dials[a]].dialer].p == pool.dials[a])
  }

  ghost predicate ProcsOk(s: State) { forall g | g in s.procs :: ProcOk(s, g) }

  ghost predicate PromisesOk(s: State) { forall p: nat | p < |s.pool.promises| :: PromiseOk(s, p) }

  ghost predicate ConnsOk(s: State) { forall c: nat | c < |s.pool.heap| :: ConnOk(s, c) }

  ghost predicate AddrsOk(s: State) { forall a | a in s.pool.conns || a in s.pool.dials :: AddrOk(s, a) }

  ghost predicate Sealed(s: State) { s.pool.closed ==> s.pool.conns == map[] && s.pool.dials == map[] }

  ghost predicate Inv(s: State) {
    && ProcsOk(s) && PromisesOk(s) && ConnsOk(s) && AddrsOk(s) && Sealed(s)
    && (s.pool.fixed.Some? ==> s.pool.fixed.value < |s.pool.heap|)
  }

  /** A goroutine with nothing in hand moves on without touching the pool. */
  lemma QuietMoveKeepsInv(s: State, g: Gid, q: Proc)
    requires Inv(s) && (g in s.procs ==> !Busy(s.procs[g])) && !Busy(q)
    requires ProcOk(s.(procs := s.procs[g := q]), g)
    ensures Inv(s.(procs := s.procs[g := q]))
  {
    var s' := s.(procs := s.procs[g := q]);
    forall p: nat | p < |s'.pool.promises| ensures PromiseOk(s', p) { assert PromiseOk(s, p); }
    forall c: nat | c < |s'.pool.heap| ensures ConnOk(s', c) { assert ConnOk(s, c); }
    forall a | a in s'.pool.conns || a in s'.pool.dials ensures AddrOk(s', a) { assert AddrOk(s, a); }
    forall h | h in s'.procs ensures ProcOk(s', h) { assert h == g || ProcOk(s, h); }
  }

  /** `later` is `heap` with some connections shut. */
  ghost predicate OnlyShuts(heap: seq<Conn>, later: seq<Conn>) {
    |later| == |heap| && forall c | 0 <= c < |heap| :: later[c] == heap[c] || later[c] == heap[c].(open := false)
  }

  lemma ShuttingKeepsInv(s: State, later: seq<Conn>)
    requires Inv(s) && OnlyShuts(s.pool.heap, later)
    ensures Inv(s.(pool := s.pool.(heap := later)))
  {
    var s' := s.(pool := s.pool.(heap := later));
    forall p: nat | p < |s'.pool.promises| ensures PromiseOk(s', p) { assert PromiseOk(s, p); }
    forall c: nat | c < |s'.pool.heap| ensures ConnOk(s', c) { assert ConnOk(s, c); }
    forall a | a in s'.pool.conns || a in s'.pool.dials ensures AddrOk(s', a) { assert AddrOk(s, a); }
    forall h | h in s'.procs ensures ProcOk(s', h) { assert ProcOk(s, h); }
  }

  lemma NewPromiseKeepsInv(s: State, g: Gid)
    requires Inv(s) && Enabled(s, Locked(g))
    requires !s.pool.closed && !Pooled(s.pool, s.procs[g].addr) && s.procs[g].addr !in s.pool.dials
    ensures Inv(Next(s, Locked(g)))
  {
    var s' := Next(s, Locked(g));
    assert ProcsOk(s') by {
      forall h | h in s'.procs ensures ProcOk(s', h) { assert ProcOk(s, h); }
    }
    assert PromisesOk(s') by {
      forall p: nat | p < |s'.pool.promises| ensures PromiseOk(s', p) {
        assert p < |s.pool.promises| ==> PromiseOk(s, p);
      }
    }
    assert ConnsOk(s') by {
      forall c: nat | c < |s'.pool.heap| ensures ConnOk(s', c) { assert ConnOk(s, c); }
    }
    assert AddrsOk(s') by {
      forall a | a in s'.pool.conns || a in s'.pool.dials ensures AddrOk(s', a) {
        assert a in s.pool.conns || a in s.pool.dials ==> AddrOk(s, a);
      }
    }
  }

  lemma ReserveKeepsInv(s: State, g: Gid)
    requires Inv(s) && Enabled(s, Locked(g))
    ensures Inv(Next(s, Locked(g)))
  {
    var addr := s.procs[g].addr;
    if !s.pool.closed && !Pooled(s.pool, addr) && addr !in s.pool.dials {
      NewPromiseKeepsInv(s, g);
    } else {
      assert addr in s.pool.conns || addr in s.pool.dials ==> AddrOk(s, addr);
      QuietMoveKeepsInv(s, g, Next(s, Locked(g)).procs[g]);
    }
  }

  lemma DialReturnKeepsProcs(s: State, g: Gid, ok: bool)
    requires ProcsOk(s) && Enabled(s, DialReturns(g, ok))
    ensures ProcsOk(Next(s, DialReturns(g, ok)))
  {
    var s' := Next(s, DialReturns(g, ok));
    forall h | h in s'.procs ensures ProcOk(s', h) { assert ProcOk(s, h); }
  }

  lemma DialReturnKeepsAddrs(s: State, g: Gid, ok: bool)
    requires AddrsOk(s) && Enabled(s, DialReturns(g, ok))
    ensures AddrsOk(Next(s, DialReturns(g, ok)))
  {
    var s' := Next(s, DialReturns(g, ok));
    forall a | a in s'.pool.conns || a in s'.pool.dials ensures AddrOk(s', a) { assert AddrOk(s, a); }
  }

  lemma DialReturnKeepsInv(s: State, g: Gid, ok: bool)
    requires Inv(s) && Enabled(s, DialReturns(g, ok))
    ensures Inv(Next(s, DialReturns(g, ok)))
  {
    DialReturnKeepsProcs(s, g, ok);
    DialReturnKeepsAddrs(s, g, ok);
    var s' := Next(s, DialReturns(g, ok));
    forall p: nat | p < |s'.pool.promises| ensures PromiseOk(s', p) { assert PromiseOk(s, p); }
    forall c: nat | c < |s'.pool.heap| ensures ConnOk(s', c) { assert c < |s.pool.heap| ==> ConnOk(s, c); }
  }

  lemma PublishKeepsConn(s: State, g: Gid, c: ConnId)
    requires Enabled(s, Relocked(g)) && ProcOk(s, g)
    requires c < |s.pool.heap| && ConnOk(s, c)
    requires !s.pool.closed ==> AddrOk(s, s.procs[g].addr)
    ensures ConnOk(Next(s, Relocked(g)), c)
  {
  }

  lemma PublishKeepsAddr(s: State, g: Gid, a: Addr)
    requires Enabled(s, Relocked(g)) && ProcOk(s, g) && Sealed(s)
    requires a in s.pool.conns || a in s.pool.dials ==> AddrOk(s, a)
    requires var pool := Next(s, Relocked(g)).pool; a in pool.conns || a in pool.dials
    ensures AddrOk(Next(s, Relocked(g)), a)
  {
  }

  lemma PublishKeepsProc(s: State, g: Gid, h: Gid)
    requires Enabled(s, Relocked(g)) && h in s.procs && ProcOk(s, g) && ProcOk(s, h)
    ensures ProcOk(Next(s, Relocked(g)), h)
  {
  }

  lemma PublishKeepsPromise(s: State, g: Gid, p: PromiseId)
    requires Enabled(s, Relocked(g)) && ProcOk(s, g)
    requires p < |s.pool.promises| && PromiseOk(s, p)
    ensures PromiseOk(Next(s, Relocked(g)), p)
  {
  }

  lemma SettleKeepsInv(s: State, g: Gid)
    requires Inv(s) && Enabled(s, Relocked(g))
    ensures Inv(Next(s, Relocked(g)))
  {
    var s' := Next(s, Relocked(g));
    forall p: nat | p < |s'.pool.promises| ensures PromiseOk(s', p) { PublishKeepsPromise(s, g, p); }
    forall c: nat | c < |s'.pool.heap| ensures ConnOk(s', c) { PublishKeepsConn(s, g, c); }
    forall a | a in s'.pool.conns || a in s'.pool.dials ensures AddrOk(s', a) { PublishKeepsAddr(s, g, a); }
    forall h | h in s'.procs ensures ProcOk(s', h) { PublishKeepsProc(s, g, h); }
  }

  lemma DiscardKeepsInv(s: State, e: Event)
    requires Inv(s) && Enabled(s, e) && (e.ShutUnused? || e.AnnounceUnused?)
    ensures Inv(Next(s, e))
  {
    var s' := Next(s, e);
    assert ProcOk(s, e.g);
    forall p: nat | p < |s'.pool.promises| ensures PromiseOk(s', p) { assert PromiseOk(s, p); }
    forall c: nat | c < |s'.pool.heap| ensures ConnOk(s', c) { assert ConnOk(s, c); }
    forall h | h in s'.procs ensures ProcOk(s', h) { assert ProcOk(s, h); }
  }

  lemma ClearingKeepsInv(s: State)
    requires Inv(s) && forall a | a in s.pool.conns :: !Pooled(s.pool, a)
    ensures Inv(s.(pool := s.pool.(conns := map[])))
  {
    var s' := s.(pool := s.pool.(conns := map[]));
    forall p: nat | p < |s'.pool.promises| ensures PromiseOk(s', p) { assert PromiseOk(s, p); }
    forall c: nat | c < |s'.pool.heap| ensures ConnOk(s', c) { assert ConnOk(s, c); }
    forall a | a in s'.pool.conns || a in s'.pool.dials ensures AddrOk(s', a) { assert AddrOk(s, a); }
    forall h | h in s'.procs ensures ProcOk(s', h) { assert ProcOk(s, h); }
  }

  lemma IdleCloseKeepsInv(s: State)
    requires Inv(s)
    ensures Inv(Next(s, IdleClosed))
  {
    var heap := ShutAll(s.pool.heap, s.pool.conns.Values);
    ShuttingKeepsInv(s, heap);
    ClearingKeepsInv(s.(pool := s.pool.(heap := heap)));
  }

  /** The last part of `Close`: nothing is pooled any more and the fixed connection is shut. */
  lemma SealKeepsInv(s: State)
    requires Inv(s) && s.pool.conns == map[]
    requires s.pool.fixed.Some? ==> !IsOpen(s.pool.heap, s.pool.fixed.value)
    ensures Inv(s.(pool := s.pool.(closed := true, dials := map[],
                                   promises := CancelAll(s.pool.promises, s.pool.dials.Values))))
  {
    var s' := s.(pool := s.pool.(closed := true, dials := map[],
                                 promises := CancelAll(s.pool.promises, s.pool.dials.Values)));
    forall p: nat | p < |s'.pool.promises| ensures PromiseOk(s', p) { assert PromiseOk(s, p); }
    forall c: nat | c < |s'.pool.heap| ensures ConnOk(s', c) { assert ConnOk(s, c); }
    forall h | h in s'.procs ensures ProcOk(s', h) { assert ProcOk(s, h); }
  }

  lemma EngineCloseKeepsInv(s: State)
    requires Inv(s)
    ensures Inv(Next(s, EngineClosing))
  {
    var heap := if s.pool.fixed.Some? then ShutOne(s.pool.heap, s.pool.fixed.value) else s.pool.heap;
    ShuttingKeepsInv(s, heap);
    var s1 := s.(pool := s.pool.(heap := heap));
    IdleCloseKeepsInv(s1);
    SealKeepsInv(Next(s1, IdleClosed));
  }

  lemma StepKeepsInv(s: State, e: Event)
    requires Inv(s) && Enabled(s, e)
    ensures Inv(Next(s, e))
  {
    match e
    case Locked(g) => ReserveKeepsInv(s, g);
    case DialReturns(g, ok) => DialReturnKeepsInv(s, g, ok);
    case Relocked(g) => SettleKeepsInv(s, g);
    case ShutUnused(_) => DiscardKeepsInv(s, e);
    case AnnounceUnused(_) => DiscardKeepsInv(s, e);
    case IdleClosed => IdleCloseKeepsInv(s);
    case EngineClosing => EngineCloseKeepsInv(s);
    case PeerCloses(c) => ShuttingKeepsInv(s, ShutOne(s.pool.heap, c));
    case Call(g, addr) => QuietMoveKeepsInv(s, g, Entered(addr));
    case ReadLocked(g) =>
      assert ProcOk(s, g);
      assert s.procs[g].addr in s.pool.conns ==> AddrOk(s, s.procs[g].addr);
      QuietMoveKeepsInv(s, g, Next(s, e).procs[g]);
    case Wake(g, _) =>
      assert ProcOk(s, g) && PromiseOk(s, s.procs[g].p);
      QuietMoveKeepsInv(s, g, Next(s, e).procs[g]);
    case CheckFixed(g) =>
      assert ProcOk(s, g);
      QuietMoveKeepsInv(s, g, Next(s, e).procs[g]);
    case GiveUp(g) =>
      assert ProcOk(s, g);
      QuietMoveKeepsInv(s, g, Next(s, e).procs[g]);
  }

  /** No two goroutines are at work on the same address, from making a promise to closing it. */
  ghost predicate OnePerAddress(s: State) {
    forall g, h | g in s.procs && h in s.procs && Busy(s.procs[g]) && Busy(s.procs[h])
                  && s.procs[g].addr == s.procs[h].addr :: g == h
  }

  lemma StepKeepsOnePerAddress(s: State, e: Event)
    requires ProcsOk(s) && OnePerAddress(s) && Enabled(s, e)
    ensures OnePerAddress(Next(s, e))
  {
    if e.Locked? && Busy(Next(s, e).procs[e.g]) {
      forall h | h in s.procs && Busy(s.procs[h]) ensures s.procs[h].addr != s.procs[e.g].addr {
        assert ProcOk(s, h);
      }
    }
  }

  // ---- Whole runs ----

  ghost predicate Run(ss: seq<State>, es: seq<Event>) {
    && |ss| == |es| + 1 && Init(ss[0])
    && forall i | 0 <= i < |es| :: Enabled(ss[i], es[i]) && ss[i + 1] == Next(ss[i], es[i])
  }

  lemma {:induction false} RunKeepsInv(ss: seq<State>, es: seq<Event>, i: nat)
    requires Run(ss, es) && i < |ss|
    ensures Inv(ss[i]) && OnePerAddress(ss[i])
  {
    if i > 0 {
      RunKeepsInv(ss, es, i - 1);
      StepKeepsInv(ss[i - 1], es[i - 1]);
      StepKeepsOnePerAddress(ss[i - 1], es[i - 1]);
    }
  }

  /** At no moment of any run do two goroutines dial the same address. */
  lemma OneDialerPerAddress(ss: seq<State>, es: seq<Event>, i: nat, g: Gid, h: Gid)
    requires Run(ss, es) && i < |ss|
    requires g in ss[i].procs && h in ss[i].procs
    requires ss[i].procs[g].Dialing? && ss[i].procs[h].Dialing? && ss[i].procs[g].addr == ss[i].procs[h].addr
    ensures g == h
  {
    RunKeepsInv(ss, es, i);
  }

  /**
   A promise's channel is closed once and never again: it is open exactly while the goroutine
   that made the promise has yet to settle it, so nobody closes it twice and no waiter is stranded.
   */
  lemma DoneClosedExactlyOnce(ss: seq<State>, es: seq<Event>, i: nat, p: PromiseId)
    requires Run(ss, es) && i < |ss| && p < |ss[i].pool.promises|
    ensures var x := ss[i].pool.promises[p];
            x.closes == if x.dialer in ss[i].procs && Owes(ss[i].procs[x.dialer], p) then 0 else 1
  {
    RunKeepsInv(ss, es, i);
    assert PromiseOk(ss[i], p);
  }

  /** A goroutine that waits is either free to wake or waits for a goroutine that can still move. */
  lemma WaitersAreNeverStranded(ss: seq<State>, es: seq<Event>, i: nat, g: Gid)
    requires Run(ss, es) && i < |ss| && g in ss[i].procs && ss[i].procs[g].Waiting?
    ensures var p := ss[i].procs[g].p;
            p < |ss[i].pool.promises|
            && (|| Enabled(ss[i], Wake(g, false))
            || var h := ss[i].pool.promises[p].dialer;
               h in ss[i].procs && Owes(ss[i].procs[h], p)
               && (Enabled(ss[i], DialReturns(h, true)) || Enabled(ss[i], Relocked(h))
                   || Enabled(ss[i], ShutUnused(h)) || Enabled(ss[i], AnnounceUnused(h))))
  {
    RunKeepsInv(ss, es, i);
    assert ProcOk(ss[i], g);
    assert PromiseOk(ss[i], ss[i].procs[g].p);
  }

  /** Every connection still open is the fixed one, in the pool under its address, or held by its own dialer. */
  lemma OpenConnectionsAreAccountedFor(ss: seq<State>, es: seq<Event>, i: nat, c: ConnId)
    requires Run(ss, es) && i < |ss| && IsOpen(ss[i].pool.heap, c)
    ensures var pool, x := ss[i].pool, ss[i].pool.heap[c];
            || (pool.fixed == Some(c) && !pool.closed)
            || (x.addr in pool.conns && pool.conns[x.addr] == c)
            || (x.dialer in ss[i].procs && Holds(ss[i].procs[x.dialer], c))
  {
    RunKeepsInv(ss, es, i);
    assert ConnOk(ss[i], c);
  }

  /** Once Close has run and every dialer has finished, no connection is left open. */
  lemma CloseLeavesNothingOpen(ss: seq<State>, es: seq<Event>, i: nat)
    requires Run(ss, es) && i < |ss| && ss[i].pool.closed
    requires forall g | g in ss[i].procs :: !Busy(ss[i].procs[g])
    ensures forall c: nat | c < |ss[i].pool.heap| :: !ss[i].pool.heap[c].open
  {
    RunKeepsInv(ss, es, i);
    forall c: nat | c < |ss[i].pool.heap| ensures !ss[i].pool.heap[c].open {
      assert ConnOk(ss[i], c);
    }
  }

  lemma FixedIsShutWhenClosed(s: State, c: ConnId)
    requires Inv(s) && s.pool.closed && s.pool.fixed == Some(c)
    ensures !IsOpen(s.pool.heap, c)
  {
    assert ConnOk(s, c);
    var g := s.pool.heap[c].dialer;
    assert g in s.procs ==> ProcOk(s, g);
  }

  /** Once the engine is closed, no later step hands a connection to a caller, and every running dial is cancelled. */
  lemma ClosedIsFinal(ss: seq<State>, es: seq<Event>, i: nat, g: Gid)
    requires Run(ss, es) && i < |es| && ss[i].pool.closed && g in ss[i + 1].procs
    ensures ss[i + 1].pool.closed
    ensures ss[i + 1].procs[g].Returned? && ss[i + 1].procs[g].outcome.Got?
            ==> g in ss[i].procs && ss[i].procs[g] == ss[i + 1].procs[g]
    ensures ss[i + 1].procs[g].Dialing? ==>
              var p := ss[i + 1].procs[g].p;
              p < |ss[i + 1].pool.promises| && ss[i + 1].pool.promises[p].cancelled
  {
    RunKeepsInv(ss, es, i);
    RunKeepsInv(ss, es, i + 1);
    assert ProcOk(ss[i + 1], g);
    if es[i].CheckFixed? && es[i].g == g {
      assert ProcOk(ss[i], g);
      FixedIsShutWhenClosed(ss[i], ss[i].procs[g].conn);
    }
    if es[i].Wake? && es[i].g == g {
      var got := ss[i].pool.promises[ss[i].procs[g].p].conn;
      assert ProcOk(ss[i], g) && PromiseOk(ss[i], ss[i].procs[g].p);
      if got.Some? {
        assert ConnOk(ss[i], got.value);
      }
    }
  }

  /** A caller is only ever given the fixed connection or one that was dialled to its own address. */
  lemma ConnectionsMatchTheirOrigin(ss: seq<State>, es: seq<Event>, i: nat, g: Gid)
    requires Run(ss, es) && i < |ss| && g in ss[i].procs
    requires ss[i].procs[g].Returned? && ss[i].procs[g].outcome.Got?
    ensures var c := ss[i].procs[g].outcome.conn;
            c < |ss[i].pool.heap|
            && (ss[i].pool.heap[c].addr == ss[i].procs[g].addr || ss[i].pool.fixed == Some(c))
  {
    RunKeepsInv(ss, es, i);
    assert ProcOk(ss[i], g);
  }

  // ---- What each step decides ----

  /** A connection taken from the pool, the engine or a promise is open at the moment it is handed over. */
  lemma HandedOverIsOpen(ss: seq<State>, es: seq<Event>, i: nat)
    requires Run(ss, es) && i < |es| && (es[i].ReadLocked? || es[i].CheckFixed? || es[i].Locked? || es[i].Wake?)
    requires ss[i + 1].procs[es[i].g].Returned? && ss[i + 1].procs[es[i].g].outcome.Got?
    ensures var c := ss[i + 1].procs[es[i].g].outcome.conn;
            c < |ss[i].pool.heap| && ss[i].pool.heap[c].open && ss[i + 1].pool == ss[i].pool
  {
    assert Enabled(ss[i], es[i]) && ss[i + 1] == Next(ss[i], es[i]);
  }

  /** The pool has an open connection for the address. */
  ghost predicate HasOpen(pool: Pool, addr: Addr) {
    addr in pool.conns && pool.conns[addr] < |pool.heap| && pool.heap[pool.conns[addr]].open
  }

  /**
   Under the read lock of an open engine without a fixed connection, a caller gets the pooled connection if and only if
   that one is open, and otherwise goes on to the loop.
   */
  lemma FastPathDecides(ss: seq<State>, es: seq<Event>, i: nat)
    requires Run(ss, es) && i < |es| && es[i].ReadLocked?
    ensures var pool, addr := ss[i].pool, ss[i].procs[es[i].g].addr;
            ss[i + 1].procs[es[i].g] ==
            if pool.closed then Returned(addr, EngineClosed)
            else if pool.fixed.Some? then Checking(addr, pool.fixed.value)
            else if HasOpen(pool, addr) then Returned(addr, Got(pool.conns[addr]))
            else AtLoop(addr)
  {
    assert Enabled(ss[i], es[i]) && ss[i + 1] == Next(ss[i], es[i]);
  }

  /**
   At the head of the loop of an open engine, a caller gets the pooled connection if and only if that one is open;
   otherwise it waits if and only if a dial to the address is pending; otherwise it dials, and its promise is the
   pending one from then on.
   */
  lemma LoopDecides(ss: seq<State>, es: seq<Event>, i: nat)
    requires Run(ss, es) && i < |es| && es[i].Locked?
    ensures var pool, pool', q' := ss[i].pool, ss[i + 1].pool, ss[i + 1].procs[es[i].g];
            var addr := ss[i].procs[es[i].g].addr;
            if pool.closed then q' == Returned(addr, EngineClosed) && pool' == pool
            else
              && (q'.Returned? <==> HasOpen(pool, addr))
              && (q'.Returned? ==> q' == Returned(addr, Got(pool.conns[addr])) && pool' == pool)
              && (q'.Waiting? <==> !HasOpen(pool, addr) && addr in pool.dials)
              && (q'.Waiting? ==> q' == Waiting(addr, pool.dials[addr]) && pool' == pool)
              && (q'.Dialing? <==> !HasOpen(pool, addr) && addr !in pool.dials)
              && (q'.Dialing? ==> addr in pool'.dials && pool'.dials[addr] == q'.p == |pool.promises|
                                  && |pool'.promises| == |pool.promises| + 1 && pool'.promises[q'.p].closes == 0)
  {
    assert Enabled(ss[i], es[i]) && ss[i + 1] == Next(ss[i], es[i]);
  }

  /**
   After the dial the address is free again. A failed dial is reported; a good one in an open engine is pooled, put into
   the promise and announced; one in a closed engine is discarded.
   */
  lemma DialerDecides(ss: seq<State>, es: seq<Event>, i: nat)
    requires Run(ss, es) && i < |es| && es[i].Relocked?
    ensures var q, q', pool, pool' := ss[i].procs[es[i].g], ss[i + 1].procs[es[i].g], ss[i].pool, ss[i + 1].pool;
            && q.Dialed? && q.p < |pool'.promises| && q.addr !in pool'.dials
            && (q.got.None? ==> q' == Returned(q.addr, DialErr) && pool'.promises[q.p].closes == 1
                                && pool'.conns == pool.conns)
            && (q.got.Some? && !pool.closed ==>
                  && q' == Returned(q.addr, Got(q.got.value)) && pool'.conns == pool.conns[q.addr := q.got.value]
                  && pool'.promises[q.p].closes == 1 && pool'.promises[q.p].conn == q.got)
            && (q.got.Some? && pool.closed ==>
                  q' == Discarding(q.addr, q.p, q.got.value) && pool'.conns == pool.conns)
  {
    RunKeepsInv(ss, es, i);
    assert Enabled(ss[i], es[i]) && ss[i + 1] == Next(ss[i], es[i]);
    assert ProcOk(ss[i], es[i].g);
  }

  /** A woken waiter gets the promise's connection if and only if it is open; otherwise it tries again or gives up. */
  lemma WaiterDecides(ss: seq<State>, es: seq<Event>, i: nat)
    requires Run(ss, es) && i < |es| && es[i].Wake?
    ensures var q, q', pool := ss[i].procs[es[i].g], ss[i + 1].procs[es[i].g], ss[i].pool;
            && q.Waiting? && q.p < |pool.promises|
            && var got := pool.promises[q.p].conn;
               if got.Some? && got.value < |pool.heap| && pool.heap[got.value].open
               then q' == Returned(q.addr, Got(got.value))
               else q' == if es[i].contextDone then Returned(q.addr, ContextErr) else AtLoop(q.addr)
  {
    assert Enabled(ss[i], es[i]) && ss[i + 1] == Next(ss[i], es[i]);
  }

  /** Closing idle connections shuts exactly the pooled ones and leaves dials and promises alone. */
  lemma IdleCloseShutsThePool(ss: seq<State>, es: seq<Event>, i: nat, c: ConnId)
    requires Run(ss, es) && i < |es| && es[i].IdleClosed? && c < |ss[i].pool.heap|
    ensures var pool, pool' := ss[i].pool, ss[i + 1].pool;
            && pool'.conns == map[] && pool'.dials == pool.dials && pool'.promises == pool.promises
            && |pool'.heap| == |pool.heap| && pool'.closed == pool.closed
            && (pool'.heap[c].open <==> pool.heap[c].open && forall a | a in pool.conns :: pool.conns[a] != c)
  {
    assert Enabled(ss[i], es[i]) && ss[i + 1] == Next(ss[i], es[i]);
  }
}

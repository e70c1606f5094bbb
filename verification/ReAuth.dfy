/**
 The re-authentication barrier and the middleware loop around it.

 `Barrier` holds what `b.mu` guards plus the wait channels it made; each locked section is a function on it,
 and the class `ReauthBarrier` carries the same sections as code. `Next` interleaves any number of calls of the
 middleware, each running the loop of `ReAuth`. Generations are unbounded numbers here.
 */
module ReAuth {
  import opened Prelude

  type Gid = nat
  type Error = string

  /** `channels[k]` says whether the channel made by the k-th refresh is closed. */
  datatype Barrier = Barrier(
    inFlight: bool,
    waitChan: nat,
    lastErr: Option<Error>,
    generation: nat,
    channels: seq<bool>)

  /** How `execute` leaves its first locked section. */
  datatype Entry = Settle(result: Option<Error>) | Wait(channel: nat) | Refresh

  function Enter(b: Barrier, startGen: nat): (Barrier, Entry) {
    if b.generation > startGen then (b, Settle(b.lastErr))
    else if b.inFlight then (b, Wait(b.waitChan))
    else (b.(inFlight := true, waitChan := |b.channels|, channels := b.channels + [false]), Refresh)
  }

  function Finish(b: Barrier, result: Option<Error>): Barrier
    requires b.waitChan < |b.channels|
  {
    b.(lastErr := result, generation := b.generation + 1, inFlight := false,
       channels := b.channels[b.waitChan := true])
  }

  class ReauthBarrier {
    var inFlight: bool
    var waitChan: nat
    var lastErr: Option<Error>
    var generation: nat
    var channels: seq<bool>

    ghost function Snapshot(): Barrier
      reads this
    {
      Barrier(inFlight, waitChan, lastErr, generation, channels)
    }

    constructor ()
      ensures Snapshot() == Barrier(false, 0, None, 0, [])
    {
      inFlight, waitChan, lastErr, generation, channels := false, 0, None, 0, [];
    }

    /** The locked section at the head of `execute`. */
    method Arrive(startGen: nat) returns (entry: Entry)
      modifies this
      ensures (Snapshot(), entry) == Enter(old(Snapshot()), startGen)
    {
      if generation > startGen {
        return Settle(lastErr);
      }
      if inFlight {
        return Wait(waitChan);
      }
      inFlight := true;
      waitChan := |channels|;
      channels := channels + [false];
      return Refresh;
    }

    /** The locked section after the refresh function returned. */
    method Complete(result: Option<Error>)
      requires waitChan < |channels|
      modifies this
      ensures Snapshot() == Finish(old(Snapshot()), result)
    {
      lastErr := result;
      generation := generation + 1;
      inFlight := false;
      channels := channels[waitChan := true];
    }
  }

  // ---- Any number of callers ----

  /** One middleware call: when it was first sent, the generation it last noted, and its replay count. */
  datatype Ticket = Ticket(base: nat, startGen: nat, replays: nat)

  datatype Final = Answered | Failed(error: Error) | ContextErr

  datatype Proc =
    | Sending(t: Ticket)                        // in next.Do
    | AtBarrier(t: Ticket)                      // response closed, before execute
    | Waiting(t: Ticket, channel: nat)
    | Woken(t: Ticket)                          // channel closed, before reading lastErr
    | Refreshing(t: Ticket)                     // running cfg.Refresh
    | Refreshed(t: Ticket, result: Option<Error>) // refresh returned, before the lock
    | Settled(t: Ticket, result: Option<Error>) // execute returned
    | Returned(t: Ticket, final: Final)

  /** `outcomes` and `starts` log every finished refresh and the generation each refresh started in. */
  datatype State = State(
    maxRetries: nat,
    barrier: Barrier,
    runner: Option<Gid>,
    outcomes: seq<Option<Error>>,
    starts: seq<nat>,
    procs: map<Gid, Proc>)

  datatype Event =
    | Call(g: Gid)
    | Reply(g: Gid, triggered: bool)
    | Arrives(g: Gid)
    | Wakes(g: Gid)
    | GivesUp(g: Gid)
    | ReadsResult(g: Gid)
    | RefreshReturns(g: Gid, result: Option<Error>)
    | Completes(g: Gid)
    | Continues(g: Gid)

  predicate Enabled(s: State, e: Event) {
    if e.Call? then e.g !in s.procs
    else
      e.g in s.procs &&
      match e
      case Reply(g, _) => s.procs[g].Sending?
      case Arrives(g) => s.procs[g].AtBarrier?
      case Wakes(g) =>
        && s.procs[g].Waiting? && s.procs[g].channel < |s.barrier.channels|
        && s.barrier.channels[s.procs[g].channel]
      case GivesUp(g) => s.procs[g].Waiting?
      case ReadsResult(g) => s.procs[g].Woken?
      case RefreshReturns(g, _) => s.procs[g].Refreshing?
      case Completes(g) => s.procs[g].Refreshed? && s.barrier.waitChan < |s.barrier.channels|
      case Continues(g) => s.procs[g].Settled?
      case Call(_) => true
  }

  function Next(s: State, e: Event): State
    requires Enabled(s, e)
  {
    match e
    case Call(g) => s.(procs := s.procs[g := Sending(Ticket(s.barrier.generation, s.barrier.generation, 0))])
    case Reply(g, triggered) =>
      var t := s.procs[g].t;
      s.(procs := s.procs[g := if triggered && t.replays < s.maxRetries then AtBarrier(t) else Returned(t, Answered)])
    case Arrives(g) =>
      var t := s.procs[g].t;
      var (b, entry) := Enter(s.barrier, t.startGen);
      (match entry
       case Settle(r) => s.(barrier := b, procs := s.procs[g := Settled(t, r)])
       case Wait(ch) => s.(barrier := b, procs := s.procs[g := Waiting(t, ch)])
       case Refresh =>
         s.(barrier := b, runner := Some(g), starts := s.starts + [s.barrier.generation],
            procs := s.procs[g := Refreshing(t)]))
    case Wakes(g) => s.(procs := s.procs[g := Woken(s.procs[g].t)])
    case GivesUp(g) => s.(procs := s.procs[g := Returned(s.procs[g].t, ContextErr)])
    case ReadsResult(g) => s.(procs := s.procs[g := Settled(s.procs[g].t, s.barrier.lastErr)])
    case RefreshReturns(g, r) => s.(procs := s.procs[g := Refreshed(s.procs[g].t, r)])
    case Completes(g) =>
      var r := s.procs[g].result;
      s.(barrier := Finish(s.barrier, r), runner := None, outcomes := s.outcomes + [r],
         procs := s.procs[g := Settled(s.procs[g].t, r)])
    case Continues(g) =>
      var q := s.procs[g];
      s.(procs := s.procs[g :=
        if q.result.Some? then Returned(q.t, Failed(q.result.value))
        else Sending(q.t.(startGen := s.barrier.generation, replays := q.t.replays + 1))])
  }

  ghost predicate Init(s: State) {
    && s.maxRetries > 0 && s.barrier == Barrier(false, 0, None, 0, [])
    && s.runner == None && s.outcomes == [] && s.starts == [] && s.procs == map[]
  }

  // ---- The invariant ----

  /** Refreshes that succeeded among those numbered `from` to `until - 1`. */
  function Successes(outcomes: seq<Option<Error>>, from: nat, until: nat): nat
    requires from <= until <= |outcomes|
  {
    if from == until then 0 else Successes(outcomes, from, until - 1) + (if outcomes[until - 1].None? then 1 else 0)
  }

  lemma {:induction false} SuccessesStable(outcomes: seq<Option<Error>>, r: Option<Error>, from: nat, until: nat)
    requires from <= until <= |outcomes|
    ensures Successes(outcomes + [r], from, until) == Successes(outcomes, from, until)
  {
    if from < until {
      SuccessesStable(outcomes, r, from, until - 1);
    }
  }

  lemma {:induction false} SuccessesGrow(outcomes: seq<Option<Error>>, from: nat, mid: nat, until: nat, k: nat)
    requires from <= mid <= k < until <= |outcomes| && outcomes[k].None?
    ensures Successes(outcomes, from, until) >= Successes(outcomes, from, mid) + 1
    decreases until
  {
    if k == until - 1 {
      SuccessesMonotone(outcomes, from, mid, k);
    } else {
      SuccessesGrow(outcomes, from, mid, until - 1, k);
    }
  }

  lemma {:induction false} SuccessesMonotone(outcomes: seq<Option<Error>>, from: nat, mid: nat, until: nat)
    requires from <= mid <= until <= |outcomes|
    ensures Successes(outcomes, from, until) >= Successes(outcomes, from, mid)
  {
    if mid < until {
      SuccessesMonotone(outcomes, from, mid, until - 1);
    }
  }

  predicate Running(q: Proc) { q.Refreshing? || q.Refreshed? }

  ghost predicate TicketOk(s: State, t: Ticket) {
    && t.base <= t.startGen <= |s.outcomes|
    && t.replays <= s.maxRetries
    && Successes(s.outcomes, t.base, t.startGen) >= t.replays
  }

  ghost predicate ProcOk(s: State, g: Gid)
    requires g in s.procs
  {
    var q := s.procs[g];
    && TicketOk(s, q.t)
    && (Running(q) ==> s.runner == Some(g) && q.t.startGen == s.barrier.generation)
    && (!q.Sending? && !q.Returned? ==> q.t.replays < s.maxRetries)
    && (q.Waiting? ==> q.t.startGen <= q.channel < |s.barrier.channels|)
    && (q.Woken? ==> q.t.startGen < |s.outcomes|)
    && (q.Settled? ==> exists k :: q.t.startGen <= k < |s.outcomes| && s.outcomes[k] == q.result)
  }

  ghost predicate BarrierOk(s: State) {
    var b := s.barrier;
    && b.generation == |s.outcomes|
    && b.lastErr == (if s.outcomes == [] then None else s.outcomes[|s.outcomes| - 1])
    && |s.starts| == |b.channels| == b.generation + (if b.inFlight then 1 else 0)
    && (forall k | 0 <= k < |s.starts| :: s.starts[k] == k)
    && (forall k | 0 <= k < |b.channels| :: b.channels[k] <==> k < b.generation)
    && (b.inFlight ==> b.waitChan == b.generation)
    && (b.inFlight <==> s.runner.Some?)
    && (s.runner.Some? ==> s.runner.value in s.procs && Running(s.procs[s.runner.value]))
  }

  ghost predicate Inv(s: State) {
    BarrierOk(s) && forall g | g in s.procs :: ProcOk(s, g)
  }

  lemma StepKeepsBarrier(s: State, e: Event)
    requires BarrierOk(s) && Enabled(s, e) && (e.Call? || ProcOk(s, e.g))
    ensures BarrierOk(Next(s, e))
  {
  }

  lemma StepKeepsOthers(s: State, e: Event, g: Gid)
    requires BarrierOk(s) && Enabled(s, e) && g in s.procs && g != e.g && ProcOk(s, g)
    requires e.Call? || ProcOk(s, e.g)
    ensures ProcOk(Next(s, e), g)
  {
    if e.Completes? {
      var q := s.procs[g];
      SuccessesStable(s.outcomes, s.procs[e.g].result, q.t.base, q.t.startGen);
      if q.Settled? {
        var k :| q.t.startGen <= k < |s.outcomes| && s.outcomes[k] == q.result;
        assert Next(s, e).outcomes[k] == q.result;
      }
    }
  }

  lemma StepKeepsMover(s: State, e: Event)
    requires BarrierOk(s) && Enabled(s, e) && (e.Call? || ProcOk(s, e.g))
    ensures ProcOk(Next(s, e), e.g)
  {
    if e.Call? { return; }
    var q, s' := s.procs[e.g], Next(s, e);
    var n := |s.outcomes|;
    if e.Completes? {
      SuccessesStable(s.outcomes, q.result, q.t.base, q.t.startGen);
      assert s'.outcomes[n] == q.result;
    } else if e.Continues? && q.result.None? {
      var k :| q.t.startGen <= k < n && s.outcomes[k] == q.result;
      SuccessesGrow(s.outcomes, q.t.base, q.t.startGen, n, k);
    } else if s'.procs[e.g].Settled? {
      assert s.outcomes[n - 1] == s'.procs[e.g].result;
    }
  }

  lemma StepKeepsInv(s: State, e: Event)
    requires Inv(s) && Enabled(s, e)
    ensures Inv(Next(s, e))
  {
    StepKeepsBarrier(s, e);
    StepKeepsMover(s, e);
    forall g | g in s.procs && g != e.g ensures ProcOk(Next(s, e), g) {
      StepKeepsOthers(s, e, g);
    }
  }

  // ---- Whole runs ----

  ghost predicate Run(ss: seq<State>, es: seq<Event>) {
    && |ss| == |es| + 1 && Init(ss[0])
    && forall i | 0 <= i < |es| :: Enabled(ss[i], es[i]) && ss[i + 1] == Next(ss[i], es[i])
  }

  lemma {:induction false} RunKeepsInv(ss: seq<State>, es: seq<Event>, i: nat)
    requires Run(ss, es) && i < |ss|
    ensures Inv(ss[i])
  {
    if i > 0 {
      RunKeepsInv(ss, es, i - 1);
      StepKeepsInv(ss[i - 1], es[i - 1]);
    }
  }

  /** At no moment do two callers run the refresh. */
  lemma OneRefreshAtATime(ss: seq<State>, es: seq<Event>, i: nat, g: Gid, h: Gid)
    requires Run(ss, es) && i < |ss| && g in ss[i].procs && h in ss[i].procs
    requires Running(ss[i].procs[g]) && Running(ss[i].procs[h])
    ensures g == h
  {
    RunKeepsInv(ss, es, i);
    assert ProcOk(ss[i], g) && ProcOk(ss[i], h);
  }

  /** Over a whole run no two refreshes start in the same generation. */
  lemma OneRefreshPerGeneration(ss: seq<State>, es: seq<Event>, i: nat, j: nat, k: nat)
    requires Run(ss, es) && i < |ss| && j < k < |ss[i].starts|
    ensures ss[i].starts[j] != ss[i].starts[k]
  {
    RunKeepsInv(ss, es, i);
  }

  /**
   A caller that gets its result from the barrier without refreshing gets the outcome of the latest
   completed refresh, and that refresh completed after the caller noted its generation.
   */
  lemma SharedResultIsLatest(ss: seq<State>, es: seq<Event>, i: nat)
    requires Run(ss, es) && i < |es| && (es[i].Arrives? || es[i].ReadsResult?)
    requires ss[i + 1].procs[es[i].g].Settled?
    ensures var q, n := ss[i + 1].procs[es[i].g], |ss[i].outcomes|;
            n > q.t.startGen && q.result == ss[i].outcomes[n - 1] && ss[i + 1].outcomes == ss[i].outcomes
  {
    RunKeepsInv(ss, es, i);
    assert ProcOk(ss[i], es[i].g);
  }

  /** A waiting caller can wake, or the refresh whose channel it waits on is still running. */
  lemma WaitersAreNeverStranded(ss: seq<State>, es: seq<Event>, i: nat, g: Gid)
    requires Run(ss, es) && i < |ss| && g in ss[i].procs && ss[i].procs[g].Waiting?
    ensures || Enabled(ss[i], Wakes(g))
            || (ss[i].barrier.inFlight && ss[i].barrier.waitChan == ss[i].procs[g].channel
                && ss[i].runner.Some? && ss[i].runner.value in ss[i].procs && Running(ss[i].procs[ss[i].runner.value]))
  {
    RunKeepsInv(ss, es, i);
    assert ProcOk(ss[i], g);
  }

  /**
   A request is sent at most MaxRetries + 1 times, and it is replayed for the n-th time only when at least n
   refreshes have succeeded since it was first sent.
   */
  lemma EveryReplayHasItsOwnRefresh(ss: seq<State>, es: seq<Event>, i: nat, g: Gid)
    requires Run(ss, es) && i < |ss| && g in ss[i].procs
    ensures var t := ss[i].procs[g].t;
            && t.replays <= ss[i].maxRetries
            && t.base <= t.startGen <= |ss[i].outcomes|
            && Successes(ss[i].outcomes, t.base, t.startGen) >= t.replays
  {
    RunKeepsInv(ss, es, i);
    assert ProcOk(ss[i], g);
  }

  // ---- What each step must do ----

  /**
   A reply that triggers, with replays left, takes its caller to the barrier; any other is handed back. At the barrier a
   caller settles if a refresh completed since its snapshot, else waits if one runs, else runs one itself.
   */
  lemma CallersDecide(ss: seq<State>, es: seq<Event>, i: nat)
    requires Run(ss, es) && i < |es| && (es[i].Reply? || es[i].Arrives?)
    ensures var s, q, q' := ss[i], ss[i].procs[es[i].g], ss[i + 1].procs[es[i].g];
            && (es[i].Reply? && es[i].triggered && q.t.replays < s.maxRetries ==> q' == AtBarrier(q.t))
            && (es[i].Reply? && !(es[i].triggered && q.t.replays < s.maxRetries) ==> q' == Returned(q.t, Answered))
            && (es[i].Arrives? ==>
                  && (q'.Settled? <==> |s.outcomes| > q.t.startGen)
                  && (q'.Waiting? <==> |s.outcomes| <= q.t.startGen && s.runner.Some?)
                  && (q'.Refreshing? <==> |s.outcomes| <= q.t.startGen && s.runner.None?)
                  && (q'.Settled? || q'.Waiting? || q'.Refreshing?))
  {
    RunKeepsInv(ss, es, i);
    assert Enabled(ss[i], es[i]) && ss[i + 1] == Next(ss[i], es[i]);
  }

  /** After a failed refresh the call returns its error; after a good one it sends again, with a new snapshot. */
  lemma RefreshOutcomeDecides(ss: seq<State>, es: seq<Event>, i: nat)
    requires Run(ss, es) && i < |es| && es[i].Continues?
    ensures var q, q' := ss[i].procs[es[i].g], ss[i + 1].procs[es[i].g];
            && q.Settled?
            && (q.result.Some? ==> q' == Returned(q.t, Failed(q.result.value)))
            && (q.result.None? ==> q' == Sending(Ticket(q.t.base, |ss[i].outcomes|, q.t.replays + 1)))
  {
    RunKeepsInv(ss, es, i);
    assert Enabled(ss[i], es[i]) && ss[i + 1] == Next(ss[i], es[i]);
  }

  /** A finished refresh is logged, announced to those waiting for it, and frees the barrier. */
  lemma CompletionIsAnnounced(ss: seq<State>, es: seq<Event>, i: nat)
    requires Run(ss, es) && i < |es| && es[i].Completes?
    ensures var s, s', q := ss[i], ss[i + 1], ss[i].procs[es[i].g];
            && q.Refreshed? && s'.outcomes == s.outcomes + [q.result] && s'.runner.None?
            && s'.procs[es[i].g] == Settled(q.t, q.result)
            && forall g | g in s'.procs && s'.procs[g].Waiting? :: Enabled(s', Wakes(g))
  {
    RunKeepsInv(ss, es, i);
    RunKeepsInv(ss, es, i + 1);
    assert Enabled(ss[i], es[i]) && ss[i + 1] == Next(ss[i], es[i]);
    forall g | g in ss[i + 1].procs && ss[i + 1].procs[g].Waiting? ensures Enabled(ss[i + 1], Wakes(g)) {
      assert ProcOk(ss[i + 1], g);
    }
  }

  /** A call notes the number of refreshes completed before it is first sent. */
  lemma CallsTakeASnapshot(ss: seq<State>, es: seq<Event>, i: nat)
    requires Run(ss, es) && i < |es| && es[i].Call?
    ensures ss[i + 1].procs[es[i].g] == Sending(Ticket(|ss[i].outcomes|, |ss[i].outcomes|, 0))
  {
    RunKeepsInv(ss, es, i);
    assert Enabled(ss[i], es[i]) && ss[i + 1] == Next(ss[i], es[i]);
  }
}

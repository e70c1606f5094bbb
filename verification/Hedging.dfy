/**
 The two-attempt hedging race: a select loop over a two-slot result channel, goroutines that run
 the attempts, a drain goroutine for late results, and a one-shot cleanup of the two contexts.

 Attempts are numbered 0 and 1 for `ctx1` and `ctx2`. A state holds the loop's variables, the channel
 and what each goroutine has done; `Next` is one atomic step of one of them. The class `Race` carries
 the arms of the select as code.
 */
module Hedging {
  import opened Prelude

  type Error = string

  /** Which context `resp.Request.Context()` is: one of the two, or some other one. */
  datatype Tag = Ctx1 | Ctx2 | Foreign

  /** What the doer gave back. Without an error there is a response. */
  datatype Reply = Response(tag: Tag) | Failure(error: Error, hasBody: bool)

  /** What became of an attempt. */
  datatype Fate =
    | Unlaunched
    | Running
    | Queued(reply: Reply)    // sent on the channel, not yet received
    | Failed(error: Error, hasBody: bool) // received by the loop as an error
    | Won(tag: Tag)           // received by the loop as the winner
    | Drained                 // received by the drain goroutine

  /** The response body an attempt came back with. */
  datatype Body = NoBody | Open | Closed

  predicate HasBody(r: Reply) { r.Response? || r.hasBody }

  datatype Outcome = Winner(attempt: nat) | AllFailed(error: Option<Error>) | Cancelled

  datatype Phase = Looping | Returning(outcome: Outcome) | Done(outcome: Outcome)

  datatype State = State(
    phase: Phase,
    active: int,               // activeCount
    started2: bool,            // req2Started
    firstErr: Option<Error>,
    queue: seq<nat>,           // the channel: attempts whose replies wait in it
    fates: seq<Fate>,
    draining: int,             // results the drain goroutine still has to take
    cleaned: bool,
    cancelled: seq<bool>,      // cancel1 and cancel2 called
    bodyCancels: nat,          // the context the returned body cancels when closed
    bodyClosed: bool,
    bodies: seq<Body>,
    errors: seq<Error>)        // every error the loop received, in order

  datatype Event =
    | Finish(attempt: nat, reply: Reply)       // a goroutine sends its result
    | TimerFires(clone: Option<Error>)         // clone: the error of cloneRequest, if any
    | Receive(clone: Option<Error>)
    | ContextDone
    | Exhausted                                // the loop condition is false
    | RunDeferred                              // defer cleanup(0)
    | DrainOne
    | CloseBody

  // ---- Steps on values ----

  /** `launchHedgeAttempt`: a failing clone sends its error at once, otherwise a goroutine runs. */
  function Launch(s: State, i: nat, clone: Option<Error>): State
    requires i < |s.fates|
  {
    match clone
    case None => s.(fates := s.fates[i := Running])
    case Some(e) => s.(fates := s.fates[i := Queued(Failure(e, false))], queue := s.queue + [i])
  }

  /** `cleanup(winner)`: only the first call does anything. */
  function Cleanup(s: State, winner: Option<nat>): State
    requires |s.cancelled| == 2
  {
    if s.cleaned then s
    else match winner
      case None => s.(cleaned := true, cancelled := [true, true])
      case Some(w) =>
        s.(cleaned := true, cancelled := if w == 0 then s.cancelled[1 := true] else s.cancelled[0 := true])
  }

  /** The context `handleHedgeWinner` takes the response to belong to. */
  function Picked(tag: Tag): nat { if tag == Ctx2 then 1 else 0 }

  function StartSecond(s: State, clone: Option<Error>): State
    requires |s.fates| == 2
  {
    Launch(s.(started2 := true, active := s.active + 1), 1, clone)
  }

  /** A success: hand the rest to the drain goroutine, cancel the other context, wrap the body. */
  function Win(s: State, i: nat, tag: Tag): State
    requires i < |s.fates| && |s.cancelled| == 2
  {
    Cleanup(s.(draining := s.active, fates := s.fates[i := Won(tag)]), Some(Picked(tag)))
      .(bodyCancels := Picked(tag), phase := Returning(Winner(i)))
  }

  /** A failure: keep the first error. A body that came with it is left as it is. */
  function Lose(s: State, i: nat, e: Error, hasBody: bool): State
    requires i < |s.fates|
  {
    s.(fates := s.fates[i := Failed(e, hasBody)],
       firstErr := if s.firstErr.None? then Some(e) else s.firstErr,
       errors := s.errors + [e])
  }

  /** The arm that receives from the channel. */
  function OnReceive(s: State, clone: Option<Error>): State
    requires Shaped(s) && s.queue != []
  {
    var i := s.queue[0];
    var s1 := s.(queue := s.queue[1..], active := s.active - 1);
    match s.fates[i].reply
    case Response(tag) => Win(s1, i, tag)
    case Failure(e, hasBody) =>
      var s2 := Lose(s1, i, e, hasBody);
      if s2.active == 0 && !s2.started2 then StartSecond(s2, clone) else s2
  }

  function OnTimer(s: State, clone: Option<Error>): State
    requires |s.fates| == 2
  {
    if s.started2 then s else StartSecond(s, clone)
  }

  predicate Shaped(s: State) {
    && |s.fates| == 2 && |s.cancelled| == 2 && |s.bodies| == 2
    && forall k | 0 <= k < |s.queue| :: s.queue[k] < 2 && s.fates[s.queue[k]].Queued?
  }

  predicate Enabled(s: State, e: Event) {
    Shaped(s) &&
    match e
    case Finish(i, _) => i < 2 && s.fates[i].Running?
    case TimerFires(_) => s.phase.Looping? && s.active > 0
    case Receive(_) => s.phase.Looping? && s.active > 0 && s.queue != []
    case ContextDone => s.phase.Looping? && s.active > 0
    case Exhausted => s.phase.Looping? && s.active <= 0
    case RunDeferred => s.phase.Returning?
    case DrainOne => s.draining > 0 && s.queue != []
    case CloseBody =>
      s.phase.Done? && s.phase.outcome.Winner? && s.phase.outcome.attempt < 2 && !s.bodyClosed && s.bodyCancels < 2
  }

  function Next(s: State, e: Event): State
    requires Enabled(s, e)
  {
    match e
    case Finish(i, reply) =>
      s.(fates := s.fates[i := Queued(reply)], queue := s.queue + [i],
         bodies := s.bodies[i := if HasBody(reply) then Open else NoBody])
    case TimerFires(clone) => OnTimer(s, clone)
    case Receive(clone) => OnReceive(s, clone)
    case ContextDone => s.(draining := s.active, phase := Returning(Cancelled))
    case Exhausted => s.(phase := Returning(AllFailed(s.firstErr)))
    case RunDeferred => Cleanup(s, None).(phase := Done(s.phase.outcome))
    case DrainOne =>
      var i := s.queue[0];
      s.(fates := s.fates[i := Drained], queue := s.queue[1..], draining := s.draining - 1,
         bodies := if s.bodies[i].Open? then s.bodies[i := Closed] else s.bodies)
    case CloseBody =>
      s.(cancelled := s.cancelled[s.bodyCancels := true], bodyClosed := true,
         bodies := s.bodies[s.phase.outcome.attempt := Closed])
  }

  /** The state in which `dispatchHedgingAttempts` enters its loop. */
  function Start(clone: Option<Error>): State {
    Launch(State(Looping, 1, false, None, [], [Unlaunched, Unlaunched], 0, false, [false, false], 0, false,
                 [NoBody, NoBody], []),
           0, clone)
  }

  // ---- The select arms as code ----

  /** The variables of `dispatchHedgingAttempts`, its channel and its two cancel functions. */
  class Race {
    var phase: Phase
    var active: int
    var started2: bool
    var firstErr: Option<Error>
    var queue: seq<nat>
    var fates: seq<Fate>
    var draining: int
    var cleaned: bool
    var cancelled: seq<bool>
    var bodyCancels: nat
    var bodyClosed: bool
    var bodies: seq<Body>
    ghost var errors: seq<Error>

    ghost function Snapshot(): State
      reads this
    {
      State(phase, active, started2, firstErr, queue, fates, draining, cleaned, cancelled, bodyCancels, bodyClosed,
            bodies, errors)
    }

    constructor (clone: Option<Error>)
      ensures Snapshot() == Start(clone)
    {
      phase, active, started2, firstErr := Looping, 1, false, None;
      queue, fates, draining, errors := [], [Unlaunched, Unlaunched], 0, [];
      cleaned, cancelled, bodyCancels, bodyClosed, bodies := false, [false, false], 0, false, [NoBody, NoBody];
      new;
      LaunchAttempt(0, clone);
    }

    method LaunchAttempt(i: nat, clone: Option<Error>)
      requires i < |fates|
      modifies this
      ensures Snapshot() == Launch(old(Snapshot()), i, clone)
    {
      if clone.Some? {
        fates := fates[i := Queued(Failure(clone.value, false))];
        queue := queue + [i];
      } else {
        fates := fates[i := Running];
      }
    }

    method CleanUp(winner: Option<nat>)
      requires |cancelled| == 2
      modifies this`cleaned, this`cancelled
      ensures Snapshot() == Cleanup(old(Snapshot()), winner)
    {
      if cleaned {
        return;
      }
      cleaned := true;
      if winner == Some(0) {
        cancelled := cancelled[1 := true];
      } else if winner.Some? {
        cancelled := cancelled[0 := true];
      } else {
        cancelled := [true, true];
      }
    }

    method TimerFired(clone: Option<Error>)
      requires |fates| == 2
      modifies this
      ensures Snapshot() == OnTimer(old(Snapshot()), clone)
    {
      if !started2 {
        started2 := true;
        active := active + 1;
        LaunchAttempt(1, clone);
      }
    }

    method AcceptWinner(i: nat, tag: Tag)
      requires i < |fates| && |cancelled| == 2
      modifies this
      ensures Snapshot() == Win(old(Snapshot()), i, tag)
    {
      draining := active;
      fates := fates[i := Won(tag)];
      var winner := 0;
      if tag == Ctx2 {
        winner := 1;
      }
      CleanUp(Some(winner));
      bodyCancels := winner;
      phase := Returning(Winner(i));
    }

    method RecordFailure(i: nat, e: Error, hasBody: bool)
      requires i < |fates|
      modifies this
      ensures Snapshot() == Lose(old(Snapshot()), i, e, hasBody)
    {
      fates := fates[i := Failed(e, hasBody)];
      errors := errors + [e];
      if firstErr.None? {
        firstErr := Some(e);
      }
    }

    method ResultReceived(clone: Option<Error>)
      requires Shaped(Snapshot()) && queue != []
      modifies this
      ensures Snapshot() == OnReceive(old(Snapshot()), clone)
    {
      var i := queue[0];
      var reply := fates[i].reply;
      queue := queue[1..];
      active := active - 1;
      if reply.Response? {
        AcceptWinner(i, reply.tag);
      } else {
        RecordFailure(i, reply.error, reply.hasBody);
        if active == 0 {
          TimerFired(clone);
        }
      }
    }
  }

  // ---- The invariant ----

  function Weight(f: Fate): int { if f.Running? || f.Queued? then 1 else 0 }

  /** Launched attempts whose result nobody has received. */
  function InFlight(s: State): int
    requires |s.fates| == 2
  {
    Weight(s.fates[0]) + Weight(s.fates[1])
  }

  function FailedCount(s: State): int
    requires |s.fates| == 2
  {
    (if s.fates[0].Failed? then 1 else 0) + (if s.fates[1].Failed? then 1 else 0)
  }

  ghost predicate QueueOk(s: State)
    requires |s.fates| == 2
  {
    if s.fates[0].Queued? && s.fates[1].Queued? then s.queue == [0, 1] || s.queue == [1, 0]
    else if s.fates[0].Queued? then s.queue == [0]
    else if s.fates[1].Queued? then s.queue == [1]
    else s.queue == []
  }

  ghost predicate Inv(s: State) {
    && Shaped(s) && QueueOk(s)
    && !s.fates[0].Unlaunched?
    && (s.started2 <==> !s.fates[1].Unlaunched?)
    && (s.firstErr == if s.errors == [] then None else Some(s.errors[0]))
    && |s.errors| == FailedCount(s)
    && match s.phase
       case Looping =>
         && s.active == InFlight(s) && s.draining == 0 && !s.cleaned && s.cancelled == [false, false]
         && (s.active == 0 ==> s.started2)
         && !s.fates[0].Won? && !s.fates[1].Won? && !s.fates[0].Drained? && !s.fates[1].Drained? && !s.bodyClosed
       case Returning(out) => ExitOk(s, out) && !s.bodyClosed && (s.cleaned <==> out.Winner?)
       case Done(out) => ExitOk(s, out) && s.cleaned && (!out.Winner? ==> s.cancelled == [true, true])
  }

  ghost predicate ExitOk(s: State, out: Outcome)
    requires Shaped(s)
  {
    && s.draining == InFlight(s)
    && match out
       case Winner(i) =>
         && i < 2 && s.fates[i].Won? && !s.fates[1 - i].Won?
         && s.bodyCancels == Picked(s.fates[i].tag)
         && s.cancelled[1 - s.bodyCancels] && (s.cancelled[s.bodyCancels] <==> s.bodyClosed)
       case AllFailed(e) =>
         && s.fates[0].Failed? && s.fates[1].Failed? && e == s.firstErr
       case Cancelled => !s.fates[0].Won? && !s.fates[1].Won?
  }

  /** What an attempt's body is, given what became of the attempt. */
  predicate BodyOk(f: Fate, b: Body, bodyClosed: bool) {
    match f
    case Queued(reply) => b == if HasBody(reply) then Open else NoBody
    case Failed(_, hasBody) => b == if hasBody then Open else NoBody
    case Won(_) => b == if bodyClosed then Closed else Open
    case Drained => !b.Open?
    case _ => b.NoBody?
  }

  predicate BodiesOk(s: State)
    requires Shaped(s)
  {
    BodyOk(s.fates[0], s.bodies[0], s.bodyClosed) && BodyOk(s.fates[1], s.bodies[1], s.bodyClosed)
  }

  lemma ReceiveKeepsBodies(s: State, clone: Option<Error>)
    requires Inv(s) && BodiesOk(s) && Enabled(s, Receive(clone))
    ensures Shaped(OnReceive(s, clone)) ==> BodiesOk(OnReceive(s, clone))
  {
  }

  lemma StepKeepsBodies(s: State, e: Event)
    requires Inv(s) && BodiesOk(s) && Enabled(s, e)
    ensures Shaped(Next(s, e)) ==> BodiesOk(Next(s, e))
  {
    if e.Receive? {
      ReceiveKeepsBodies(s, e.clone);
    }
  }

  lemma SecondLaunchKeepsInv(s: State, clone: Option<Error>)
    requires Shaped(s) && s.bodies[1].NoBody? && s.phase.Looping? && !s.started2
    requires !s.fates[0].Unlaunched? && s.fates[1].Unlaunched?
    requires Inv(s.(started2 := true, active := s.active + 1, fates := s.fates[1 := Running]))
    ensures Inv(StartSecond(s, clone))
  {
    if clone.Some? {
      FinishKeepsInv(s.(started2 := true, active := s.active + 1, fates := s.fates[1 := Running]), 1,
                     Failure(clone.value, false));
    }
  }

  lemma FinishKeepsQueue(s: State, i: nat, reply: Reply)
    requires Shaped(s) && QueueOk(s) && i < 2 && s.fates[i].Running?
    ensures var s' := Next(s, Finish(i, reply)); Shaped(s') && QueueOk(s')
  {
    assert i !in s.queue;
  }

  lemma FinishKeepsInv(s: State, i: nat, reply: Reply)
    requires Inv(s) && Enabled(s, Finish(i, reply))
    ensures Inv(Next(s, Finish(i, reply)))
  {
    FinishKeepsQueue(s, i, reply);
  }

  lemma LoseKeepsInv(s: State, clone: Option<Error>)
    requires Inv(s) && BodiesOk(s) && Enabled(s, Receive(clone)) && s.fates[s.queue[0]].reply.Failure?
    ensures Inv(OnReceive(s, clone))
  {
    var i := s.queue[0];
    var s1 := s.(queue := s.queue[1..], active := s.active - 1);
    var s2 := Lose(s1, i, s.fates[i].reply.error, s.fates[i].reply.hasBody);
    if s2.active == 0 && !s2.started2 {
      SecondLaunchKeepsInv(s2, clone);
    }
  }

  lemma WinKeepsInv(s: State, clone: Option<Error>)
    requires Inv(s) && Enabled(s, Receive(clone)) && s.fates[s.queue[0]].reply.Response?
    ensures Inv(OnReceive(s, clone))
  {
  }

  lemma DrainKeepsInv(s: State)
    requires Inv(s) && Enabled(s, DrainOne)
    ensures Inv(Next(s, DrainOne))
  {
  }

  lemma ExitKeepsInv(s: State, e: Event)
    requires Inv(s) && Enabled(s, e) && (e.ContextDone? || e.Exhausted?)
    ensures Inv(Next(s, e))
  {
  }

  lemma DeferredKeepsInv(s: State)
    requires Inv(s) && Enabled(s, RunDeferred)
    ensures Inv(Next(s, RunDeferred))
  {
  }

  lemma CloseBodyKeepsInv(s: State)
    requires Inv(s) && Enabled(s, CloseBody)
    ensures Inv(Next(s, CloseBody))
  {
  }

  lemma StepKeepsInv(s: State, e: Event)
    requires Inv(s) && BodiesOk(s) && Enabled(s, e)
    ensures Inv(Next(s, e))
  {
    match e
    case DrainOne => DrainKeepsInv(s);
    case ContextDone => ExitKeepsInv(s, e);
    case Exhausted => ExitKeepsInv(s, e);
    case RunDeferred => DeferredKeepsInv(s);
    case CloseBody => CloseBodyKeepsInv(s);
    case Finish(i, reply) => FinishKeepsInv(s, i, reply);
    case Receive(clone) =>
      if s.fates[s.queue[0]].reply.Failure? { LoseKeepsInv(s, clone); } else { WinKeepsInv(s, clone); }
    case TimerFires(clone) => if !s.started2 { SecondLaunchKeepsInv(s, clone); }
  }

  /** The error log holds exactly the errors of the failed attempts. */
  ghost predicate LogOk(s: State)
    requires |s.fates| == 2
  {
    var f, g := s.fates[0], s.fates[1];
    if f.Failed? && g.Failed? then s.errors == [f.error, g.error] || s.errors == [g.error, f.error]
    else if f.Failed? then s.errors == [f.error]
    else if g.Failed? then s.errors == [g.error]
    else s.errors == []
  }

  lemma SecondLaunchKeepsLog(s: State, clone: Option<Error>)
    requires |s.fates| == 2 && LogOk(s) && s.fates[1].Unlaunched?
    ensures LogOk(StartSecond(s, clone))
  {
  }

  lemma LoseKeepsLog(s: State, i: nat, e: Error, hasBody: bool)
    requires |s.fates| == 2 && i < 2 && LogOk(s) && s.fates[i].Queued?
    ensures LogOk(Lose(s, i, e, hasBody))
  {
  }

  lemma StepKeepsLog(s: State, e: Event)
    requires Enabled(s, e) && LogOk(s) && (s.fates[1].Unlaunched? <==> !s.started2)
    ensures LogOk(Next(s, e))
  {
    match e
    case TimerFires(clone) => if !s.started2 { SecondLaunchKeepsLog(s, clone); }
    case Receive(clone) =>
      var i := s.queue[0];
      var s1 := s.(queue := s.queue[1..], active := s.active - 1);
      if s.fates[i].reply.Failure? {
        var e, hasBody := s.fates[i].reply.error, s.fates[i].reply.hasBody;
        LoseKeepsLog(s1, i, e, hasBody);
        var s2 := Lose(s1, i, e, hasBody);
        if s2.active == 0 && !s2.started2 { SecondLaunchKeepsLog(s2, clone); }
      }
    case _ =>
  }

  // ---- Whole runs ----

  ghost predicate Run(ss: seq<State>, es: seq<Event>) {
    && |ss| == |es| + 1 && (exists clone :: ss[0] == Start(clone))
    && forall i | 0 <= i < |es| :: Enabled(ss[i], es[i]) && ss[i + 1] == Next(ss[i], es[i])
  }

  lemma {:induction false} RunKeepsInv(ss: seq<State>, es: seq<Event>, i: nat)
    requires Run(ss, es) && i < |ss|
    ensures Inv(ss[i]) && LogOk(ss[i]) && BodiesOk(ss[i])
  {
    if i > 0 {
      RunKeepsInv(ss, es, i - 1);
      StepKeepsBodies(ss[i - 1], es[i - 1]);
      StepKeepsLog(ss[i - 1], es[i - 1]);
      StepKeepsInv(ss[i - 1], es[i - 1]);
    }
  }

  /** No goroutine is ever stopped by a full channel: whoever sends finds a free slot. */
  lemma NoSenderBlocks(ss: seq<State>, es: seq<Event>, i: nat)
    requires Run(ss, es) && i < |es|
    ensures es[i].Finish? ==> |ss[i].queue| < 2
    ensures |ss[i + 1].queue| <= 2
  {
    RunKeepsInv(ss, es, i);
    RunKeepsInv(ss, es, i + 1);
  }

  /** While the loop runs, `activeCount` is the number of attempts launched and not yet received. */
  lemma ActiveCountIsExact(ss: seq<State>, es: seq<Event>, i: nat)
    requires Run(ss, es) && i < |ss| && ss[i].phase.Looping?
    ensures |ss[i].fates| == 2
    ensures ss[i].active == (if ss[i].started2 then 2 else 1) - |ss[i].errors|
    ensures ss[i].active == InFlight(ss[i])
  {
    RunKeepsInv(ss, es, i);
  }

  /** An error exit that is not a cancellation comes after both attempts failed, with the error received first. */
  lemma ErrorExitMeansBothFailed(ss: seq<State>, es: seq<Event>, i: nat)
    requires Run(ss, es) && i < |ss| && !ss[i].phase.Looping? && ss[i].phase.outcome.AllFailed?
    ensures |ss[i].fates| == 2 && ss[i].fates[0].Failed? && ss[i].fates[1].Failed?
    ensures |ss[i].errors| == 2 && ss[i].phase.outcome.error == Some(ss[i].errors[0])
    ensures multiset(ss[i].errors) == multiset{ss[i].fates[0].error, ss[i].fates[1].error}
  {
    RunKeepsInv(ss, es, i);
  }

  /**
   Once the call has returned and the drain goroutine is finished, every launched attempt was returned,
   was an error the loop received, or was drained; exactly the winner exit returns one. Until then
   the drain goroutine always has a result to take or an attempt that will send one.
   */
  lemma NothingIsLeftBehind(ss: seq<State>, es: seq<Event>, i: nat)
    requires Run(ss, es) && i < |ss| && !ss[i].phase.Looping?
    ensures |ss[i].fates| == 2
    ensures ss[i].draining == 0 ==>
              && ss[i].queue == []
              && (forall k | 0 <= k < 2 :: var f := ss[i].fates[k];
                    f.Won? || f.Failed? || f.Drained? || (k == 1 && !ss[i].started2))
    ensures forall k | 0 <= k < 2 :: ss[i].fates[k].Won? <==> ss[i].phase.outcome == Winner(k)
    ensures ss[i].draining > 0 ==>
              ss[i].queue != [] || exists k | 0 <= k < 2 :: ss[i].fates[k].Running?
  {
    RunKeepsInv(ss, es, i);
  }

  /**
   When the drain goroutine is finished, the bodies still open are the winner's, until the caller closes it, and those
   that came together with an error the loop received. So every response that is not returned is closed if and only if
   no such error came with a body.
   */
  lemma OpenBodiesAreAccountedFor(ss: seq<State>, es: seq<Event>, i: nat)
    requires Run(ss, es) && i < |ss| && !ss[i].phase.Looping? && ss[i].draining == 0
    ensures |ss[i].fates| == 2 == |ss[i].bodies|
    ensures forall k | 0 <= k < 2 :: var f := ss[i].fates[k];
              ss[i].bodies[k].Open? <==> (f.Won? && !ss[i].bodyClosed) || (f.Failed? && f.hasBody)
    ensures (forall k | 0 <= k < 2 :: ss[i].phase.outcome != Winner(k) ==> !ss[i].bodies[k].Open?)
            <==> forall k | 0 <= k < 2 :: !(ss[i].fates[k].Failed? && ss[i].fates[k].hasBody)
  {
    RunKeepsInv(ss, es, i);
    NothingIsLeftBehind(ss, es, i);
    assert BodyOk(ss[i].fates[0], ss[i].bodies[0], ss[i].bodyClosed);
    assert BodyOk(ss[i].fates[1], ss[i].bodies[1], ss[i].bodyClosed);
  }

  /** A body that came with an error is never closed: the first attempt's, here, after the second one won. */
  lemma ErrorBodyIsDropped() returns (ss: seq<State>, es: seq<Event>)
    ensures Run(ss, es)
    ensures var last := ss[|ss| - 1];
            last.phase == Done(Winner(1)) && last.draining == 0 && |last.bodies| == 2 && last.bodies[0].Open?
  {
    es := [Finish(0, Failure("", true)), Receive(None), Finish(1, Response(Ctx2)), Receive(None), RunDeferred];
    var s0 := Start(None);
    var s1 := Next(s0, es[0]);
    var s2 := Next(s1, es[1]);
    var s3 := Next(s2, es[2]);
    var s4 := Next(s3, es[3]);
    var s5 := Next(s4, es[4]);
    ss := [s0, s1, s2, s3, s4, s5];
  }

  /** The response names the context of the attempt that produced it. */
  predicate Identifies(tag: Tag, attempt: nat) { (tag == Ctx2) == (attempt == 1) }

  /**
   After a winning exit, and before its body is closed, the winner's context is live and the loser's
   cancelled if and only if the response identifies its attempt. Closing the body cancels the winner's.
   */
  lemma WinnerKeepsItsContextExactlyWhenIdentified(ss: seq<State>, es: seq<Event>, i: nat)
    requires Run(ss, es) && i < |ss| && !ss[i].phase.Looping? && ss[i].phase.outcome.Winner?
    ensures var w := ss[i].phase.outcome.attempt;
            && w < |ss[i].fates| == 2 == |ss[i].cancelled| && ss[i].fates[w].Won?
            && (!ss[i].bodyClosed ==>
                  (Identifies(ss[i].fates[w].tag, w) <==> !ss[i].cancelled[w] && ss[i].cancelled[1 - w]))
            && (ss[i].bodyClosed ==> ss[i].cancelled == [true, true])
  {
    RunKeepsInv(ss, es, i);
  }

  /** While the loop runs nothing is cancelled; once the call is done without a winner both contexts are. */
  lemma OtherExitsCancelBoth(ss: seq<State>, es: seq<Event>, i: nat)
    requires Run(ss, es) && i < |ss|
    ensures ss[i].phase.Looping? ==> ss[i].cancelled == [false, false]
    ensures ss[i].phase.Done? && !ss[i].phase.outcome.Winner? ==> ss[i].cancelled == [true, true]
  {
    RunKeepsInv(ss, es, i);
  }

  /**
   A second attempt that wins with a response made under another context (one more `WithContext` below the
   hedge is enough) is taken for the first: its own context is cancelled while the caller holds its open body.
   */
  lemma ForeignContextLosesTheWinner() returns (ss: seq<State>, es: seq<Event>)
    ensures Run(ss, es)
    ensures var last := ss[|ss| - 1];
            && last.phase == Done(Winner(1)) && !last.bodyClosed
            && |last.cancelled| == 2 && last.cancelled[1] && !last.cancelled[0]
  {
    es := [TimerFires(None), Finish(1, Response(Foreign)), Receive(None), RunDeferred];
    var s0 := Start(None);
    var s1 := Next(s0, es[0]);
    var s2 := Next(s1, es[1]);
    var s3 := Next(s2, es[2]);
    var s4 := Next(s3, es[3]);
    ss := [s0, s1, s2, s3, s4];
  }

  // ---- What each step must do ----

  /** The second attempt is under way: running, or its result queued because the request could not be cloned. */
  predicate SecondLaunched(s: State, s': State, clone: Option<Error>)
    requires |s'.fates| == 2
  {
    && s'.started2
    && (clone.None? ==> s'.fates[1] == Running && s'.queue == s.queue)
    && (clone.Some? ==> s'.fates[1] == Queued(Failure(clone.value, false)) && s'.queue == s.queue + [1])
  }

  /** The timer launches the second attempt beside the first, once; after that it changes nothing. */
  lemma TimerLaunchesTheSecond(ss: seq<State>, es: seq<Event>, i: nat)
    requires Run(ss, es) && i < |es| && es[i].TimerFires?
    ensures |ss[i].fates| == 2 == |ss[i + 1].fates|
    ensures if ss[i].fates[1].Unlaunched? then
              && SecondLaunched(ss[i], ss[i + 1], es[i].clone)
              && ss[i + 1].active == ss[i].active + 1 && ss[i + 1].fates[0] == ss[i].fates[0]
              && ss[i + 1].phase.Looping?
            else ss[i + 1] == ss[i]
  {
    RunKeepsInv(ss, es, i);
    assert Enabled(ss[i], es[i]) && ss[i + 1] == Next(ss[i], es[i]);
  }

  /**
   A received response ends the race with its attempt as the winner. A received error goes on with the loop, and
   launches the second attempt at once if nothing else is in flight and it was not launched yet.
   */
  lemma ReceiveDecides(ss: seq<State>, es: seq<Event>, i: nat)
    requires Run(ss, es) && i < |es| && es[i].Receive?
    ensures |ss[i].fates| == 2 == |ss[i + 1].fates| && ss[i].queue != [] && ss[i].queue[0] < 2
    ensures var s, s', k := ss[i], ss[i + 1], ss[i].queue[0];
            && s.fates[k].Queued?
            && (s.fates[k].reply.Response? ==>
                  s'.phase == Returning(Winner(k)) && s'.fates[k] == Won(s.fates[k].reply.tag)
                  && s'.draining == s.active - 1)
            && (s.fates[k].reply.Failure? ==>
                  && s'.phase.Looping? && s'.fates[k] == Failed(s.fates[k].reply.error, s.fates[k].reply.hasBody)
                  && s'.errors == s.errors + [s.fates[k].reply.error]
                  && if s.active == 1 && s.fates[1].Unlaunched?
                     then SecondLaunched(s.(queue := s.queue[1..]), s', es[i].clone) && s'.active == 1
                     else s'.active == s.active - 1 && s'.fates[1 - k] == s.fates[1 - k])
  {
    RunKeepsInv(ss, es, i);
    assert Enabled(ss[i], es[i]) && ss[i + 1] == Next(ss[i], es[i]);
  }

  /** A done request context ends the race and hands everything in flight to the drain goroutine. */
  lemma CancellationDrainsTheRest(ss: seq<State>, es: seq<Event>, i: nat)
    requires Run(ss, es) && i < |es| && es[i].ContextDone?
    ensures ss[i + 1].phase == Returning(Cancelled) && ss[i + 1].draining == ss[i].active
    ensures ss[i + 1].fates == ss[i].fates && ss[i + 1].queue == ss[i].queue
  {
    assert Enabled(ss[i], es[i]) && ss[i + 1] == Next(ss[i], es[i]);
  }
}

/**
 The retry loop: a 32-bit attempt counter, one response held between attempts, and sleeps taken from Retry-After
 (section 10.2.3 of RFC 9110) or from the backoff generator.

 What a round meets (cancellation, rewinding the body, the backoff, the reply of the wrapped client) is given by a
 sequence of turns. A response is named by the number of the dispatch that returned it, from 1.
 */
module Retry {
  import opened Prelude

  const MAX_INT64: int := 0x7FFF_FFFF_FFFF_FFFF

  // ---- Retry-After ----

  /** A Retry-After value: a decimal integer of any size, a date (given by the time left until it), or neither. */
  datatype RetryAfter = Absent | Number(v: int) | Date(left: int) | Unreadable

  /** `parseRetryAfter`: the number of seconds is parsed as a 64-bit integer, with an error when it does not fit. */
  function ParseRetryAfter(h: RetryAfter): (d: Option<int>)
    ensures h.Number? && h.v >= 0 ==> d == Some(Min(h.v * SECOND, MAX_INT64))
    ensures d.Some? ==> d.value >= 0
    ensures d.None? <==> h.Absent? || h.Unreadable? || (h.Number? && -MAX_INT64 - 1 <= h.v < 0)
  {
    match h
    case Absent => None
    case Number(v) =>
      if -MAX_INT64 - 1 <= v <= MAX_INT64 then
        if v >= 0 then Some(if v > MAX_INT64 / SECOND then MAX_INT64 else v * SECOND) else None
      else Some(MAX_INT64)
    case Date(left) => Some(Max(left, 0))
    case Unreadable => None
  }

  // ---- Configuration ----

  datatype Error = SsrfBlocked | Canceled | BadCertificate | UnknownAuthority | Other(text: string)

  /** `isFatalError`. */
  predicate IsFatal(e: Error) { !e.Other? }

  datatype Response = Response(status: int, retryAfter: RetryAfter)

  datatype Reply = Reply(resp: Option<Response>, err: Option<Error>)

  /** `keyed`: an Idempotency-Key or X-Request-ID header is set. */
  datatype Request = Request(verb: string, keyed: bool, allowNonReadOnlyHedging: bool)

  datatype Options = Options(
    maxAttempts: nat, maxRetries: nat, maxRetryAfter: int, allowedMethods: seq<string>, autoIdempotencyKey: bool)

  /** The limit the middleware settles on when it is built; `MaxRetries + 1` is a 32-bit sum. */
  function BuiltAttempts(o: Options): nat {
    var n := if o.maxAttempts == 0 && o.maxRetries > 0 then (o.maxRetries + 1) % WORD else o.maxAttempts;
    if n < 1 then 1 else n
  }

  /** A positive per-request override takes its place, truncated to 32 bits. */
  function ActiveAttempts(o: Options, override: Option<int>): (n: nat)
    requires o.maxAttempts < WORD
    ensures n < WORD
    ensures n == 0 <==> override.Some? && override.value > 0 && override.value % WORD == 0
  {
    if override.Some? && override.value > 0 then override.value % WORD else BuiltAttempts(o)
  }

  predicate Idempotent(verb: string) { verb in ["GET", "HEAD", "PUT", "DELETE", "OPTIONS", "TRACE"] }

  ghost predicate Allowed(req: Request, o: Options, resp: Option<Response>) {
    if o.allowedMethods != [] then
      exists i :: 0 <= i < |o.allowedMethods| && ToLower(o.allowedMethods[i]) == ToLower(req.verb)
    else
      || Idempotent(req.verb) || req.keyed || req.allowNonReadOnlyHedging
      || (resp.Some? && (resp.value.status == 429 || resp.value.status == 425))
  }

  method AllowRetryForMethod(req: Request, o: Options, resp: Option<Response>) returns (allowed: bool)
    ensures allowed <==> Allowed(req, o, resp)
  {
    if |o.allowedMethods| > 0 {
      for i := 0 to |o.allowedMethods|
        invariant forall k | 0 <= k < i :: ToLower(o.allowedMethods[k]) != ToLower(req.verb)
      {
        if ToLower(o.allowedMethods[i]) == ToLower(req.verb) {
          return true;
        }
      }
      return false;
    }
    if Idempotent(req.verb) || req.keyed {
      return true;
    }
    if resp.Some? && (resp.value.status == 429 || resp.value.status == 425) {
      return true;
    }
    return req.allowNonReadOnlyHedging;
  }

  // ---- Runs ----

  datatype Exit =
    | CancelledAtTop     // seen at the top of the loop
    | RewindFailed
    | NotAllowed         // the method rule ended the loop
    | RetryAfterTooLong
    | WaitCancelled      // during the sleep
    | Settled            // a fatal error, or the condition asked for no retry
    | Exhausted

  datatype Failure =
    | ContextDone | CannotRewind | RetryAfterExceeded | MaxRetriesExceeded(cause: Error) | Plain(err: Error)

  /** The reply is one that the condition wants retried, and its error is not fatal. */
  predicate Wanted(wants: Reply -> bool, r: Reply) { !(r.err.Some? && IsFatal(r.err.value)) && wants(r) }

  function HeaderDelay(r: Reply): Option<int> {
    if r.resp.Some? then ParseRetryAfter(r.resp.value.retryAfter) else None
  }

  predicate TooLong(o: Options, r: Reply) {
    HeaderDelay(r).Some? && o.maxRetryAfter > 0 && HeaderDelay(r).value > o.maxRetryAfter
  }

  /**
   What one round of the loop meets: the context is done at the top, the body could be rewound, the sleep ran to its
   end, the backoff's next value, and the reply to the dispatch.
   */
  datatype Turn = Turn(cancelled: bool, rewound: bool, waited: bool, backoff: int, reply: Reply)

  function SleepFor(r: Reply, t: Turn): int { if HeaderDelay(r).Some? then HeaderDelay(r).value else t.backoff }

  /** What re-dispatching in turn `t` after reply `r` takes, and the sleep before it. */
  ghost predicate MayRepeat(wants: Reply -> bool, req: Request, o: Options, r: Reply, t: Turn, sleep: int) {
    Wanted(wants, r) && t.rewound && Allowed(req, o, r.resp) && !TooLong(o, r) && t.waited && sleep == SleepFor(r, t)
  }

  /** Each dispatch is its turn's, and each repeat was allowed. */
  ghost predicate Repeats(
      wants: Reply -> bool, req: Request, o: Options, turns: seq<Turn>, replies: seq<Reply>, sleeps: seq<int>) {
    && |replies| <= |turns| && |sleeps| == Max(|replies| - 1, 0)
    && (forall k | 0 <= k < |replies| :: replies[k] == turns[k].reply && !turns[k].cancelled)
    && forall k | 0 <= k < |sleeps| :: MayRepeat(wants, req, o, replies[k], turns[k + 1], sleeps[k])
  }

  /** Why the loop stops in turn `t` instead of dispatching again after `r`: the first reason in its own order. */
  ghost predicate StopsAt(req: Request, o: Options, r: Reply, t: Turn, exit: Exit) {
    match exit
    case RewindFailed => !t.rewound
    case NotAllowed => t.rewound && !Allowed(req, o, r.resp)
    case RetryAfterTooLong => t.rewound && Allowed(req, o, r.resp) && TooLong(o, r)
    case WaitCancelled => t.rewound && Allowed(req, o, r.resp) && !TooLong(o, r) && !t.waited
    case _ => false
  }

  /** Why the loop stopped, after at most `max` dispatches. */
  ghost predicate Stopped(
      wants: Reply -> bool, req: Request, o: Options, max: nat, turns: seq<Turn>, replies: seq<Reply>, exit: Exit)
    requires max <= |turns|
  {
    var n := |replies|;
    if exit.Settled? then 0 < n <= max && !Wanted(wants, replies[n - 1])
    else
      && (n > 0 ==> Wanted(wants, replies[n - 1]))
      && if exit.Exhausted? then n == max
         else n < max && if exit.CancelledAtTop? then turns[n].cancelled
                         else n > 0 && !turns[n].cancelled && StopsAt(req, o, replies[n - 1], turns[n], exit)
  }

  function LastReply(replies: seq<Reply>): Reply { if replies == [] then Reply(None, None) else replies[|replies| - 1] }

  /** Which response is handed to the caller, with which error. */
  predicate Returned(replies: seq<Reply>, exit: Exit, resp: Option<nat>, err: Option<Failure>) {
    var r := LastReply(replies);
    && resp == (if r.resp.Some? && !exit.CancelledAtTop? && !exit.WaitCancelled? then Some(|replies|) else None)
    && err == match exit
              case CancelledAtTop => Some(ContextDone)
              case WaitCancelled => Some(ContextDone)
              case RewindFailed => Some(CannotRewind)
              case RetryAfterTooLong => Some(RetryAfterExceeded)
              case Settled => if r.err.Some? then Some(Plain(r.err.value)) else None
              case NotAllowed => if r.err.Some? then Some(MaxRetriesExceeded(r.err.value)) else None
              case Exhausted => if r.err.Some? then Some(MaxRetriesExceeded(r.err.value)) else None
  }

  /** A run of the loop: its dispatches, its stop, what it hands back. */
  ghost predicate IsRun(
      wants: Reply -> bool, req: Request, o: Options, max: nat, turns: seq<Turn>,
      replies: seq<Reply>, sleeps: seq<int>, exit: Exit, resp: Option<nat>, err: Option<Failure>)
    requires max <= |turns|
  {
    && Repeats(wants, req, o, turns, replies, sleeps) && Stopped(wants, req, o, max, turns, replies, exit)
    && Returned(replies, exit, resp, err)
  }

  // ---- Responses opened and closed ----

  datatype Event = Slept(d: int) | Dispatched(k: nat, answered: bool) | Closed(k: nat)

  /** The responses returned and not closed so far. */
  function Unclosed(trace: seq<Event>): set<nat> {
    if trace == [] then {}
    else
      var before := Unclosed(trace[..|trace| - 1]);
      match trace[|trace| - 1]
      case Slept(_) => before
      case Dispatched(k, answered) => if answered then before + {k} else before
      case Closed(k) => before - {k}
  }

  function CloseLast(replies: seq<Reply>): seq<Event> {
    if LastReply(replies).resp.Some? then [Closed(|replies|)] else []
  }

  /** The events up to and including the last dispatch. */
  function Rounds(replies: seq<Reply>, sleeps: seq<int>): seq<Event>
    requires |sleeps| == Max(|replies| - 1, 0)
  {
    if replies == [] then []
    else
      var n := |replies|;
      var dispatched := [Dispatched(n, replies[n - 1].resp.Some?)];
      if n == 1 then dispatched
      else
        Rounds(replies[..n - 1], sleeps[..n - 2])
        + ([Slept(sleeps[n - 2])] + CloseLast(replies[..n - 1]) + dispatched)
  }

  /** All events of a run. */
  function Trace(replies: seq<Reply>, sleeps: seq<int>, exit: Exit): seq<Event>
    requires |sleeps| == Max(|replies| - 1, 0)
  {
    Rounds(replies, sleeps) + if exit.RewindFailed? || exit.WaitCancelled? then CloseLast(replies) else []
  }

  // ---- The loop ----

  /** `ensureIdempotencyKey`, when the options ask for it. */
  function Prepared(req: Request, o: Options): Request { if o.autoIdempotencyKey then req.(keyed := true) else req }

  /** `calculateRetrySleep`. */
  method CalculateRetrySleep(o: Options, r: Reply, backoff: int) returns (sleep: int, exceeded: bool)
    ensures exceeded <==> TooLong(o, r)
    ensures !exceeded ==> sleep == if HeaderDelay(r).Some? then HeaderDelay(r).value else backoff
  {
    if r.resp.Some? {
      var d := ParseRetryAfter(r.resp.value.retryAfter);
      if d.Some? {
        if o.maxRetryAfter > 0 && d.value > o.maxRetryAfter {
          return 0, true;
        }
        return d.value, false;
      }
    }
    return backoff, false;
  }

  /** The events before the next dispatch. */
  function Between(replies: seq<Reply>, sleep: int): seq<Event> {
    if replies == [] then [] else [Slept(sleep)] + CloseLast(replies)
  }

  function Sleeps(replies: seq<Reply>, sleeps: seq<int>, sleep: int): seq<int> {
    if replies == [] then sleeps else sleeps + [sleep]
  }

  lemma NextRound(
      wants: Reply -> bool, req: Request, o: Options, turns: seq<Turn>, replies: seq<Reply>, sleeps: seq<int>,
      sleep: int)
    requires Repeats(wants, req, o, turns, replies, sleeps) && |replies| < |turns| && !turns[|replies|].cancelled
    requires replies != [] ==> MayRepeat(wants, req, o, LastReply(replies), turns[|replies|], sleep)
    ensures var r := turns[|replies|].reply;
            && Repeats(wants, req, o, turns, replies + [r], Sleeps(replies, sleeps, sleep))
            && Rounds(replies + [r], Sleeps(replies, sleeps, sleep))
               == Rounds(replies, sleeps) + Between(replies, sleep) + [Dispatched(|replies| + 1, r.resp.Some?)]
  {
    var r := turns[|replies|].reply;
    assert (replies + [r])[..|replies|] == replies && (sleeps + [sleep])[..|sleeps|] == sleeps;
  }

  /** What happens between two dispatches: a reason to stop, or the sleep that was taken. */
  method BetweenAttempts(req: Request, o: Options, last: Reply, t: Turn) returns (stop: Option<Exit>, sleep: int)
    ensures match stop
            case Some(exit) => StopsAt(req, o, last, t, exit)
            case None =>
              && t.rewound && Allowed(req, o, last.resp) && !TooLong(o, last) && t.waited
              && sleep == SleepFor(last, t)
  {
    if !t.rewound {
      return Some(RewindFailed), 0;
    }
    var allowed := AllowRetryForMethod(req, o, last.resp);
    if !allowed {
      return Some(NotAllowed), 0;
    }
    var exceeded;
    sleep, exceeded := CalculateRetrySleep(o, last, t.backoff);
    if exceeded {
      return Some(RetryAfterTooLong), 0;
    }
    stop := if t.waited then None else Some(WaitCancelled);
  }

  /** The values handed to the caller. */
  method Conclude(replies: seq<Reply>, exit: Exit) returns (resp: Option<nat>, err: Option<Failure>)
    ensures Returned(replies, exit, resp, err)
  {
    var last := LastReply(replies);
    resp, err := if last.resp.Some? then Some(|replies|) else None, None;
    match exit
    case CancelledAtTop => resp, err := None, Some(ContextDone);
    case WaitCancelled => resp, err := None, Some(ContextDone);
    case RewindFailed => err := Some(CannotRewind);
    case RetryAfterTooLong => err := Some(RetryAfterExceeded);
    case Settled => if last.err.Some? { err := Some(Plain(last.err.value)); }
    case _ => if last.err.Some? { err := Some(MaxRetriesExceeded(last.err.value)); }
  }

  /** The middleware's handler; `sleeps` are the completed ones. */
  method Do(req: Request, o: Options, override: Option<int>, wants: Reply -> bool, turns: seq<Turn>)
    returns (resp: Option<nat>, err: Option<Failure>,
             replies: seq<Reply>, sleeps: seq<int>, trace: seq<Event>, exit: Exit)
    requires o.maxAttempts < WORD && ActiveAttempts(o, override) < WORD - 1 && ActiveAttempts(o, override) <= |turns|
    ensures IsRun(wants, Prepared(req, o), o, ActiveAttempts(o, override), turns, replies, sleeps, exit, resp, err)
    ensures trace == Trace(replies, sleeps, exit)
  {
    replies, sleeps, trace, exit := Loop(Prepared(req, o), o, ActiveAttempts(o, override), wants, turns);
    resp, err := Conclude(replies, exit);
  }

  /** One round of the loop, after the replies `earlier`: the events it adds, and a reason to stop, if any. */
  method Round(
      req: Request, o: Options, ghost max: nat, wants: Reply -> bool, turns: seq<Turn>,
      attempt: nat, earlier: seq<Reply>, slept: seq<int>)
    returns (stop: Option<Exit>, replies: seq<Reply>, sleeps: seq<int>, events: seq<Event>)
    requires attempt == |earlier| + 1 <= max <= |turns| && Repeats(wants, req, o, turns, earlier, slept)
    requires earlier != [] ==> Wanted(wants, LastReply(earlier))
    ensures Repeats(wants, req, o, turns, replies, sleeps)
    ensures match stop
            case Some(exit) =>
              && Stopped(wants, req, o, max, turns, replies, exit)
              && Rounds(earlier, slept) + events == Trace(replies, sleeps, exit)
            case None =>
              && |replies| == attempt && Wanted(wants, LastReply(replies))
              && Rounds(earlier, slept) + events == Rounds(replies, sleeps)
  {
    var t := turns[attempt - 1];
    replies, sleeps, events := earlier, slept, [];
    if t.cancelled {
      return Some(CancelledAtTop), replies, sleeps, events;
    }
    var sleep := 0;
    if attempt > 1 {
      stop, sleep := BetweenAttempts(req, o, LastReply(earlier), t);
      if stop.Some? {
        events := if stop.value.RewindFailed? || stop.value.WaitCancelled? then CloseLast(earlier) else [];
        return;
      }
    }
    NextRound(wants, req, o, turns, earlier, slept, sleep);
    replies, sleeps := earlier + [t.reply], Sleeps(earlier, slept, sleep);
    events := Between(earlier, sleep) + [Dispatched(attempt, t.reply.resp.Some?)];
    stop := if (t.reply.err.Some? && IsFatal(t.reply.err.value)) || !wants(t.reply) then Some(Settled) else None;
  }

  lemma NoWrap(attempt: nat)
    requires attempt < WORD - 1
    ensures (attempt + 1) % WORD == attempt + 1
  {
  }

  method Loop(req: Request, o: Options, max: nat, wants: Reply -> bool, turns: seq<Turn>)
    returns (replies: seq<Reply>, sleeps: seq<int>, trace: seq<Event>, exit: Exit)
    requires max < WORD - 1 && max <= |turns|
    ensures Repeats(wants, req, o, turns, replies, sleeps) && Stopped(wants, req, o, max, turns, replies, exit)
    ensures trace == Trace(replies, sleeps, exit)
  {
    var attempt := 1;
    replies, sleeps, trace := [], [], [];
    while attempt <= max
      invariant attempt == |replies| + 1 && |replies| <= max
      invariant Repeats(wants, req, o, turns, replies, sleeps) && (replies != [] ==> Wanted(wants, LastReply(replies)))
      invariant trace == Rounds(replies, sleeps)
      decreases WORD - attempt
    {
      var stop, events;
      stop, replies, sleeps, events := Round(req, o, max, wants, turns, attempt, replies, sleeps);
      trace := trace + events;
      if stop.Some? {
        return replies, sleeps, trace, stop.value;
      }
      NoWrap(attempt);
      attempt := (attempt + 1) % WORD;
    }
    exit := Exhausted;
  }

  // ---- What the events amount to ----

  /** A dispatch finds no response held, and a close finds the one it closes. */
  predicate StepOk(held: set<nat>, e: Event) { (e.Dispatched? ==> held == {}) && (e.Closed? ==> held == {e.k}) }

  /** Every step is in order, and the numbers of the closed responses increase, all below `bound`. */
  ghost predicate Disciplined(trace: seq<Event>, bound: nat) {
    trace == [] ||
    var before, e := trace[..|trace| - 1], trace[|trace| - 1];
    StepOk(Unclosed(before), e)
    && if e.Closed? then e.k < bound && Disciplined(before, e.k) else Disciplined(before, bound)
  }

  lemma {:induction false} Weaken(trace: seq<Event>, bound: nat, bound': nat)
    requires Disciplined(trace, bound) && bound <= bound'
    ensures Disciplined(trace, bound')
  {
    if trace != [] && !trace[|trace| - 1].Closed? {
      Weaken(trace[..|trace| - 1], bound, bound');
    }
  }

  lemma OneMoreEvent(trace: seq<Event>, bound: nat, e: Event, bound': nat)
    requires Disciplined(trace, bound) && StepOk(Unclosed(trace), e) && bound <= bound'
    requires e.Closed? ==> bound <= e.k < bound'
    ensures Disciplined(trace + [e], bound')
    ensures Unclosed(trace + [e]) == match e
                                     case Slept(_) => Unclosed(trace)
                                     case Dispatched(k, answered) => if answered then {k} else {}
                                     case Closed(_) => {}
  {
    assert (trace + [e])[..|trace|] == trace;
    Weaken(trace, bound, if e.Closed? then e.k else bound');
  }

  lemma {:induction false} ClosedAreBelow(trace: seq<Event>, bound: nat, k: nat)
    requires Disciplined(trace, bound) && Closed(k) in trace
    ensures k < bound
  {
    var n := |trace| - 1;
    if trace[n] != Closed(k) {
      assert Closed(k) in trace[..n];
      ClosedAreBelow(trace[..n], if trace[n].Closed? then trace[n].k else bound, k);
    }
  }

  /** At most one response is unclosed; a close hits the unclosed one, and never one that was closed before. */
  ghost predicate InOrder(trace: seq<Event>, i: nat)
    requires i <= |trace|
  {
    && |Unclosed(trace[..i])| <= 1
    && (i < |trace| && trace[i].Closed? ==> trace[i].k in Unclosed(trace[..i]) && trace[i] !in trace[..i])
  }

  lemma {:induction false} DisciplineHoldsOne(trace: seq<Event>, bound: nat)
    requires Disciplined(trace, bound)
    ensures |Unclosed(trace)| <= 1
  {
    if trace != [] {
      var e := trace[|trace| - 1];
      DisciplineHoldsOne(trace[..|trace| - 1], if e.Closed? then e.k else bound);
    }
  }

  lemma {:induction false} PrefixIsDisciplined(trace: seq<Event>, bound: nat, i: nat)
    requires Disciplined(trace, bound) && i <= |trace|
    ensures Disciplined(trace[..i], bound)
  {
    var n := |trace| - 1;
    if i <= n {
      PrefixIsDisciplined(trace[..n], if trace[n].Closed? then trace[n].k else bound, i);
      assert trace[..n][..i] == trace[..i];
      Weaken(trace[..i], if trace[n].Closed? then trace[n].k else bound, bound);
    } else {
      assert trace[..i] == trace;
    }
  }

  lemma DisciplineMeans(trace: seq<Event>, bound: nat, i: nat)
    requires Disciplined(trace, bound) && i <= |trace|
    ensures InOrder(trace, i)
  {
    PrefixIsDisciplined(trace, bound, i);
    DisciplineHoldsOne(trace[..i], bound);
    if i < |trace| && trace[i].Closed? {
      PrefixIsDisciplined(trace, bound, i + 1);
      assert trace[..i + 1][..i] == trace[..i];
      if trace[i] in trace[..i] {
        ClosedAreBelow(trace[..i], trace[i].k, trace[i].k);
      }
    }
  }

  /** The response held after the rounds is the last reply's. */
  function Held(replies: seq<Reply>): set<nat> { if LastReply(replies).resp.Some? then {|replies|} else {} }

  lemma CloseLastIsDisciplined(trace: seq<Event>, replies: seq<Reply>)
    requires Disciplined(trace, |replies|) && Unclosed(trace) == Held(replies)
    ensures Disciplined(trace + CloseLast(replies), |replies| + 1) && Unclosed(trace + CloseLast(replies)) == {}
  {
    if LastReply(replies).resp.Some? {
      OneMoreEvent(trace, |replies|, Closed(|replies|), |replies| + 1);
    } else {
      Weaken(trace, |replies|, |replies| + 1);
      assert trace + [] == trace;
    }
  }

  lemma NextRoundIsDisciplined(rounds: seq<Event>, earlier: seq<Reply>, sleep: int, answered: bool)
    requires Disciplined(rounds, |earlier|) && Unclosed(rounds) == Held(earlier)
    ensures var n := |earlier| + 1;
            var longer := rounds + [Slept(sleep)] + CloseLast(earlier) + [Dispatched(n, answered)];
            Disciplined(longer, n) && Unclosed(longer) == if answered then {n} else {}
  {
    var n := |earlier| + 1;
    OneMoreEvent(rounds, n - 1, Slept(sleep), n - 1);
    CloseLastIsDisciplined(rounds + [Slept(sleep)], earlier);
    OneMoreEvent(rounds + [Slept(sleep)] + CloseLast(earlier), n, Dispatched(n, answered), n);
  }

  lemma {:induction false} RoundsAreDisciplined(replies: seq<Reply>, sleeps: seq<int>)
    requires |sleeps| == Max(|replies| - 1, 0)
    ensures Disciplined(Rounds(replies, sleeps), |replies|) && Unclosed(Rounds(replies, sleeps)) == Held(replies)
  {
    var n := |replies|;
    if n == 1 {
      OneMoreEvent([], 0, Dispatched(1, replies[0].resp.Some?), 1);
      assert [] + [Dispatched(1, replies[0].resp.Some?)] == Rounds(replies, sleeps);
    } else if n > 1 {
      var earlier, slept := replies[..n - 1], sleeps[..n - 2];
      RoundsAreDisciplined(earlier, slept);
      NextRoundIsDisciplined(Rounds(earlier, slept), earlier, sleeps[n - 2], replies[n - 1].resp.Some?);
      assert Rounds(replies, sleeps) == Rounds(earlier, slept) + [Slept(sleeps[n - 2])] + CloseLast(earlier)
                                        + [Dispatched(n, replies[n - 1].resp.Some?)];
    }
  }

  /** At every moment at most one response is unclosed, each close hits an unclosed one, and none is closed twice. */
  lemma AtMostOneUnclosed(replies: seq<Reply>, sleeps: seq<int>, exit: Exit, i: nat)
    requires |sleeps| == Max(|replies| - 1, 0) && i <= |Trace(replies, sleeps, exit)|
    ensures InOrder(Trace(replies, sleeps, exit), i)
  {
    var rounds, trace := Rounds(replies, sleeps), Trace(replies, sleeps, exit);
    RoundsAreDisciplined(replies, sleeps);
    CloseLastIsDisciplined(rounds, replies);
    assert rounds + [] == rounds;
    Weaken(rounds, |replies|, |replies| + 1);
    DisciplineMeans(trace, |replies| + 1, i);
  }

  /** The first `n` turns lead to `n` dispatches, and the last of them is to be retried. */
  ghost predicate Reaches(wants: Reply -> bool, req: Request, o: Options, turns: seq<Turn>, n: nat)
    requires n <= |turns|
  {
    && (forall k | 0 <= k < n :: !turns[k].cancelled && Wanted(wants, turns[k].reply))
    && forall k | 0 < k < n ::
         var r, t := turns[k - 1].reply, turns[k]; MayRepeat(wants, req, o, r, t, SleepFor(r, t))
  }

  /** The context is found done at the top of a round that still holds a response. */
  ghost predicate CancelledHolding(wants: Reply -> bool, req: Request, o: Options, turns: seq<Turn>, n: nat)
    requires 0 < n < |turns|
  {
    Reaches(wants, req, o, turns, n) && turns[n].cancelled && turns[n - 1].reply.resp.Some?
  }

  lemma TurnsDecideTheStop(
      wants: Reply -> bool, req: Request, o: Options, max: nat, turns: seq<Turn>, replies: seq<Reply>, sleeps: seq<int>,
      exit: Exit, n: nat)
    requires max <= |turns| && Repeats(wants, req, o, turns, replies, sleeps)
    requires Stopped(wants, req, o, max, turns, replies, exit)
    requires 0 < n < max && Reaches(wants, req, o, turns, n) && turns[n].cancelled
    ensures |replies| == n && exit.CancelledAtTop?
  {
    var m := |replies|;
    assert m > 0 ==> replies[m - 1] == turns[m - 1].reply;
  }

  /**
   Which responses a run leaves unclosed: the one it returns, unless rewinding failed (then it returns the one it
   closed); and one that it does not return if and only if its turns make it find the context done at the top of a round
   while it holds a response.
   */
  lemma LeftUnclosed(
      wants: Reply -> bool, req: Request, o: Options, max: nat, turns: seq<Turn>,
      replies: seq<Reply>, sleeps: seq<int>, exit: Exit, resp: Option<nat>, err: Option<Failure>)
    requires max <= |turns| && IsRun(wants, req, o, max, turns, replies, sleeps, exit, resp, err)
    ensures var left := Unclosed(Trace(replies, sleeps, exit));
            && ((exists k :: k in left && resp != Some(k))
                <==> exists n :: 0 < n < max && CancelledHolding(wants, req, o, turns, n))
            && (resp.Some? ==> (resp.value in left <==> !exit.RewindFailed?))
  {
    RoundsAreDisciplined(replies, sleeps);
    CloseLastIsDisciplined(Rounds(replies, sleeps), replies);
    assert Rounds(replies, sleeps) + [] == Rounds(replies, sleeps);
    var left := Unclosed(Trace(replies, sleeps, exit));
    if k :| k in left && resp != Some(k) {
      RunReaches(wants, req, o, turns, replies, sleeps);
      assert CancelledHolding(wants, req, o, turns, |replies|);
    }
    if n :| 0 < n < max && CancelledHolding(wants, req, o, turns, n) {
      TurnsDecideTheStop(wants, req, o, max, turns, replies, sleeps, exit, n);
      assert n in left && resp != Some(n);
    }
  }

  lemma RunReaches(
      wants: Reply -> bool, req: Request, o: Options, turns: seq<Turn>, replies: seq<Reply>, sleeps: seq<int>)
    requires Repeats(wants, req, o, turns, replies, sleeps) && (replies != [] ==> Wanted(wants, LastReply(replies)))
    ensures Reaches(wants, req, o, turns, |replies|)
  {
    forall k | 0 <= k < |replies| ensures !turns[k].cancelled && Wanted(wants, turns[k].reply) {
      assert k < |sleeps| ==> MayRepeat(wants, req, o, replies[k], turns[k + 1], sleeps[k]);
    }
    forall k | 0 < k < |replies|
      ensures var r, t := turns[k - 1].reply, turns[k]; MayRepeat(wants, req, o, r, t, SleepFor(r, t))
    {
      assert MayRepeat(wants, req, o, replies[k - 1], turns[k], sleeps[k - 1]);
    }
  }

  /** Such a run: a GET answered with 503, and a context done before the second round. */
  lemma CancellationDropsTheResponse()
    returns (o: Options, turns: seq<Turn>, replies: seq<Reply>, resp: Option<nat>, err: Option<Failure>)
    ensures |turns| == 2 && |replies| == 1
    ensures IsRun(_ => true, Request("GET", false, false), o, 2, turns, replies, [], CancelledAtTop, resp, err)
    ensures resp.None? && Unclosed(Trace(replies, [], CancelledAtTop)) == {1}
  {
    var reply := Reply(Some(Response(503, Absent)), None);
    o := Options(2, 0, 0, [], false);
    turns, replies := [Turn(false, true, true, 0, reply), Turn(true, true, true, 0, reply)], [reply];
    resp, err := None, Some(ContextDone);
    RoundsAreDisciplined(replies, []);
    assert Rounds(replies, []) + [] == Rounds(replies, []);
  }

  /** Without a method list, a key, an idempotent method or a permission, only a 429 or 425 reply is tried again. */
  lemma UnsafeMethodsRepeatOnlyWhenRefused(
      wants: Reply -> bool, req: Request, o: Options, turns: seq<Turn>, replies: seq<Reply>, sleeps: seq<int>, k: nat)
    requires Repeats(wants, Prepared(req, o), o, turns, replies, sleeps) && k + 1 < |replies|
    requires o.allowedMethods == [] && !o.autoIdempotencyKey
    requires !Idempotent(req.verb) && !req.keyed && !req.allowNonReadOnlyHedging
    ensures replies[k].resp.Some? && (replies[k].resp.value.status == 429 || replies[k].resp.value.status == 425)
  {
    assert MayRepeat(wants, Prepared(req, o), o, replies[k], turns[k + 1], sleeps[k]);
  }

  /**
   A sleep asked for by the server is the header's own delay (the saturated product for seconds, the time left for a
   date) and within the configured limit; without a usable header it is the backoff's.
   */
  lemma SleepsFollowTheHeader(
      wants: Reply -> bool, req: Request, o: Options, turns: seq<Turn>, replies: seq<Reply>, sleeps: seq<int>, k: nat)
    requires Repeats(wants, req, o, turns, replies, sleeps) && k < |sleeps|
    ensures var h := if replies[k].resp.Some? then replies[k].resp.value.retryAfter else Absent;
            && (h.Number? && h.v >= 0 ==> sleeps[k] == Min(h.v * 1_000_000_000, 0x7FFF_FFFF_FFFF_FFFF))
            && (h.Date? ==> sleeps[k] == Max(h.left, 0))
            && (h.Absent? || h.Unreadable? ==> sleeps[k] == turns[k + 1].backoff)
            && (o.maxRetryAfter > 0 && ((h.Number? && h.v >= 0) || h.Date?) ==> sleeps[k] <= o.maxRetryAfter)
  {
    assert MayRepeat(wants, req, o, replies[k], turns[k + 1], sleeps[k]);
  }

  // ---- When the counter can pass its limit ----

  /** The counter at the head of the loop after `k` rounds. */
  function Counter(k: nat): nat { if k == 0 then 1 else (Counter(k - 1) + 1) % WORD }

  lemma {:induction false} CounterBelowWrap(k: nat)
    ensures Counter(k) < WORD && (k < WORD - 1 ==> Counter(k) == k + 1)
  {
    if k > 0 {
      CounterBelowWrap(k - 1);
    }
  }

  /** The loop condition fails at some point if and only if the limit is below 2^32 - 1. */
  lemma LoopIsBoundedExactlyWhen(max: nat)
    requires max < WORD
    ensures (exists k :: Counter(k) > max) <==> max < WORD - 1
  {
    CounterBelowWrap(max);
    forall k ensures Counter(k) < WORD { CounterBelowWrap(k); }
  }

  // ---- The rules by name and number ----

  /** Repeated without a list of methods: six idempotent methods, keyed or permitted requests, and after 429 or 425. */
  lemma AllowedMeaning(req: Request, o: Options, resp: Option<Response>)
    ensures o.allowedMethods == [] ==>
              (Allowed(req, o, resp) <==>
                 || req.verb == "GET" || req.verb == "HEAD" || req.verb == "PUT" || req.verb == "DELETE"
                 || req.verb == "OPTIONS" || req.verb == "TRACE" || req.keyed || req.allowNonReadOnlyHedging
                 || (resp.Some? && resp.value.status in [429, 425]))
    ensures o.allowedMethods != [] ==>
              (Allowed(req, o, resp) <==>
                 exists i :: 0 <= i < |o.allowedMethods| && EqualFold(o.allowedMethods[i], req.verb))
  {
    forall i | 0 <= i < |o.allowedMethods|
      ensures ToLower(o.allowedMethods[i]) == ToLower(req.verb) <==> EqualFold(o.allowedMethods[i], req.verb)
    {
      ToLowerMeaning(o.allowedMethods[i], req.verb);
    }
    if i :| 0 <= i < |o.allowedMethods| && EqualFold(o.allowedMethods[i], req.verb) {
      assert ToLower(o.allowedMethods[i]) == ToLower(req.verb);
    }
  }

  /** With an automatic key and no list of methods, every request may be repeated. */
  lemma AutomaticKeyAllows(req: Request, o: Options, resp: Option<Response>)
    requires o.autoIdempotencyKey && o.allowedMethods == []
    ensures Allowed(Prepared(req, o), o, resp)
    ensures Prepared(req, o).verb == req.verb
  {
  }

  /**
   A blocked address, a cancelled context or an untrusted certificate ends the run with that error, and so does a reply
   that the condition does not ask to retry; any other reply is repeated unless something stops the loop.
   */
  lemma RepliesDecide(
      wants: Reply -> bool, req: Request, o: Options, max: nat, turns: seq<Turn>,
      replies: seq<Reply>, sleeps: seq<int>, exit: Exit, resp: Option<nat>, err: Option<Failure>, k: nat)
    requires max <= |turns| && IsRun(wants, req, o, max, turns, replies, sleeps, exit, resp, err) && k < |replies|
    ensures var r := replies[k];
            var final := (r.err.Some? && (r.err.value == SsrfBlocked || r.err.value == Canceled
                                          || r.err.value == BadCertificate || r.err.value == UnknownAuthority))
                         || !wants(r);
            && (final ==> k == |replies| - 1 && exit.Settled?)
            && (final && r.err.Some? ==> err == Some(Plain(r.err.value)))
            && (final && r.err.None? ==> err.None?)
            && (final ==> resp == if r.resp.Some? then Some(k + 1) else None)
            && (!final ==> !exit.Settled? || k < |replies| - 1)
  {
    if k < |replies| - 1 {
      assert MayRepeat(wants, req, o, replies[k], turns[k + 1], sleeps[k]);
    }
  }

  /** A repeat takes a rewound body, a sleep that was not cut short, and a live context; and each turn its own reply. */
  lemma RepeatsTakeTheirTurn(
      wants: Reply -> bool, req: Request, o: Options, turns: seq<Turn>, replies: seq<Reply>, sleeps: seq<int>, k: nat)
    requires Repeats(wants, req, o, turns, replies, sleeps) && k < |replies|
    ensures k < |turns| && replies[k] == turns[k].reply && !turns[k].cancelled
    ensures k > 0 ==> turns[k].rewound && turns[k].waited
  {
    if k > 0 {
      assert MayRepeat(wants, req, o, replies[k - 1], turns[k], sleeps[k - 1]);
    }
  }

  /** The error that goes with each way out. */
  lemma ErrorsByExit(
      wants: Reply -> bool, req: Request, o: Options, max: nat, turns: seq<Turn>,
      replies: seq<Reply>, sleeps: seq<int>, exit: Exit, resp: Option<nat>, err: Option<Failure>)
    requires max <= |turns| && IsRun(wants, req, o, max, turns, replies, sleeps, exit, resp, err)
    ensures |replies| < max && turns[|replies|].cancelled && exit.CancelledAtTop? ==> err == Some(ContextDone)
    ensures exit.WaitCancelled? ==> !turns[|replies|].waited && err == Some(ContextDone) && resp.None?
    ensures exit.RewindFailed? ==> !turns[|replies|].rewound && err == Some(CannotRewind)
    ensures exit.RetryAfterTooLong? ==> err == Some(RetryAfterExceeded)
    ensures (exit.Exhausted? || exit.NotAllowed?) && replies != [] ==>
              var last := replies[|replies| - 1];
              err == if last.err.Some? then Some(MaxRetriesExceeded(last.err.value)) else None
    ensures max == 0 ==> replies == [] && resp.None? && err.None?
  {
  }

  /** How many attempts the options stand for: the limit, else one more than the retries, and at least one. */
  lemma BuiltAttemptsMeaning(o: Options)
    requires o.maxAttempts < WORD && o.maxRetries < WORD
    ensures BuiltAttempts(o) ==
            if o.maxAttempts > 0 then o.maxAttempts
            else if 0 < o.maxRetries < WORD - 1 then o.maxRetries + 1
            else 1
    ensures forall override: int | override > 0 :: ActiveAttempts(o, Some(override)) == override % WORD
    ensures forall override: int | override <= 0 :: ActiveAttempts(o, Some(override)) == BuiltAttempts(o)
    ensures ActiveAttempts(o, None) == BuiltAttempts(o)
  {
  }
}

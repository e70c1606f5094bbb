/**
 The proxy rotator: a wrapping 32-bit round-robin counter over `n` clients, with sticky sessions, health and
 domain cooldowns. The counter starts a call at `c`, and no other call advances it meanwhile.
 */
module ProxyRotator {
  import opened Prelude

  // ---- The counter ----

  /** Bitwise and. */
  function And(x: nat, y: nat): nat {
    if x == 0 || y == 0 then 0
    else (if x % 2 == 1 && y % 2 == 1 then 1 else 0) + 2 * And(x / 2, y / 2)
  }

  /** The code's test `n & (n - 1) == 0`. */
  predicate IsPowerOfTwo(n: nat)
    requires n > 0
  {
    And(n, n - 1) == 0
  }

  /** The client index computed from counter value `c` (before the increment). */
  function Index(n: nat, c: nat): nat
    requires 0 < n && c < WORD
  {
    if IsPowerOfTwo(n) then And(((c + 1) % WORD + WORD - 1) % WORD, n - 1) else (c + 1) % WORD % n
  }

  lemma {:induction false} AndSelf(x: nat)
    ensures And(x, x) == x
  {
    if x > 0 {
      AndSelf(x / 2);
    }
  }

  lemma {:induction false} HalfOfPower(n: nat)
    requires n > 1 && IsPowerOfTwo(n)
    ensures n % 2 == 0 && IsPowerOfTwo(n / 2)
  {
    if n % 2 == 1 {
      assert (n - 1) / 2 == n / 2;
      AndSelf(n / 2);
    } else {
      assert (n - 1) / 2 == n / 2 - 1;
    }
  }

  lemma ModHalves(x: nat, m: nat)
    requires m > 0
    ensures x % (2 * m) == x % 2 + 2 * (x / 2 % m)
  {
    var q, r := x / 2 / m, x / 2 % m;
    assert x / 2 == q * m + r;
    assert x == 2 * (x / 2) + x % 2;
    assert x == q * (2 * m) + (2 * r + x % 2);
    ModUnique(x, 2 * m, q, 2 * r + x % 2);
  }

  lemma {:induction false} MulGap(a: nat, b: nat, n: nat)
    requires a < b
    ensures a * n + n <= b * n
  {
    if a + 1 < b {
      MulGap(a, b - 1, n);
      assert (b - 1) * n + n == b * n;
    } else {
      assert (a + 1) * n == a * n + n;
    }
  }

  lemma ModUnique(x: nat, n: nat, q: nat, r: nat)
    requires 0 < n && r < n && x == q * n + r
    ensures x % n == r && x / n == q
  {
    var q' := x / n;
    assert x == q' * n + x % n;
    if q < q' {
      MulGap(q, q', n);
    } else if q' < q {
      MulGap(q', q, n);
    }
  }

  /** Masking with `n - 1` is taking the remainder, whenever `n` passes the power-of-two test. */
  lemma {:induction false} MaskIsModulo(x: nat, n: nat)
    requires n > 0 && IsPowerOfTwo(n)
    ensures And(x, n - 1) == x % n
    decreases n
  {
    if n > 1 {
      HalfOfPower(n);
      MaskIsModulo(x / 2, n / 2);
      ModHalves(x, n / 2);
      assert (n - 1) / 2 == n / 2 - 1;
      assert And(x / 2, n / 2 - 1) == x / 2 % (n / 2);
      if x > 0 {
        assert And(x, n - 1) == (if x % 2 == 1 then 1 else 0) + 2 * And(x / 2, (n - 1) / 2);
      }
    }
  }

  function Pow2(k: nat): nat { if k == 0 then 1 else 2 * Pow2(k - 1) }

  /** The power-of-two test picks out exactly the divisors of a power of two. */
  lemma {:induction false} PowersDivide(n: nat, k: nat)
    requires 0 < n <= Pow2(k)
    ensures IsPowerOfTwo(n) <==> Pow2(k) % n == 0
    decreases k
  {
    if n == 1 {
    } else if n % 2 == 0 {
      PowersDivide(n / 2, k - 1);
      ModHalves(Pow2(k), n / 2);
      assert (n - 1) / 2 == n / 2 - 1 && Pow2(k) / 2 == Pow2(k - 1) && Pow2(k) % 2 == 0;
      assert Pow2(k) % n == 2 * (Pow2(k - 1) % (n / 2));
      assert And(n, n - 1) == 2 * And(n / 2, n / 2 - 1);
    } else {
      assert (n - 1) / 2 == n / 2;
      AndSelf(n / 2);
      OddDividesNoPower(n, k);
    }
  }

  lemma DoubleMod(x: nat, n: nat)
    requires n > 0
    ensures 2 * x % n == if 2 * (x % n) < n then 2 * (x % n) else 2 * (x % n) - n
  {
    var q, r := x / n, x % n;
    Split(x, n);
    assert (2 * q) * n == q * n + q * n;
    if 2 * r < n {
      ModUnique(2 * x, n, 2 * q, 2 * r);
    } else {
      assert (2 * q + 1) * n == (2 * q) * n + n;
      ModUnique(2 * x, n, 2 * q + 1, 2 * r - n);
    }
  }

  lemma Split(x: nat, n: nat)
    requires n > 0
    ensures x == x / n * n + x % n
  {
  }

  lemma {:induction false} OddDividesNoPower(n: nat, k: nat)
    requires n > 1 && n % 2 == 1
    ensures Pow2(k) % n != 0
  {
    if k > 0 {
      OddDividesNoPower(n, k - 1);
      DoubleMod(Pow2(k - 1), n);
    }
  }

  // ---- Which clients a call visits ----

  /** The index computed in round `i` of a call that found the counter at `c`. */
  function Visit(n: nat, c: nat, i: nat): nat
    requires 0 < n && c < WORD
  {
    Index(n, (c + i) % WORD)
  }

  /** The counter after `m` increments. */
  function Counter(c: nat, m: nat): nat { if m == 0 then c else (Counter(c, m - 1) + 1) % WORD }

  lemma {:induction false} CounterIs(c: nat, m: nat)
    requires c < WORD
    ensures Counter(c, m) == (c + m) % WORD
  {
    if m > 0 {
      CounterIs(c, m - 1);
      CounterStep(c + m - 1);
    }
  }

  lemma CounterStep(x: nat)
    ensures (x % WORD + 1) % WORD == (x + 1) % WORD
  {
  }

  /** The `n` rounds of a call visit every client exactly once. */
  ghost predicate EachOnce(n: nat, c: nat)
    requires 0 < n && c < WORD
  {
    forall i, j | 0 <= i < j < n :: Visit(n, c, i) != Visit(n, c, j)
  }

  lemma WordIsPower()
    ensures WORD == Pow2(32)
  {
    assert Pow2(8) == 256;
    assert Pow2(16) == 0x1_0000;
    assert Pow2(24) == 0x100_0000;
  }

  lemma NearbyDiffer(a: nat, b: nat, n: nat)
    requires a < b < a + n
    ensures a % n != b % n
  {
    var q, r := a / n, a % n;
    assert a == q * n + r;
    if r + (b - a) < n {
      ModUnique(b, n, q, r + (b - a));
    } else {
      assert b == (q + 1) * n + (r + (b - a) - n);
      ModUnique(b, n, q + 1, r + (b - a) - n);
    }
  }

  lemma AddMultiple(y: nat, t: nat, n: nat)
    requires n > 0
    ensures (y + t * n) % n == y % n
  {
    Split(y, n);
    assert (y / n + t) * n == y / n * n + t * n;
    ModUnique(y + t * n, n, y / n + t, y % n);
  }

  lemma Associate(q: nat, k: nat, n: nat)
    ensures q * (k * n) == (q * k) * n
  {
  }

  lemma ModOfMod(x: nat, m: nat, n: nat)
    requires 0 < n && 0 < m && m % n == 0
    ensures x % m % n == x % n
  {
    Split(x, m);
    Split(m, n);
    Associate(x / m, m / n, n);
    AddMultiple(x % m, (x / m) * (m / n), n);
  }

  lemma VisitsInRange(n: nat, c: nat, i: nat)
    requires 0 < n <= WORD && c < WORD
    ensures Visit(n, c, i) < n
    ensures IsPowerOfTwo(n) ==> Visit(n, c, i) == (c + i) % n
  {
    var x := (c + i) % WORD;
    if IsPowerOfTwo(n) {
      assert ((x + 1) % WORD + WORD - 1) % WORD == x;
      MaskIsModulo(x, n);
      WordIsPower();
      PowersDivide(n, 32);
      ModOfMod(c + i, WORD, n);
    }
  }

  lemma PowerOfTwoVisitsDiffer(n: nat, c: nat, i: nat, j: nat)
    requires 0 < n <= WORD && c < WORD && IsPowerOfTwo(n) && i < j < n
    ensures Visit(n, c, i) != Visit(n, c, j)
  {
    VisitsInRange(n, c, i);
    VisitsInRange(n, c, j);
    NearbyDiffer(c + i, c + j, n);
  }

  /** A power-of-two pool is visited evenly from every counter value, also across the wrap. */
  lemma PowerOfTwoVisitsEachOnce(n: nat, c: nat)
    requires 0 < n <= WORD && c < WORD && IsPowerOfTwo(n)
    ensures EachOnce(n, c)
  {
    forall i, j | 0 <= i < j < n ensures Visit(n, c, i) != Visit(n, c, j) {
      PowerOfTwoVisitsDiffer(n, c, i, j);
    }
  }

  /** Any other pool: the counter must not wrap between two rounds of the call. */
  predicate NoWrapInside(n: nat, c: nat) { c + n < WORD || c == WORD - 1 }

  lemma CounterAfter(c: nat, i: nat)
    requires c < WORD && i < WORD
    ensures ((c + i) % WORD + 1) % WORD == if c + 1 + i < WORD then c + 1 + i else c + 1 + i - WORD
  {
  }

  lemma VisitOtherwise(n: nat, c: nat, i: nat)
    requires 0 < n < WORD && c < WORD && i < n && !IsPowerOfTwo(n)
    ensures Visit(n, c, i) == (if c + 1 + i < WORD then c + 1 + i else c + 1 + i - WORD) % n
  {
    CounterAfter(c, i);
  }

  lemma NoWrapVisitsEachOnce(n: nat, c: nat)
    requires 0 < n < WORD && c < WORD && !IsPowerOfTwo(n) && NoWrapInside(n, c)
    ensures EachOnce(n, c)
  {
    forall i, j | 0 <= i < j < n ensures Visit(n, c, i) != Visit(n, c, j) {
      VisitOtherwise(n, c, i);
      VisitOtherwise(n, c, j);
      if c == WORD - 1 {
        NearbyDiffer(i, j, n);
      } else {
        NearbyDiffer(c + 1 + i, c + 1 + j, n);
      }
    }
  }

  /** The last value before the wrap and the value r - 1 after it, when that comes early enough. */
  lemma EarlyCollision(n: nat, c: nat, k: nat, q: nat, r: nat)
    requires 0 < n < WORD && c < WORD && !IsPowerOfTwo(n) && k == WORD - 1 - c && WORD == q * n + r && 0 < r < n
    requires 0 < k < n && r - 1 < n - k
    ensures Visit(n, c, k - 1) == Visit(n, c, k + r - 1)
  {
    VisitOtherwise(n, c, k - 1);
    VisitOtherwise(n, c, k + r - 1);
    ModUnique(WORD - 1, n, q, r - 1);
    ModUnique(r - 1, n, 0, r - 1);
  }

  /** Otherwise the value with remainder n - k - 1 before the wrap, and n - k - 1 itself after it. */
  lemma LateCollision(n: nat, c: nat, k: nat, q: nat, r: nat)
    requires 0 < n < WORD && c < WORD && !IsPowerOfTwo(n) && k == WORD - 1 - c && WORD == q * n + r && 0 < r < n
    requires 0 < k < n && n - k <= r - 1
    ensures Visit(n, c, n - 1 - r) == Visit(n, c, n - 1)
  {
    VisitOtherwise(n, c, n - 1 - r);
    VisitOtherwise(n, c, n - 1);
    ModUnique(c + n - r, n, q, n - k - 1);
    ModUnique(n - k - 1, n, 0, n - k - 1);
  }

  /** Across a wrap two rounds collide, so some client is visited twice and some client not at all. */
  lemma WrapVisitsTwice(n: nat, c: nat)
    requires 0 < n < WORD && c < WORD && !IsPowerOfTwo(n) && !NoWrapInside(n, c)
    ensures !EachOnce(n, c)
  {
    var k, q, r := WORD - 1 - c, WORD / n, WORD % n;
    assert WORD == q * n + r && r > 0 by {
      WordIsPower();
      PowersDivide(n, 32);
    }
    if r - 1 < n - k {
      EarlyCollision(n, c, k, q, r);
    } else {
      LateCollision(n, c, k, q, r);
    }
  }

  /** A call visits every client exactly once iff the pool is a power of two or the counter does not wrap inside it. */
  lemma RotationIsEvenExactlyWhen(n: nat, c: nat)
    requires 0 < n < WORD && c < WORD
    ensures EachOnce(n, c) <==> IsPowerOfTwo(n) || NoWrapInside(n, c)
  {
    if IsPowerOfTwo(n) {
      PowerOfTwoVisitsEachOnce(n, c);
    } else if NoWrapInside(n, c) {
      NoWrapVisitsEachOnce(n, c);
    } else {
      WrapVisitsTwice(n, c);
    }
  }

  // ---- One call ----

  datatype Error = Canceled | Transport(text: string)

  /** What the call finds at a client: its health, its cooldown for the domain, or what a dispatch gave back. */
  datatype Probe = Unavailable | CooledDown | Reply(status: Option<int>, err: Option<Error>)

  /** `isProxyFault`. */
  predicate IsFault(p: Probe)
    requires p.Reply?
  {
    if p.err.Some? then !p.err.value.Canceled?
    else p.status.Some? && p.status.value in {407, 429, 502, 503, 504}
  }

  /** The client could not serve the call: skipped, or tried at fault (and then its response is closed). */
  predicate Missed(p: Probe) { p.Reply? ==> IsFault(p) }

  /** One client looked at; `closed` says that `handleProxyResult` closed its response. */
  datatype Look = Look(client: nat, probe: Probe, closed: bool)

  function Handled(client: nat, p: Probe): Look { Look(client, p, p.Reply? && IsFault(p) && p.status.Some?) }

  datatype Outcome = NoClients | Sent(client: nat, probe: Probe) | AllFailed(err: Error) | AllCooled | NoneHealthy

  /** The error of the latest faulty dispatch; a fault by status code carries none. */
  function LastErr(looks: seq<Look>): Option<Error> {
    if looks == [] then None
    else
      var p := looks[|looks| - 1].probe;
      if p.Reply? && IsFault(p) then p.err else LastErr(looks[..|looks| - 1])
  }

  /** `getStickyClientIndex`; an empty session id means no session. */
  function StickyClient(sessions: map<string, nat>, session: string): Option<nat> {
    if session != "" && session in sessions then Some(sessions[session]) else None
  }

  /** The try at the sticky client, if the pool has it. */
  function StickyLooks(n: nat, sticky: Option<nat>, probe: (nat, nat) -> Probe): seq<Look> {
    if sticky.Some? && sticky.value < n then [Handled(sticky.value, probe(0, sticky.value))] else []
  }

  /** The sticky client is not looked at again. */
  function LooksOfRound(v: nat, sticky: Option<nat>, probe: (nat, nat) -> Probe, m: nat): seq<Look> {
    if sticky == Some(v) then [] else [Handled(v, probe(m, v))]
  }

  /** The clients the first `m` rounds look at: each round's index, except the sticky one. */
  function RoundLooks(n: nat, c: nat, sticky: Option<nat>, probe: (nat, nat) -> Probe, m: nat): seq<Look>
    requires 0 < n && c < WORD
  {
    if m == 0 then []
    else
      RoundLooks(n, c, sticky, probe, m - 1) + LooksOfRound(Visit(n, c, m - 1), sticky, probe, m)
  }

  lemma RoundStep(n: nat, c: nat, sticky: Option<nat>, probe: (nat, nat) -> Probe, m: nat)
    requires 0 < n && c < WORD
    ensures RoundLooks(n, c, sticky, probe, m + 1)
            == RoundLooks(n, c, sticky, probe, m) + LooksOfRound(Visit(n, c, m), sticky, probe, m + 1)
  {
  }

  predicate AllMissed(looks: seq<Look>) { forall k | 0 <= k < |looks| :: Missed(looks[k].probe) }

  predicate AnyCooled(looks: seq<Look>) { exists k | 0 <= k < |looks| :: looks[k].probe.CooledDown? }

  function FailureOf(looks: seq<Look>, inRounds: seq<Look>): Outcome {
    if LastErr(looks).Some? then AllFailed(LastErr(looks).value)
    else if AnyCooled(inRounds) then AllCooled
    else NoneHealthy
  }

  class Rotator {
    var current: nat
    var sessions: map<string, nat>

    constructor ()
      ensures current == 0 && sessions == map[]
    {
      current, sessions := 0, map[];
    }

    /** `r.current.Add(1)` and the index computed from it, in round `m` of a call that found the counter at `c`. */
    method Advance(n: nat, ghost c: nat, ghost m: nat, ghost sticky: Option<nat>, ghost probe: (nat, nat) -> Probe)
      returns (idx: nat)
      requires 0 < n && c < WORD && current == Counter(c, m)
      modifies this`current
      ensures idx == Visit(n, c, m) && current == Counter(c, m + 1)
      ensures RoundLooks(n, c, sticky, probe, m + 1)
              == RoundLooks(n, c, sticky, probe, m) + LooksOfRound(idx, sticky, probe, m + 1)
    {
      CounterIs(c, m);
      idx := Index(n, current);
      current := (current + 1) % WORD;
      RoundStep(n, c, sticky, probe, m);
    }

    /** The rotation, after a sticky try that left the looks `before` behind; `m` is the number of rounds it ran. */
    method Rotate(n: nat, session: string, sticky: Option<nat>, probe: (nat, nat) -> Probe, before: seq<Look>)
      returns (outcome: Outcome, looks: seq<Look>, m: nat)
      requires 0 < n < WORD && current < WORD && AllMissed(before)
      modifies this
      ensures current == Counter(old(current), m) && m <= n
      ensures looks == before + RoundLooks(n, old(current), sticky, probe, m)
      ensures outcome.Sent? ==> m > 0 && EndsWith(looks, outcome)
                                && sessions == if session == "" then old(sessions)
                                               else old(sessions)[session := outcome.client]
      ensures !outcome.Sent? ==> m == n && AllMissed(looks) && sessions == old(sessions)
                                 && outcome == FailureOf(looks, RoundLooks(n, old(current), sticky, probe, n))
    {
      var served, inRounds, lastErr, hasCooledDown;
      served, inRounds, lastErr, hasCooledDown, m := Search(n, sticky, probe, before);
      looks := before + inRounds;
      if served {
        outcome := SentTo(inRounds[|inRounds| - 1]);
        if session != "" {
          sessions := sessions[session := outcome.client];
        }
      } else if lastErr.Some? {
        outcome := AllFailed(lastErr.value);
      } else {
        outcome := if hasCooledDown then AllCooled else NoneHealthy;
      }
    }

    /** The rotation loop. */
    method Search(n: nat, sticky: Option<nat>, probe: (nat, nat) -> Probe, before: seq<Look>)
      returns (served: bool, inRounds: seq<Look>, lastErr: Option<Error>, hasCooledDown: bool, m: nat)
      requires 0 < n < WORD && current < WORD && AllMissed(before)
      modifies this`current
      ensures m <= n && current == Counter(old(current), m)
      ensures inRounds == RoundLooks(n, old(current), sticky, probe, m)
      ensures served ==> m > 0 && Served(before, inRounds)
      ensures !served ==> m == n && Tallied(before, inRounds, lastErr, hasCooledDown)
    {
      served, inRounds, lastErr, hasCooledDown, m := false, [], LastErr(before), false, 0;
      NothingTalliedYet(before);
      while m < n && !served
        invariant m <= n && current == Counter(old(current), m)
        invariant inRounds == RoundLooks(n, old(current), sticky, probe, m)
        invariant if served then m > 0 && Served(before, inRounds)
                  else Tallied(before, inRounds, lastErr, hasCooledDown)
        decreases n - m
      {
        served, inRounds, lastErr, hasCooledDown :=
          Round(n, old(current), m, sticky, probe, before, inRounds, lastErr, hasCooledDown);
        m := m + 1;
      }
    }

    /** One round of the loop, number `m` from 0: the sticky client is passed over, any other is looked at. */
    method Round(
        n: nat, ghost c: nat, m: nat, sticky: Option<nat>, probe: (nat, nat) -> Probe, ghost before: seq<Look>,
        inRounds: seq<Look>, lastErr: Option<Error>, hasCooledDown: bool)
      returns (served: bool, inRounds': seq<Look>, lastErr': Option<Error>, hasCooledDown': bool)
      requires 0 < n && c < WORD && current == Counter(c, m)
      requires inRounds == RoundLooks(n, c, sticky, probe, m) && Tallied(before, inRounds, lastErr, hasCooledDown)
      modifies this`current
      ensures current == Counter(c, m + 1) && inRounds' == RoundLooks(n, c, sticky, probe, m + 1)
      ensures served ==> Served(before, inRounds')
      ensures !served ==> Tallied(before, inRounds', lastErr', hasCooledDown')
    {
      var idx := Advance(n, c, m, sticky, probe);
      if sticky == Some(idx) {
        assert inRounds + [] == inRounds;
        return false, inRounds, lastErr, hasCooledDown;
      }
      var p := probe(m + 1, idx);
      served, lastErr', hasCooledDown' := Judge(idx, p, lastErr, hasCooledDown, before, inRounds);
      inRounds' := inRounds + [Handled(idx, p)];
    }

    /** The sticky try and the rotation; `probe` answers for each step (0 is the sticky try) and client. */
    method Try(n: nat, session: string, probe: (nat, nat) -> Probe)
      returns (outcome: Outcome, looks: seq<Look>, m: nat)
      requires current < WORD && 0 < n < WORD
      modifies this
      ensures current == Counter(old(current), m) && m <= n && !outcome.NoClients?
      ensures var sticky := StickyClient(old(sessions), session);
              var inRounds := RoundLooks(n, old(current), sticky, probe, m);
              && looks == StickyLooks(n, sticky, probe) + inRounds
              && (outcome.Sent? ==> EndsWith(looks, outcome))
              && (!outcome.Sent? ==> m == n && AllMissed(looks) && outcome == FailureOf(looks, inRounds))
      ensures sessions == if outcome.Sent? && session != "" && m > 0
                          then old(sessions)[session := outcome.client] else old(sessions)
    {
      looks, m := [], 0;
      var sticky := StickyClient(sessions, session);
      if sticky.Some? && sticky.value < n {
        var p := probe(0, sticky.value);
        looks := [Handled(sticky.value, p)];
        if p.Reply? && !IsFault(p) {
          return Sent(sticky.value, p), looks, m;
        }
      }
      outcome, looks, m := Rotate(n, session, sticky, probe, looks);
    }

    /** `Do` with `n` clients. */
    method Do(n: nat, session: string, probe: (nat, nat) -> Probe)
      returns (outcome: Outcome, looks: seq<Look>, m: nat)
      requires current < WORD && n < WORD
      modifies this
      ensures current == (old(current) + m) % WORD && m <= n && (outcome.NoClients? <==> n == 0)
      ensures n > 0 ==>
                var sticky := StickyClient(old(sessions), session);
                var inRounds := RoundLooks(n, old(current), sticky, probe, m);
                && looks == StickyLooks(n, sticky, probe) + inRounds
                && (outcome.Sent? ==> EndsWith(looks, outcome))
                && (!outcome.Sent? ==> m == n && AllMissed(looks) && outcome == FailureOf(looks, inRounds))
      ensures n > 0 && (IsPowerOfTwo(n) || NoWrapInside(n, old(current))) ==>
                Distinct(looks) && (!outcome.Sent? ==> forall client: nat | client < n :: GaveUpOn(looks, client))
      ensures sessions == if outcome.Sent? && session != "" && m > 0
                          then old(sessions)[session := outcome.client] else old(sessions)
    {
      if n == 0 {
        return NoClients, [], 0;
      }
      ghost var sticky := StickyClient(sessions, session);
      outcome, looks, m := Try(n, session, probe);
      CounterIs(old(current), m);
      EvenCall(n, old(current), sticky, probe, m);
    }
  }

  function SentTo(look: Look): Outcome { Sent(look.client, look.probe) }

  /** The last look is the one that was answered; every look before it missed. */
  predicate EndsWith(looks: seq<Look>, outcome: Outcome)
    requires outcome.Sent?
  {
    && looks != [] && AllMissed(looks[..|looks| - 1])
    && looks[|looks| - 1] == Look(outcome.client, outcome.probe, false) && !Missed(outcome.probe)
  }

  /** The last round's client served the call. */
  predicate Served(before: seq<Look>, inRounds: seq<Look>) {
    inRounds != [] && EndsWith(before + inRounds, SentTo(inRounds[|inRounds| - 1]))
  }

  lemma NothingTalliedYet(before: seq<Look>)
    requires AllMissed(before)
    ensures Tallied(before, [], LastErr(before), false)
  {
    assert before + [] == before;
  }

  /** What the loop carries: nothing served yet, the last error, and whether a round met a cooldown. */
  predicate Tallied(before: seq<Look>, inRounds: seq<Look>, lastErr: Option<Error>, hasCooledDown: bool) {
    AllMissed(before + inRounds) && lastErr == LastErr(before + inRounds) && (hasCooledDown <==> AnyCooled(inRounds))
  }

  /** The loop's verdict on one client. */
  method Judge(
      idx: nat, p: Probe, lastErr: Option<Error>, hasCooledDown: bool,
      ghost before: seq<Look>, ghost inRounds: seq<Look>)
    returns (served: bool, lastErr': Option<Error>, hasCooledDown': bool)
    requires Tallied(before, inRounds, lastErr, hasCooledDown)
    ensures served <==> p.Reply? && !IsFault(p)
    ensures served ==> EndsWith(before + (inRounds + [Handled(idx, p)]), Sent(idx, p))
    ensures !served ==> Tallied(before, inRounds + [Handled(idx, p)], lastErr', hasCooledDown')
  {
    AppendLook(before, inRounds, Handled(idx, p));
    served, lastErr', hasCooledDown' := false, lastErr, hasCooledDown;
    if p.CooledDown? {
      hasCooledDown' := true;
    } else if p.Reply? {
      if IsFault(p) {
        lastErr' := p.err;
      } else {
        served := true;
      }
    }
  }

  lemma AppendLook(before: seq<Look>, inRounds: seq<Look>, x: Look)
    ensures var looks := before + inRounds;
            && looks + [x] == before + (inRounds + [x])
            && (looks + [x])[..|looks|] == looks
            && (AllMissed(looks + [x]) <==> AllMissed(looks) && Missed(x.probe))
            && LastErr(looks + [x]) == if x.probe.Reply? && IsFault(x.probe) then x.probe.err else LastErr(looks)
    ensures AnyCooled(inRounds + [x]) <==> AnyCooled(inRounds) || x.probe.CooledDown?
  {
    var looks := before + inRounds;
    assert forall k | 0 <= k < |looks| :: (looks + [x])[k] == looks[k];
    assert (looks + [x])[|looks|] == x;
    assert forall k | 0 <= k < |inRounds| :: (inRounds + [x])[k] == inRounds[k];
    assert (inRounds + [x])[|inRounds|] == x;
  }

  // ---- What a call's looks amount to ----

  ghost predicate LooksAt(looks: seq<Look>, client: nat) { exists k :: 0 <= k < |looks| && looks[k].client == client }

  /** The rounds look at exactly the visited clients other than the sticky one. */
  lemma {:induction false} RoundsLookAtVisits(
      n: nat, c: nat, sticky: Option<nat>, probe: (nat, nat) -> Probe, m: nat, client: nat)
    requires 0 < n && c < WORD
    ensures LooksAt(RoundLooks(n, c, sticky, probe, m), client)
            <==> sticky != Some(client) && exists j: nat :: j < m && Visit(n, c, j) == client
  {
    if m > 0 {
      RoundsLookAtVisits(n, c, sticky, probe, m - 1, client);
      var before, after := RoundLooks(n, c, sticky, probe, m - 1), RoundLooks(n, c, sticky, probe, m);
      assert forall k | 0 <= k < |before| :: after[k] == before[k];
      if sticky != Some(Visit(n, c, m - 1)) {
        assert after[|before|].client == Visit(n, c, m - 1);
      }
    }
  }

  ghost predicate Distinct(looks: seq<Look>) {
    forall k, l | 0 <= k < l < |looks| :: looks[k].client != looks[l].client
  }

  lemma {:induction false} RoundsAreDistinct(n: nat, c: nat, sticky: Option<nat>, probe: (nat, nat) -> Probe, m: nat)
    requires 0 < n && c < WORD && EachOnce(n, c) && m <= n
    ensures Distinct(RoundLooks(n, c, sticky, probe, m))
  {
    if m > 0 {
      RoundsAreDistinct(n, c, sticky, probe, m - 1);
      RoundsLookAtVisits(n, c, sticky, probe, m - 1, Visit(n, c, m - 1));
    }
  }

  /** For a power-of-two pool, or without a wrap inside the call, it looks at (so dispatches to) no client twice. */
  lemma NoClientTwice(n: nat, c: nat, sticky: Option<nat>, probe: (nat, nat) -> Probe, m: nat)
    requires 0 < n < WORD && c < WORD && (IsPowerOfTwo(n) || NoWrapInside(n, c)) && m <= n
    ensures Distinct(StickyLooks(n, sticky, probe) + RoundLooks(n, c, sticky, probe, m))
  {
    RotationIsEvenExactlyWhen(n, c);
    RoundsAreDistinct(n, c, sticky, probe, m);
    if sticky.Some? {
      RoundsLookAtVisits(n, c, sticky, probe, m, sticky.value);
    }
  }

  ghost predicate NoRepeats(vs: seq<nat>) { forall i, j | 0 <= i < j < |vs| :: vs[i] != vs[j] }

  function Elems(vs: seq<nat>): (s: set<nat>)
    ensures forall t :: t in s <==> t in vs
  {
    if vs == [] then {} else Elems(vs[..|vs| - 1]) + {vs[|vs| - 1]}
  }

  lemma {:induction false} DistinctCount(vs: seq<nat>)
    requires NoRepeats(vs)
    ensures |Elems(vs)| == |vs|
  {
    if vs != [] {
      DistinctCount(vs[..|vs| - 1]);
    }
  }

  lemma {:induction false} BoundedCount(s: set<nat>, n: nat)
    requires forall t | t in s :: t < n
    ensures |s| <= n
  {
    if n > 0 {
      BoundedCount(s - {n - 1}, n - 1);
    } else {
      assert s == {};
    }
  }

  /** `n` different numbers below `n` leave none out. */
  lemma Pigeonhole(vs: seq<nat>, t: nat)
    requires NoRepeats(vs) && t < |vs| && forall i | 0 <= i < |vs| :: vs[i] < |vs|
    ensures t in vs
  {
    if t !in vs {
      DistinctCount(vs);
      BoundedCount(Elems(vs) + {t}, |vs|);
    }
  }

  /** Visiting `n` clients without repetition leaves none out. */
  lemma EachOnceReachesAll(n: nat, c: nat, client: nat)
    requires 0 < n < WORD && c < WORD && EachOnce(n, c) && client < n
    ensures exists j: nat :: j < n && Visit(n, c, j) == client
  {
    var vs := seq(n, i requires 0 <= i < n => Visit(n, c, i));
    forall i | 0 <= i < n ensures vs[i] < n { VisitsInRange(n, c, i); }
    Pigeonhole(vs, client);
    var j :| 0 <= j < |vs| && vs[j] == client;
    assert Visit(n, c, j) == client;
  }

  /** The look found the client unavailable or cooled down, or tried it at fault and closed any response it gave. */
  predicate GivenUp(look: Look) {
    match look.probe
    case Unavailable => !look.closed
    case CooledDown => !look.closed
    case Reply(status, _) => IsFault(look.probe) && look.closed == status.Some?
  }

  ghost predicate GaveUpOn(looks: seq<Look>, client: nat) {
    exists k :: 0 <= k < |looks| && looks[k].client == client && GivenUp(looks[k])
  }

  lemma {:induction false} RoundsAreHandled(
      n: nat, c: nat, sticky: Option<nat>, probe: (nat, nat) -> Probe, m: nat, k: nat)
    requires 0 < n && c < WORD && k < |RoundLooks(n, c, sticky, probe, m)|
    ensures var look := RoundLooks(n, c, sticky, probe, m)[k]; look == Handled(look.client, look.probe)
  {
    if k < |RoundLooks(n, c, sticky, probe, m - 1)| {
      RoundsAreHandled(n, c, sticky, probe, m - 1, k);
    }
  }

  /**
   For a power-of-two pool, or without a wrap inside the call, a call that finds no client to serve it gave up on every
   client of the pool: each was unavailable, cooled down, or tried at fault with its response closed.
   */
  lemma FailedCallTriedEveryone(n: nat, c: nat, sticky: Option<nat>, probe: (nat, nat) -> Probe, client: nat)
    requires 0 < n < WORD && c < WORD && (IsPowerOfTwo(n) || NoWrapInside(n, c)) && client < n
    requires AllMissed(StickyLooks(n, sticky, probe) + RoundLooks(n, c, sticky, probe, n))
    ensures GaveUpOn(StickyLooks(n, sticky, probe) + RoundLooks(n, c, sticky, probe, n), client)
  {
    RotationIsEvenExactlyWhen(n, c);
    var first, rest := StickyLooks(n, sticky, probe), RoundLooks(n, c, sticky, probe, n);
    var looks: seq<Look> := first + rest;
    if sticky == Some(client) {
      assert looks[0].client == client && Missed(looks[0].probe);
    } else {
      EachOnceReachesAll(n, c, client);
      RoundsLookAtVisits(n, c, sticky, probe, n, client);
      var k :| 0 <= k < |rest| && rest[k].client == client;
      RoundsAreHandled(n, c, sticky, probe, n, k);
      assert looks[|first| + k] == rest[k] && Missed(looks[|first| + k].probe);
    }
  }

  /** Both together, for the looks of a call after `m` rounds. */
  lemma EvenCall(n: nat, c: nat, sticky: Option<nat>, probe: (nat, nat) -> Probe, m: nat)
    requires 0 < n < WORD && c < WORD && m <= n
    ensures var looks := StickyLooks(n, sticky, probe) + RoundLooks(n, c, sticky, probe, m);
            IsPowerOfTwo(n) || NoWrapInside(n, c) ==>
              && Distinct(looks)
              && (m == n && AllMissed(looks) ==> forall client: nat | client < n :: GaveUpOn(looks, client))
  {
    var looks := StickyLooks(n, sticky, probe) + RoundLooks(n, c, sticky, probe, m);
    if IsPowerOfTwo(n) || NoWrapInside(n, c) {
      NoClientTwice(n, c, sticky, probe, m);
      if m == n && AllMissed(looks) {
        forall client: nat | client < n ensures GaveUpOn(looks, client) {
          FailedCallTriedEveryone(n, c, sticky, probe, client);
        }
      }
    }
  }

  // ---- Faults and failures by name ----

  /**
   The client that serves a call gave no error other than a cancelled context, or without an error no status 407, 429,
   502, 503 or 504; a client given up after a dispatch did.
   */
  lemma FaultMeaning(p: Probe)
    requires p.Reply?
    ensures IsFault(p) <==>
            || (p.err.Some? && p.err.value != Canceled)
            || (p.err.None? && p.status.Some? && p.status.value in [407, 429, 502, 503, 504])
  {
  }

  /** The error reported is that of the latest faulty dispatch, if it had one. */
  lemma {:induction false} LastErrMeaning(looks: seq<Look>, e: Error)
    ensures LastErr(looks) == Some(e) <==>
            exists k :: 0 <= k < |looks| && FaultWith(looks[k], e) && NoFaultAfter(looks, k)
  {
    if looks != [] {
      var n := |looks| - 1;
      LastErrMeaning(looks[..n], e);
      if k :| 0 <= k < n && FaultWith(looks[..n][k], e) && NoFaultAfter(looks[..n], k) && !AtFault(looks[n]) {
        assert FaultWith(looks[k], e) && NoFaultAfter(looks, k);
      }
      if k :| 0 <= k < |looks| && FaultWith(looks[k], e) && NoFaultAfter(looks, k) {
        if k < n {
          assert !AtFault(looks[n]) && FaultWith(looks[..n][k], e) && NoFaultAfter(looks[..n], k);
        }
      } else if AtFault(looks[n]) && looks[n].probe.err == Some(e) {
        assert NoFaultAfter(looks, n) && FaultWith(looks[n], e);
      }
    }
  }

  predicate AtFault(look: Look) { look.probe.Reply? && IsFault(look.probe) }

  predicate FaultWith(look: Look, e: Error) { AtFault(look) && look.probe.err == Some(e) }

  ghost predicate NoFaultAfter(looks: seq<Look>, k: nat) { forall j | k < j < |looks| :: !AtFault(looks[j]) }

  /** A session that is known and whose client is in the pool is tried there first; no session, no sticky try. */
  lemma StickyMeaning(sessions: map<string, nat>, session: string, n: nat, probe: (nat, nat) -> Probe)
    ensures var first := StickyLooks(n, StickyClient(sessions, session), probe);
            && (session != "" && session in sessions && sessions[session] < n ==>
                  |first| == 1 && first[0].client == sessions[session] && first[0].probe == probe(0, sessions[session]))
            && (session == "" || session !in sessions || sessions[session] >= n ==> first == [])
  {
  }

  /**
   Why a call failed: with the error of the latest faulty dispatch if that had one, else because a round met a cooldown,
   else because no client was healthy.
   */
  lemma FailureMeaning(looks: seq<Look>, inRounds: seq<Look>)
    ensures var outcome := FailureOf(looks, inRounds);
            && (outcome.AllFailed? ==>
                  exists k :: 0 <= k < |looks| && FaultWith(looks[k], outcome.err) && NoFaultAfter(looks, k))
            && (outcome.AllFailed? || outcome.AllCooled? || outcome.NoneHealthy?)
            && ((exists e, k :: 0 <= k < |looks| && FaultWith(looks[k], e) && NoFaultAfter(looks, k)) ==>
                  outcome.AllFailed?)
            && (!outcome.AllFailed? ==>
                  (outcome.AllCooled? <==> exists k :: 0 <= k < |inRounds| && inRounds[k].probe == CooledDown))
  {
    if LastErr(looks).Some? {
      LastErrMeaning(looks, LastErr(looks).value);
    }
    forall e, k | 0 <= k < |looks| && FaultWith(looks[k], e) && NoFaultAfter(looks, k) ensures LastErr(looks).Some? {
      LastErrMeaning(looks, e);
    }
    if k :| 0 <= k < |inRounds| && inRounds[k].probe == CooledDown {
      assert inRounds[k].probe.CooledDown?;
    }
  }
}

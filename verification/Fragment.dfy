/**
 Write fragmentation: a connection wrapper that splits each buffer into chunks (by pattern or by size) until a byte
 limit is passed. Sleeping is left out; chunk-size jitter and the inner connection's replies are nondeterministic.
 */
module Fragment {
  import opened Prelude

  /** The inner connection: any writer that keeps Go's rule that a short write comes with an error. */
  class Conn {
    /** The bytes that reached the peer. */
    var sent: seq<Byte>
    /** The sizes of the buffers handed to the connection. */
    var pieces: seq<nat>
    /** The number of errors reported. */
    var failures: nat

    constructor ()
      ensures sent == [] && pieces == [] && failures == 0
    {
      sent, pieces, failures := [], [], 0;
    }

    method Write(p: seq<Byte>) returns (nw: nat, failed: bool)
      modifies this
      ensures nw <= |p| && (nw < |p| ==> failed)
      ensures sent == old(sent) + p[..nw] && pieces == old(pieces) + [|p|]
      ensures failures == old(failures) + if failed then 1 else 0
    {
      nw :| 0 <= nw <= |p|;
      failed := *;
      failed := failed || nw < |p|;
      sent, pieces := sent + p[..nw], pieces + [|p|];
      failures := failures + if failed then 1 else 0;
    }
  }

  function Concat(chunks: seq<seq<Byte>>): seq<Byte> {
    if chunks == [] then [] else Concat(chunks[..|chunks| - 1]) + chunks[|chunks| - 1]
  }

  function Sizes(chunks: seq<seq<Byte>>): seq<nat> { seq(|chunks|, i requires 0 <= i < |chunks| => |chunks[i]|) }

  /** One finished call of `Write`: the buffer and the count it reported. */
  datatype Report = Report(buffer: seq<Byte>, n: nat)

  predicate InRange(reports: seq<Report>) { forall i | 0 <= i < |reports| :: reports[i].n <= |reports[i].buffer| }

  /** The reported prefixes, one after the other. */
  function Prefixes(reports: seq<Report>): seq<Byte>
    requires InRange(reports)
  {
    if reports == [] then []
    else
      var last := reports[|reports| - 1];
      Prefixes(reports[..|reports| - 1]) + last.buffer[..last.n]
  }

  function Buffers(reports: seq<Report>): seq<Byte> {
    if reports == [] then [] else Buffers(reports[..|reports| - 1]) + reports[|reports| - 1].buffer
  }

  /** Runs without a short write are transparent: the peer sees the buffers themselves. */
  lemma {:induction false} WholeWritesAreTransparent(reports: seq<Report>)
    requires forall i | 0 <= i < |reports| :: reports[i].n == |reports[i].buffer|
    ensures Prefixes(reports) == Buffers(reports)
  {
    if reports != [] {
      WholeWritesAreTransparent(reports[..|reports| - 1]);
    }
  }

  lemma AppendReport(reports: seq<Report>, r: Report)
    requires InRange(reports) && r.n <= |r.buffer|
    ensures InRange(reports + [r]) && Prefixes(reports + [r]) == Prefixes(reports) + r.buffer[..r.n]
  {
    assert (reports + [r])[..|reports|] == reports;
  }

  /** A piece of the size loop: not empty, below the jitter's upper bound or at most the fixed size. */
  predicate PieceFits(size: int, chunkSize: int, minChunkSize: int, maxChunkSize: int) {
    0 < size && if minChunkSize > 0 && maxChunkSize > minChunkSize then size < maxChunkSize else size <= chunkSize
  }

  /** A write stays out of the size loop, has nothing to write, or draws positive chunk sizes. */
  predicate Advances(bypassed: bool, chunkSize: int, minChunkSize: int, maxChunkSize: int, length: nat) {
    || bypassed || length <= chunkSize || length == 0
    || (minChunkSize > 0 && maxChunkSize > minChunkSize) || chunkSize > 0
  }

  class FragmentedConn {
    const conn: Conn
    const chunkSize: int
    const minChunkSize: int
    const maxChunkSize: int
    const limitBytes: int
    var totalWritten: nat
    /** Every finished write, in order. */
    ghost var reports: seq<Report>

    ghost predicate Valid()
      reads this, conn
    {
      InRange(reports) && conn.sent == Prefixes(reports) && totalWritten == |Prefixes(reports)|
    }

    /** `limit` is the configured limit: -1 stands for none, 0 for 4096. */
    constructor (conn: Conn, chunkSize: int, minChunkSize: int, maxChunkSize: int, limit: int)
      requires conn.sent == []
      ensures Valid() && this.conn == conn && reports == []
      ensures this.chunkSize == chunkSize && this.minChunkSize == minChunkSize && this.maxChunkSize == maxChunkSize
      ensures limitBytes == (if limit == -1 then 0 else if limit == 0 then 4096 else limit)
    {
      this.conn, this.chunkSize := conn, chunkSize;
      this.minChunkSize, this.maxChunkSize := minChunkSize, maxChunkSize;
      limitBytes := if limit == -1 then 0 else if limit == 0 then 4096 else limit;
      totalWritten, reports := 0, [];
    }

    predicate LimitExceeded() reads this { limitBytes > 0 && totalWritten >= limitBytes }

    /** The chunk size for time-stamp counter reading `ticks`. */
    method ResolveChunkSize(ticks: nat) returns (size: int)
      ensures if minChunkSize > 0 && maxChunkSize > minChunkSize then minChunkSize <= size < maxChunkSize
              else size == chunkSize
    {
      if minChunkSize > 0 && maxChunkSize > minChunkSize {
        var diff := maxChunkSize - minChunkSize;
        return minChunkSize + ticks % diff;
      }
      return chunkSize;
    }

    /** The pattern loop: the slices one after the other, until one fails. */
    method WriteSlices(b: seq<Byte>, slices: seq<seq<Byte>>) returns (n: nat, failed: bool)
      requires Concat(slices) == b
      modifies conn
      ensures n <= |b| && conn.sent == old(conn.sent) + b[..n] && (n < |b| ==> failed)
      ensures conn.failures == old(conn.failures) + if failed then 1 else 0
      ensures old(conn.pieces) <= conn.pieces <= old(conn.pieces) + Sizes(slices)
      ensures !failed ==> conn.pieces == old(conn.pieces) + Sizes(slices)
    {
      n, failed := 0, false;
      for i := 0 to |slices|
        invariant n == |Concat(slices[..i])| && conn.sent == old(conn.sent) + Concat(slices[..i])
        invariant !failed && conn.failures == old(conn.failures)
        invariant conn.pieces == old(conn.pieces) + Sizes(slices)[..i]
      {
        assert slices[..i + 1][..i] == slices[..i];
        ConcatIsPrefix(slices, i + 1);
        var nw;
        nw, failed := conn.Write(slices[i]);
        n := n + nw;
        if failed {
          assert b[..n] == Concat(slices[..i]) + slices[i][..nw];
          return;
        }
      }
      assert slices[..|slices|] == slices;
    }

    /** The size loop: whatever the chunk sizes, it stops, because each round moves `n` towards the end. */
    method WriteChunks(b: seq<Byte>) returns (n: nat, failed: bool)
      requires b == [] || (minChunkSize > 0 && maxChunkSize > minChunkSize) || chunkSize > 0
      modifies conn
      ensures n <= |b| && conn.sent == old(conn.sent) + b[..n] && (n < |b| ==> failed)
      ensures conn.failures == old(conn.failures) + if failed then 1 else 0
      ensures old(conn.pieces) <= conn.pieces
      ensures forall k | |old(conn.pieces)| <= k < |conn.pieces| ::
                PieceFits(conn.pieces[k], chunkSize, minChunkSize, maxChunkSize)
    {
      n, failed := 0, false;
      while n < |b|
        invariant n <= |b| && conn.sent == old(conn.sent) + b[..n] && old(conn.pieces) <= conn.pieces
        invariant !failed && conn.failures == old(conn.failures)
        invariant forall k | |old(conn.pieces)| <= k < |conn.pieces| ::
                    PieceFits(conn.pieces[k], chunkSize, minChunkSize, maxChunkSize)
        decreases |b| - n
      {
        var ticks: nat := *;
        var size := ResolveChunkSize(ticks);
        var end := Min(n + size, |b|);
        var nw;
        nw, failed := conn.Write(b[n..end]);
        assert b[..n] + b[n..end][..nw] == b[..n + nw];
        n := n + nw;
        if failed {
          return;
        }
      }
    }

    /**
     One `Write`. `slices` is what the pattern slicer found (more than one slice, in order, making up the buffer), or
     none. The calls excluded are those that do not return unless an empty inner write fails.
     */
    method Write(b: seq<Byte>, slices: Option<seq<seq<Byte>>>) returns (n: nat, failed: bool)
      requires Valid() && (slices.Some? ==> |slices.value| > 1 && Concat(slices.value) == b)
      requires Advances(LimitExceeded() || slices.Some?, chunkSize, minChunkSize, maxChunkSize, |b|)
      modifies this, conn
      ensures Valid() && reports == old(reports) + [Report(b, n)]
      ensures n <= |b| && (n < |b| ==> failed)
      ensures conn.sent == old(conn.sent) + b[..n] && totalWritten == old(totalWritten) + n
      ensures conn.failures == old(conn.failures) + if failed then 1 else 0
      ensures old(conn.pieces) <= conn.pieces
      ensures if old(limitBytes > 0 && totalWritten >= limitBytes) || (slices.None? && |b| <= chunkSize)
              then conn.pieces == old(conn.pieces) + [|b|]
              else if slices.Some? then conn.pieces <= old(conn.pieces) + Sizes(slices.value)
              else forall k | |old(conn.pieces)| <= k < |conn.pieces| ::
                     PieceFits(conn.pieces[k], chunkSize, minChunkSize, maxChunkSize)
    {
      if LimitExceeded() {
        n, failed := conn.Write(b);
      } else if slices.Some? {
        n, failed := WriteSlices(b, slices.value);
      } else if |b| <= chunkSize {
        n, failed := conn.Write(b);
      } else {
        n, failed := WriteChunks(b);
      }
      AppendReport(reports, Report(b, n));
      totalWritten := totalWritten + n;
      reports := reports + [Report(b, n)];
    }
  }

  lemma {:induction false} ConcatIsPrefix(slices: seq<seq<Byte>>, i: nat)
    requires i <= |slices|
    ensures Concat(slices[..i]) <= Concat(slices)
  {
    var m := |slices|;
    if i < m {
      ConcatIsPrefix(slices[..m - 1], i);
      assert slices[..m - 1][..i] == slices[..i];
    } else {
      assert slices[..i] == slices;
    }
  }

  // ---- When a write returns ----

  datatype Progress = Running(n: nat) | Returned | Panicked

  /** One round of the size loop: the chunk size drawn, and whether the inner write reports an error. */
  datatype Round = Round(size: int, failed: bool)

  /** The size loop from position `n`: an error ends it, an end before the position makes the slice expression panic. */
  function Loop(n: nat, length: nat, rounds: seq<Round>): Progress
    decreases |rounds|
  {
    if n >= length then Returned
    else if rounds == [] then Running(n)
    else
      var end := Min(n + rounds[0].size, length);
      if end < n then Panicked
      else if rounds[0].failed then Returned
      else Loop(end, length, rounds[1..])
  }

  /** A whole `Write` of `length` bytes, with these rounds if it comes to the size loop. */
  function Outcome(bypassed: bool, chunkSize: int, length: nat, rounds: seq<Round>): Progress {
    if bypassed || length <= chunkSize then Returned else Loop(0, length, rounds)
  }

  /** The sizes are ones that `ResolveChunkSize` may give. */
  ghost predicate Resolved(chunkSize: int, minChunkSize: int, maxChunkSize: int, rounds: seq<Round>) {
    forall i | 0 <= i < |rounds| ::
      if minChunkSize > 0 && maxChunkSize > minChunkSize then minChunkSize <= rounds[i].size < maxChunkSize
      else rounds[i].size == chunkSize
  }

  /** For every choice of sizes and errors, `length` rounds are enough. */
  ghost predicate AlwaysReturns(bypassed: bool, chunkSize: int, minChunkSize: int, maxChunkSize: int, length: nat) {
    forall rounds | Resolved(chunkSize, minChunkSize, maxChunkSize, rounds) && |rounds| >= length ::
      Outcome(bypassed, chunkSize, length, rounds) == Returned
  }

  ghost predicate SomeFails(rounds: seq<Round>) { exists i :: 0 <= i < |rounds| && rounds[i].failed }

  lemma {:induction false} PositiveSizesReturn(n: nat, length: nat, rounds: seq<Round>)
    requires |rounds| >= length - n && forall i | 0 <= i < |rounds| :: rounds[i].size > 0
    ensures Loop(n, length, rounds) == Returned
    decreases |rounds|
  {
    if n < length && !rounds[0].failed {
      PositiveSizesReturn(Min(n + rounds[0].size, length), length, rounds[1..]);
    }
  }

  /** A size of zero makes no progress until an inner write fails; a negative one panics in the first round. */
  lemma {:induction false} OtherSizesDoNot(chunkSize: int, length: nat, rounds: seq<Round>)
    requires chunkSize <= 0 < length && forall i | 0 <= i < |rounds| :: rounds[i].size == chunkSize
    ensures Loop(0, length, rounds)
            == if chunkSize < 0 && rounds != [] then Panicked else if SomeFails(rounds) then Returned else Running(0)
    decreases |rounds|
  {
    if rounds != [] && chunkSize == 0 && !rounds[0].failed {
      OtherSizesDoNot(chunkSize, length, rounds[1..]);
      assert forall i | 1 <= i < |rounds| :: rounds[i] == rounds[1..][i - 1];
    }
  }

  /**
   A `Write` (bypassing the size loop or not, by the byte limit or the pattern) returns whatever it meets if and only if
   it does not come to the size loop, has nothing to write, or draws positive sizes. Otherwise it returns exactly when
   the size is zero and the inner connection reports an error on one of the empty writes.
   */
  lemma WriteReturnsExactlyWhen(bypassed: bool, chunkSize: int, minChunkSize: int, maxChunkSize: int, length: nat)
    ensures AlwaysReturns(bypassed, chunkSize, minChunkSize, maxChunkSize, length)
            <==> Advances(bypassed, chunkSize, minChunkSize, maxChunkSize, length)
    ensures !Advances(bypassed, chunkSize, minChunkSize, maxChunkSize, length) ==>
              forall rounds | Resolved(chunkSize, minChunkSize, maxChunkSize, rounds) ::
                Outcome(bypassed, chunkSize, length, rounds) == Returned <==> chunkSize == 0 && SomeFails(rounds)
  {
    if Advances(bypassed, chunkSize, minChunkSize, maxChunkSize, length) {
      forall rounds | Resolved(chunkSize, minChunkSize, maxChunkSize, rounds) && |rounds| >= length
        ensures Outcome(bypassed, chunkSize, length, rounds) == Returned
      {
        if !bypassed && length > chunkSize && length > 0 {
          PositiveSizesReturn(0, length, rounds);
        }
      }
    } else {
      forall rounds | Resolved(chunkSize, minChunkSize, maxChunkSize, rounds)
        ensures Outcome(bypassed, chunkSize, length, rounds) == Returned <==> chunkSize == 0 && SomeFails(rounds)
      {
        OtherSizesDoNot(chunkSize, length, rounds);
      }
      var rounds := seq(length, _ => Round(chunkSize, false));
      assert Resolved(chunkSize, minChunkSize, maxChunkSize, rounds);
    }
  }
}

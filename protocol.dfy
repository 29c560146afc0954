/**
 * The asyncio driver's request/response cycle, `MonopriceProtocol.send`:
 * the same end-of-line threshold as the blocking driver, but the port hands
 * over whole chunks (one per `data_received`), so a cycle stops after the
 * chunk that completes the threshold-th marker and returns all of that chunk.
 */
module Protocol {
  import opened Wrappers
  import opened Bytes
  import opened Eol
  import opened Framing

  /** The chunks glued together in arrival order: what `result += chunk` builds. */
  function Flatten(chunks: seq<seq<byte>>): (b: seq<byte>)
    ensures chunks == [] ==> b == []
  {
    if chunks == [] then [] else Flatten(chunks[..|chunks| - 1]) + chunks[|chunks| - 1]
  }

  /** Taking one more chunk appends it. */
  lemma FlattenSnoc(chunks: seq<seq<byte>>, i: nat)
    requires i < |chunks|
    ensures Flatten(chunks[..i + 1]) == Flatten(chunks[..i]) + chunks[i]
  {
    assert chunks[..i + 1][..i] == chunks[..i];
  }

  /** The bytes of the first `m` chunks are a prefix of the bytes of the first `n`. */
  lemma {:induction false} FlattenPrefix(chunks: seq<seq<byte>>, m: nat, n: nat)
    requires m <= n <= |chunks|
    decreases n - m
    ensures var a := Flatten(chunks[..m]);
      |a| <= |Flatten(chunks[..n])| && Flatten(chunks[..n])[..|a|] == a
  {
    if m < n {
      FlattenPrefix(chunks, m, n - 1);
      FlattenSnoc(chunks, n - 1);
    }
  }

  /** When every chunk is one byte, the first `m` chunks are the first `m` bytes. */
  lemma {:induction false} FlattenSingles(chunks: seq<seq<byte>>, m: nat)
    requires forall i :: 0 <= i < |chunks| ==> |chunks[i]| == 1
    requires m <= |chunks|
    ensures |Flatten(chunks[..m])| == m
    decreases m
  {
    if m > 0 {
      FlattenSingles(chunks, m - 1);
      FlattenSnoc(chunks, m - 1);
    }
  }

  /** The marker count of the first `m` chunks. */
  function ChunkCount(chunks: seq<seq<byte>>, m: nat): nat
    requires m <= |chunks|
  {
    EolCount(Flatten(chunks[..m]))
  }

  /** The first number `k >= from` of chunks whose bytes hold `threshold` markers. */
  ghost function ChunkStopFrom(chunks: seq<seq<byte>>, threshold: int, from: nat): (r: Option<nat>)
    requires 1 <= from
    decreases |chunks| + 1 - from
    ensures r.Some? ==> from <= r.value <= |chunks|
  {
    if from > |chunks| then None
    else if ChunkCount(chunks, from) >= threshold then Some(from)
    else ChunkStopFrom(chunks, threshold, from + 1)
  }

  /** `ChunkStopFrom` finds the first chunk count, from `from` on, with enough markers, or reports that none has. */
  lemma {:induction false} ChunkStopFromFirst(chunks: seq<seq<byte>>, threshold: int, from: nat)
    requires 1 <= from
    decreases |chunks| + 1 - from
    ensures var r := ChunkStopFrom(chunks, threshold, from);
      (r.Some? ==> ChunkCount(chunks, r.value) >= threshold)
      && (r.Some? ==> forall m :: from <= m < r.value ==> ChunkCount(chunks, m) < threshold)
      && (r.None? ==> forall m :: from <= m <= |chunks| ==> ChunkCount(chunks, m) < threshold)
  {
    if from <= |chunks| && ChunkCount(chunks, from) < threshold {
      ChunkStopFromFirst(chunks, threshold, from + 1);
    }
  }

  /** Too few markers in the first `m` chunks, for every `m` from 1 up to `n`. */
  ghost predicate ChunksQuietUpTo(chunks: seq<seq<byte>>, threshold: int, n: nat) {
    n <= |chunks| && forall m :: 1 <= m <= n ==> ChunkCount(chunks, m) < threshold
  }

  lemma {:induction false} ChunkStopFromAt(chunks: seq<seq<byte>>, threshold: int, from: nat, n: nat)
    requires 1 <= from <= n <= |chunks| && ChunkCount(chunks, n) >= threshold
    requires ChunksQuietUpTo(chunks, threshold, n - 1)
    decreases n - from
    ensures ChunkStopFrom(chunks, threshold, from) == Some(n)
  {
    if from < n {
      ChunkStopFromAt(chunks, threshold, from + 1, n);
    }
  }

  lemma {:induction false} ChunkStopFromNone(chunks: seq<seq<byte>>, threshold: int, from: nat)
    requires 1 <= from
    requires ChunksQuietUpTo(chunks, threshold, |chunks|)
    decreases |chunks| + 1 - from
    ensures ChunkStopFrom(chunks, threshold, from) == None
  {
    if from <= |chunks| {
      ChunkStopFromNone(chunks, threshold, from + 1);
    }
  }

  /** Where `send` stops: after the fewest chunks, at least one, that hold enough markers. */
  ghost function ChunkStop(chunks: seq<seq<byte>>, threshold: int): Option<nat> {
    ChunkStopFrom(chunks, threshold, 1)
  }

  /** What `send` returns when the amplifier's answer arrives as `chunks`. */
  ghost function SendOutcome(chunks: seq<seq<byte>>, threshold: int): Result<string, Error> {
    match ChunkStop(chunks, threshold)
    case None => Err(Timeout(Flatten(chunks)))
    case Some(k) => DecodeResponse(Flatten(chunks[..k]))
  }

  /** The chunks still queued after `send` returns. */
  ghost function SendLeftover(chunks: seq<seq<byte>>, threshold: int): seq<seq<byte>> {
    match ChunkStop(chunks, threshold)
    case None => []
    case Some(k) => chunks[k..]
  }

  /** The stopping rule at `n` chunks: enough markers now, too few after every smaller number. */
  lemma ChunkStopAt(chunks: seq<seq<byte>>, threshold: int, n: nat)
    requires 1 <= n <= |chunks| && ChunkCount(chunks, n) >= threshold
    requires ChunksQuietUpTo(chunks, threshold, n - 1)
    ensures ChunkStop(chunks, threshold) == Some(n)
    ensures SendOutcome(chunks, threshold) == DecodeResponse(Flatten(chunks[..n]))
    ensures SendLeftover(chunks, threshold) == chunks[n..]
  {
    ChunkStopFromAt(chunks, threshold, 1, n);
  }

  /** Too few markers after every number of chunks: `send` never stops. */
  lemma {:induction false} ChunkNeverStops(chunks: seq<seq<byte>>, threshold: int)
    requires ChunksQuietUpTo(chunks, threshold, |chunks|)
    ensures ChunkStop(chunks, threshold) == None
    ensures SendOutcome(chunks, threshold) == Err(Timeout(Flatten(chunks)))
    ensures SendLeftover(chunks, threshold) == []
  {
    ChunkStopFromNone(chunks, threshold, 1);
  }

  /**
   * `send` times out exactly when no chunk arrives or all that arrives holds
   * fewer markers than the threshold.
   */
  lemma {:induction false} SendTimesOutIff(chunks: seq<seq<byte>>, threshold: int)
    ensures ChunkStop(chunks, threshold).None? <==> (|chunks| == 0 || EolCount(Flatten(chunks)) < threshold)
  {
    var r := ChunkStop(chunks, threshold);
    ChunkStopFromFirst(chunks, threshold, 1);
    if r.Some? {
      ChunkCountGrows(chunks, r.value);
    } else if |chunks| > 0 {
      assert ChunkCount(chunks, |chunks|) < threshold;
      assert chunks[..|chunks|] == chunks;
    }
  }

  /** The first `m` chunks hold no more markers than all of them. */
  lemma {:induction false} ChunkCountGrows(chunks: seq<seq<byte>>, m: nat)
    requires m <= |chunks|
    ensures ChunkCount(chunks, m) <= EolCount(Flatten(chunks))
  {
    FlattenPrefix(chunks, m, |chunks|);
    assert chunks[..|chunks|] == chunks;
    PrefixCountGrows(Flatten(chunks[..m]), Flatten(chunks));
  }

  /** A prefix holds no more markers than the whole. */
  lemma PrefixCountGrows(a: seq<byte>, all: seq<byte>)
    requires |a| <= |all| && all[..|a|] == a
    ensures EolCount(a) <= EolCount(all)
  {
    assert all == a + all[|a|..];
    EolCountGrows(a, all[|a|..]);
  }

  /**
   * A chunk boundary lies at or past the byte where the blocking loop stops, so
   * `send` returns at least what the blocking driver returns for the same bytes,
   * and exactly that when every chunk is a single byte.
   */
  lemma {:induction false} SinglesAgreeFrom(chunks: seq<seq<byte>>, threshold: int, from: nat)
    requires forall i :: 0 <= i < |chunks| ==> |chunks[i]| == 1
    requires 1 <= from
    decreases |chunks| + 1 - from
    ensures ChunkStopFrom(chunks, threshold, from) == StopFrom(Flatten(chunks), threshold, from)
  {
    var all := Flatten(chunks);
    FlattenSingles(chunks, |chunks|);
    assert chunks[..|chunks|] == chunks;
    if from <= |chunks| {
      FlattenSingles(chunks, from);
      FlattenPrefix(chunks, from, |chunks|);
      assert Flatten(chunks[..from]) == all[..from];
      SinglesAgreeFrom(chunks, threshold, from + 1);
    }
  }

  /** With one byte per chunk the asyncio cycle returns what the blocking cycle does, and leaves the same bytes unread. */
  lemma SinglesAgree(chunks: seq<seq<byte>>, threshold: int)
    requires forall i :: 0 <= i < |chunks| ==> |chunks[i]| == 1
    ensures SendOutcome(chunks, threshold) == ReadOutcome(Flatten(chunks), threshold)
    ensures Flatten(SendLeftover(chunks, threshold)) == Leftover(Flatten(chunks), threshold)
  {
    SinglesAgreeFrom(chunks, threshold, 1);
    var all := Flatten(chunks);
    FlattenSingles(chunks, |chunks|);
    assert chunks[..|chunks|] == chunks;
    match ChunkStop(chunks, threshold)
    case None =>
    case Some(k) =>
      FlattenSingles(chunks, k);
      FlattenPrefix(chunks, k, |chunks|);
      assert Flatten(chunks[..k]) == all[..k];
      SinglesRest(chunks, k);
  }

  /** With one byte per chunk, the chunks after the first `k` hold the bytes after the first `k`. */
  lemma {:induction false} SinglesRest(chunks: seq<seq<byte>>, k: nat)
    requires forall i :: 0 <= i < |chunks| ==> |chunks[i]| == 1
    requires k <= |chunks|
    decreases |chunks|
    ensures |Flatten(chunks)| == |chunks|
    ensures Flatten(chunks[k..]) == Flatten(chunks)[k..]
  {
    FlattenSingles(chunks, |chunks|);
    assert chunks[..|chunks|] == chunks;
    if k < |chunks| {
      var init := chunks[..|chunks| - 1];
      assert forall i :: 0 <= i < |init| ==> |init[i]| == 1;
      SinglesRest(init, k);
      FlattenSingles(init, |init|);
      assert init[..|init|] == init;
      assert chunks[k..][..|chunks[k..]| - 1] == init[k..];
    }
  }

  /**
   * One turn of the receive loop: appending chunk `i` to the bytes of the
   * chunks before it, the resumed cursor equals a from-scratch scan, and the
   * cycle either reaches the threshold, where its outcome is fixed, or stays
   * short of it after every chunk so far.
   */
  lemma ChunkStep(chunks: seq<seq<byte>>, threshold: int, i: nat, before: seq<byte>, count: Option<Cursor>, next: Cursor)
    requires i < |chunks| && before == Flatten(chunks[..i])
    requires count.GetOr(Cursor(0, 0)) == Scan(before, EOL, 0, 0)
    requires next == Scan(before + chunks[i], EOL, count.GetOr(Cursor(0, 0)).start, count.GetOr(Cursor(0, 0)).count)
    requires ChunksQuietUpTo(chunks, threshold, i)
    ensures before + chunks[i] == Flatten(chunks[..i + 1]) && chunks[i..][1..] == chunks[i + 1..]
    ensures next == Scan(before + chunks[i], EOL, 0, 0)
    ensures next.count >= threshold ==>
      SendOutcome(chunks, threshold) == DecodeResponse(before + chunks[i])
      && SendLeftover(chunks, threshold) == chunks[i + 1..]
    ensures next.count < threshold ==> ChunksQuietUpTo(chunks, threshold, i + 1)
  {
    FlattenSnoc(chunks, i);
    ScanResumes(before, chunks[i], EOL, 0, 0);
    if next.count >= threshold {
      ChunkStopAt(chunks, threshold, i + 1);
    }
  }

  class MonopriceProtocol {
    /** Chunks received (by `data_received`) and not yet taken by `send`. */
    var queue: seq<seq<byte>>
    /** Every request written to the transport, oldest first. */
    var sent: seq<seq<byte>>

    /** A fresh protocol: nothing queued, nothing written. */
    constructor ()
      ensures queue == [] && sent == []
    {
      queue := [];
      sent := [];
    }

    /**
     * `send`: drain the queue, write the request, then take chunks one at a
     * time, rethreading the end-of-line cursor over the growing result, until
     * `numEolsToRead` markers have arrived; no further chunk is the timeout.
     */
    method Send(request: seq<byte>, numEolsToRead: int, arriving: seq<seq<byte>>)
      returns (r: Result<string, Error>)
      modifies this
      ensures sent == old(sent) + [request]
      ensures r == SendOutcome(arriving, numEolsToRead)
      ensures queue == SendLeftover(arriving, numEolsToRead)
    {
      var result: seq<byte> := [];
      queue := [];  // drain the chunks still queued
      sent := sent + [request];
      queue := arriving;  // the amplifier's answer arrives
      var count: Option<Cursor> := None;
      ghost var i := 0;
      while true
        invariant sent == old(sent) + [request]
        invariant i <= |arriving| && queue == arriving[i..] && result == Flatten(arriving[..i])
        invariant count.GetOr(Cursor(0, 0)) == Scan(result, EOL, 0, 0)
        invariant ChunksQuietUpTo(arriving, numEolsToRead, i)
        decreases |queue|
      {
        if |queue| == 0 {
          assert arriving[..i] == arriving;
          ChunkNeverStops(arriving, numEolsToRead);
          return Err(Timeout(result));
        }
        var chunk := queue[0];  // take the next chunk
        queue := queue[1..];
        ghost var before := result;
        result := result + chunk;
        var next := SubsequenceCount(result, EOL, count);
        ChunkStep(arriving, numEolsToRead, i, before, count, next);
        count := Some(next);
        i := i + 1;
        if next.count >= numEolsToRead {
          return DecodeResponse(result);
        }
      }
    }
  }
}

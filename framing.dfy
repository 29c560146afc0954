/**
 * What one request/response cycle reads: bytes are taken one at a time until
 * the end-of-line count of what was read reaches the command's threshold;
 * running out of input first is the timeout.
 */
module Framing {
  import opened Wrappers
  import opened Bytes
  import opened Occurrences
  import opened Eol

  /** The failures a cycle reports: the port timed out, or the reply was not ASCII. */
  datatype Error = Timeout(received: seq<byte>) | NotAscii(received: seq<byte>)

  /** How many end-of-line markers a from-scratch scan counts in `buffer`. */
  function EolCount(buffer: seq<byte>): nat {
    Scan(buffer, EOL, 0, 0).count
  }

  /** Thresholds per command: set-commands wait for one marker, a zone query for two, a unit query for seven. */
  const SET_EOLS := 1
  const ZONE_EOLS := 2
  const UNIT_EOLS := 7

  /** The first length `n >= from` of a prefix of `reply` whose marker count reaches `threshold`. */
  ghost function StopFrom(reply: seq<byte>, threshold: int, from: nat): (r: Option<nat>)
    requires 1 <= from
    decreases |reply| + 1 - from
    ensures r.Some? ==> from <= r.value <= |reply|
  {
    if from > |reply| then None
    else if EolCount(reply[..from]) >= threshold then Some(from)
    else StopFrom(reply, threshold, from + 1)
  }

  /** `StopFrom` finds the first length, from `from` on, with enough markers, or reports that none has. */
  lemma {:induction false} StopFromFirst(reply: seq<byte>, threshold: int, from: nat)
    requires 1 <= from
    decreases |reply| + 1 - from
    ensures var r := StopFrom(reply, threshold, from);
      (r.Some? ==> EolCount(reply[..r.value]) >= threshold)
      && (r.Some? ==> forall m :: from <= m < r.value ==> EolCount(reply[..m]) < threshold)
      && (r.None? ==> forall m :: from <= m <= |reply| ==> EolCount(reply[..m]) < threshold)
  {
    if from <= |reply| && EolCount(reply[..from]) < threshold {
      StopFromFirst(reply, threshold, from + 1);
    }
  }

  /** Every length from `from` up to `n` has too few markers and `n` has enough: the search stops at `n`. */
  lemma {:induction false} StopFromAt(reply: seq<byte>, threshold: int, from: nat, n: nat)
    requires 1 <= from <= n <= |reply| && EolCount(reply[..n]) >= threshold
    requires forall m :: from <= m < n ==> EolCount(reply[..m]) < threshold
    decreases n - from
    ensures StopFrom(reply, threshold, from) == Some(n)
  {
    if from < n {
      StopFromAt(reply, threshold, from + 1, n);
    }
  }

  /** Every length from `from` on has too few markers: the search finds nothing. */
  lemma {:induction false} StopFromNone(reply: seq<byte>, threshold: int, from: nat)
    requires 1 <= from
    requires forall m :: from <= m <= |reply| ==> EolCount(reply[..m]) < threshold
    decreases |reply| + 1 - from
    ensures StopFrom(reply, threshold, from) == None
  {
    if from <= |reply| {
      StopFromNone(reply, threshold, from + 1);
    }
  }

  /** Where the read loop stops: the shortest non-empty prefix that holds enough markers. */
  ghost function ReadStop(reply: seq<byte>, threshold: int): Option<nat> {
    StopFrom(reply, threshold, 1)
  }

  /** `bytes.decode("ascii")`, which fails on any byte of 128 or more. */
  function DecodeResponse(buffer: seq<byte>): (r: Result<string, Error>)
    ensures r.Ok? <==> IsAsciiBytes(buffer)
    ensures r.Ok? ==> IsAsciiText(r.value) && Encode(r.value) == buffer
  {
    if IsAsciiBytes(buffer) then Ok(Decode(buffer)) else Err(NotAscii(buffer))
  }

  /** What a cycle returns when the amplifier answers `reply`. */
  ghost function ReadOutcome(reply: seq<byte>, threshold: int): Result<string, Error> {
    match ReadStop(reply, threshold)
    case None => Err(Timeout(reply))
    case Some(n) => DecodeResponse(reply[..n])
  }

  /** The bytes of `reply` still unread in the port's input buffer after the cycle. */
  ghost function Leftover(reply: seq<byte>, threshold: int): seq<byte> {
    match ReadStop(reply, threshold)
    case None => []
    case Some(n) => reply[n..]
  }

  /** The marker count only grows as bytes are appended. */
  lemma EolCountGrows(a: seq<byte>, b: seq<byte>)
    ensures EolCount(a) <= EolCount(a + b)
  {
    ScanResumes(a, b, EOL, 0, 0);
  }

  /** One more byte adds at most one marker, and only when the buffer then ends with the marker. */
  lemma EolCountStep(a: seq<byte>, x: byte)
    ensures EolCount(a) <= EolCount(a + [x]) <= EolCount(a) + 1
    ensures EolCount(a + [x]) == EolCount(a) + 1 ==> |a| + 1 >= 3 && (a + [x])[|a| + 1 - 3..] == EOL
  {
    ScanOneMore(a, x, EOL, 0, 0);
  }

  /**
   * The cycle times out exactly when nothing arrives or the whole reply holds
   * fewer markers than the threshold.
   */
  lemma {:induction false} TimesOutIff(reply: seq<byte>, threshold: int)
    ensures ReadStop(reply, threshold).None? <==> (|reply| == 0 || EolCount(reply) < threshold)
  {
    var r := ReadStop(reply, threshold);
    StopFromFirst(reply, threshold, 1);
    if |reply| > 0 {
      assert reply[..|reply|] == reply;
      if r.Some? {
        EolCountGrows(reply[..r.value], reply[r.value..]);
        assert reply[..r.value] + reply[r.value..] == reply;
      }
    }
  }

  /**
   * With a threshold of at least one, the loop stops on the byte that
   * completes the threshold-th marker: the prefix ends with the marker and
   * holds exactly `threshold` of them.
   */
  lemma {:induction false} StopsAtNthEol(reply: seq<byte>, threshold: int)
    requires threshold >= 1 && ReadStop(reply, threshold).Some?
    ensures var n := ReadStop(reply, threshold).value;
      n >= 3 && EolCount(reply[..n]) == threshold && reply[n - 3..n] == EOL
  {
    StopFromFirst(reply, threshold, 1);
    var n := ReadStop(reply, threshold).value;
    var before := reply[..n - 1];
    assert before + [reply[n - 1]] == reply[..n];
    EolCountStep(before, reply[n - 1]);
    if n > 1 {
      assert EolCount(before) < threshold;
    }
    assert EolCount(reply[..n]) == EolCount(before) + 1;
    assert reply[..n][n - 3..] == reply[n - 3..n];
  }

  /** No non-empty prefix of `reply` up to length `n` holds `threshold` markers. */
  ghost predicate QuietUpTo(reply: seq<byte>, threshold: int, n: nat) {
    n <= |reply| && forall m :: 1 <= m <= n ==> EolCount(reply[..m]) < threshold
  }

  /** The loop's stopping rule at a given length: enough markers now, too few at every shorter length. */
  lemma ReadStopAt(reply: seq<byte>, threshold: int, n: nat)
    requires 1 <= n <= |reply| && EolCount(reply[..n]) >= threshold
    requires QuietUpTo(reply, threshold, n - 1)
    ensures ReadStop(reply, threshold) == Some(n)
    ensures ReadOutcome(reply, threshold) == DecodeResponse(reply[..n])
    ensures Leftover(reply, threshold) == reply[n..]
  {
    StopFromAt(reply, threshold, 1, n);
  }

  /** Too few markers at every length: the loop never stops. */
  lemma ReadNeverStops(reply: seq<byte>, threshold: int)
    requires QuietUpTo(reply, threshold, |reply|)
    ensures ReadStop(reply, threshold) == None
    ensures ReadOutcome(reply, threshold) == Err(Timeout(reply))
    ensures Leftover(reply, threshold) == []
  {
    StopFromNone(reply, threshold, 1);
  }
}

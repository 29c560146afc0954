/**
 * The blocking driver `Monoprice`: one request/response cycle per call over
 * a serial port, and the facade of getters, setters and zone restore built on it.
 *
 * The port is two fields: the bytes waiting in its input buffer, and the log
 * of every request written to it. The bytes the amplifier sends back after a
 * request are a parameter of each call.
 */
module Amplifier {
  import opened Wrappers
  import opened Bytes
  import opened Occurrences
  import opened Eol
  import opened Encoder
  import opened Status
  import opened Text
  import opened Framing

  /** A call that returns nothing either completes or fails with the cycle's error. */
  datatype Outcome = Done | Failed(error: Error)

  function OutcomeOf(r: Result<string, Error>): Outcome {
    match r
    case Ok(_) => Done
    case Err(e) => Failed(e)
  }

  /**
   * The response text of a whole-unit query, cut at every end-of-line marker:
   * the pieces glue back into the text, and no piece holds a marker.
   */
  function SplitAtEol(text: string): (pieces: seq<string>)
    ensures |pieces| >= 1 && Join(pieces, "\r\n#") == text
    ensures forall k :: 0 <= k < |pieces| ==> Find(pieces[k], "\r\n#", 0) < 0
  {
    Split(text, "\r\n#")
  }

  /** The reply to the `i`-th request, or nothing at all when the amplifier stays silent. */
  function ReplyAt(replies: seq<seq<byte>>, i: nat): seq<byte> {
    if i < |replies| then replies[i] else []
  }

  /**
   * What `restore_zone` asks of the amplifier, in order: the snapshot's zone
   * with its power, mute, volume, treble, bass, balance and source, each value
   * clamped as its setter clamps it.
   */
  function RestorePlan(st: ZoneStatus): (plan: seq<SetCommand>)
    ensures |plan| == 7 && forall i :: 0 <= i < 7 ==> plan[i].value < 100 && plan[i].zone == st.zone
  {
    [SetCommand(st.zone, Power, if st.power then 1 else 0),
     SetCommand(st.zone, Mute, if st.mute then 1 else 0),
     SetCommand(st.zone, Volume, Clamp(st.volume, 0, 38)),
     SetCommand(st.zone, Treble, Clamp(st.treble, 0, 14)),
     SetCommand(st.zone, Bass, Clamp(st.bass, 0, 14)),
     SetCommand(st.zone, Balance, Clamp(st.balance, 0, 20)),
     SetCommand(st.zone, Source, Clamp(st.source, 1, 6))]
  }

  /** The seven set-requests `restore_zone` sends. */
  function RestoreRequests(st: ZoneStatus): seq<seq<byte>> {
    var plan := RestorePlan(st);
    seq(7, i requires 0 <= i < 7 => SetRequest(plan[i]))
  }

  /** Each request a restore sends reads back as the matching step of the plan. */
  lemma RestoreReplaysSnapshot(st: ZoneStatus)
    ensures |RestoreRequests(st)| == 7
    ensures forall i :: 0 <= i < 7 ==> ParseSet(RestoreRequests(st)[i]) == Some(RestorePlan(st)[i])
  {
    var plan := RestorePlan(st);
    forall i | 0 <= i < 7
      ensures ParseSet(RestoreRequests(st)[i]) == Some(plan[i])
    {
      SetRequestParses(plan[i]);
    }
  }

  /** The restore's requests are exactly what the seven setters send, in the order `restore_zone` calls them. */
  lemma RestoreCallsSetters(st: ZoneStatus)
    ensures |RestoreRequests(st)| == 7
    ensures RestoreRequests(st)[0] == FormatSetPower(st.zone, PyBool(st.power))
    ensures RestoreRequests(st)[1] == FormatSetMute(st.zone, PyBool(st.mute))
    ensures RestoreRequests(st)[2] == FormatSetVolume(st.zone, st.volume)
    ensures RestoreRequests(st)[3] == FormatSetTreble(st.zone, st.treble)
    ensures RestoreRequests(st)[4] == FormatSetBass(st.zone, st.bass)
    ensures RestoreRequests(st)[5] == FormatSetBalance(st.zone, st.balance)
    ensures RestoreRequests(st)[6] == FormatSetSource(st.zone, st.source)
  {
    assert RestoreRequests(st) == [FormatSetPower(st.zone, PyBool(st.power)),
                                   FormatSetMute(st.zone, PyBool(st.mute)),
                                   FormatSetVolume(st.zone, st.volume),
                                   FormatSetTreble(st.zone, st.treble),
                                   FormatSetBass(st.zone, st.bass),
                                   FormatSetBalance(st.zone, st.balance),
                                   FormatSetSource(st.zone, st.source)];
  }

  /** The set-commands the restore test expects, in order: zone 1, power on, mute off, volume 13, treble 11, bass 12, balance 10, source 4. */
  const RESTORE_SAMPLE: seq<SetCommand> :=
    [SetCommand(1, Power, 1), SetCommand(1, Mute, 0), SetCommand(1, Volume, 13), SetCommand(1, Treble, 11),
     SetCommand(1, Bass, 12), SetCommand(1, Balance, 10), SetCommand(1, Source, 4)]

  /** The requests the restore test answers, byte for byte. */
  const RESTORE_BYTES: seq<seq<byte>> :=
    [Encode("<1PR01\r"), Encode("<1MU00\r"), Encode("<1VO13\r"), Encode("<1TR11\r"),
     Encode("<1BS12\r"), Encode("<1BL10\r"), Encode("<1CH04\r")]

  /** The restore test: the snapshot decoded from its status line is restored by exactly the seven requests the test answers, which read back as the expected commands. */
  lemma RestoreSample(s: string)
    requires s == "\r\n#>0100010000131112100401\r\n#"
    ensures FromString(s).Some?
    ensures var reqs := RestoreRequests(FromString(s).value);
      |reqs| == 7 && forall i :: 0 <= i < 7 ==> ParseSet(reqs[i]) == Some(RESTORE_SAMPLE[i])
    ensures RestoreRequests(FromString(s).value) == RESTORE_BYTES
  {
    DecodesSampleLine(s);
    var st := FromString(s).value;
    assert RestorePlan(st) == RESTORE_SAMPLE;
    RestoreReplaysSnapshot(st);
    RestoreSampleBytes(st);
  }

  /** A snapshot whose plan is the restore test's sends exactly the test's bytes. */
  lemma RestoreSampleBytes(st: ZoneStatus)
    requires RestorePlan(st) == RESTORE_SAMPLE
    ensures RestoreRequests(st) == RESTORE_BYTES
  {
    SampleText(1, Power, 1, "<1PR01\r");
    SampleText(1, Mute, 0, "<1MU00\r");
    SampleText(1, Volume, 13, "<1VO13\r");
    SampleText(1, Treble, 11, "<1TR11\r");
    SampleText(1, Bass, 12, "<1BS12\r");
    SampleText(1, Balance, 10, "<1BL10\r");
    SampleText(1, Source, 4, "<1CH04\r");
    assert RestoreRequests(st) ==
      [SetRequest(RESTORE_SAMPLE[0]), SetRequest(RESTORE_SAMPLE[1]), SetRequest(RESTORE_SAMPLE[2]),
       SetRequest(RESTORE_SAMPLE[3]), SetRequest(RESTORE_SAMPLE[4]), SetRequest(RESTORE_SAMPLE[5]),
       SetRequest(RESTORE_SAMPLE[6])];
  }

  /** What the `i`-th set-request of a restore returns when the amplifier answers it with `ReplyAt(replies, i)`. */
  ghost function StepOutcome(replies: seq<seq<byte>>, i: nat): Outcome {
    OutcomeOf(ReadOutcome(ReplyAt(replies, i), SET_EOLS))
  }

  /** The first of the seven restore steps, from `i` on, that fails. */
  ghost function FailedStep(replies: seq<seq<byte>>, i: nat): (r: Option<nat>)
    ensures r.Some? ==> i <= r.value < 7
    decreases 7 - i
  {
    if i >= 7 then None
    else if StepOutcome(replies, i).Failed? then Some(i)
    else FailedStep(replies, i + 1)
  }

  /** How many of the seven set-requests a restore sends: up to and including the first that fails. */
  ghost function RestoreSteps(replies: seq<seq<byte>>): (n: nat)
    ensures 1 <= n <= 7
  {
    match FailedStep(replies, 0)
    case None => 7
    case Some(i) => i + 1
  }

  /** A restore fails as its first failing step fails, and is done when none fails. */
  ghost function RestoreOutcome(replies: seq<seq<byte>>): Outcome {
    match FailedStep(replies, 0)
    case None => Done
    case Some(i) => StepOutcome(replies, i)
  }

  /** What the port still holds after a restore: whatever followed the reply to its last request. */
  ghost function RestoreLeftover(replies: seq<seq<byte>>): seq<byte> {
    Leftover(ReplyAt(replies, RestoreSteps(replies) - 1), SET_EOLS)
  }

  /** The steps of a restore before `k` all succeed. */
  ghost predicate DoneBefore(replies: seq<seq<byte>>, k: nat) {
    forall j :: 0 <= j < k ==> StepOutcome(replies, j).Done?
  }

  lemma DoneBeforeNext(replies: seq<seq<byte>>, k: nat)
    requires DoneBefore(replies, k) && StepOutcome(replies, k).Done?
    ensures DoneBefore(replies, k + 1)
  {
  }

  /** Searching from `i`, with every step from `i` up to `k` succeeding, finds the first failure at or after `k`. */
  lemma {:induction false} FailedStepSkips(replies: seq<seq<byte>>, i: nat, k: nat)
    requires i <= k && forall j :: i <= j < k ==> StepOutcome(replies, j).Done?
    ensures FailedStep(replies, i) == FailedStep(replies, k)
    decreases k - i
  {
    if i < k {
      FailedStepSkips(replies, i + 1, k);
    }
  }

  /** A restore whose steps before `k` succeed and whose step `k` fails stops after `k + 1` requests, with that failure. */
  lemma RestoreStopsAt(replies: seq<seq<byte>>, k: nat)
    requires k < 7 && StepOutcome(replies, k).Failed?
    requires DoneBefore(replies, k)
    ensures RestoreSteps(replies) == k + 1 && RestoreOutcome(replies) == StepOutcome(replies, k)
    ensures RestoreLeftover(replies) == Leftover(ReplyAt(replies, k), SET_EOLS)
  {
    FailedStepSkips(replies, 0, k);
  }

  /** A restore whose seven steps all succeed sends all seven requests and is done. */
  lemma RestoreCompletes(replies: seq<seq<byte>>)
    requires DoneBefore(replies, 7)
    ensures RestoreSteps(replies) == 7 && RestoreOutcome(replies) == Done
    ensures RestoreLeftover(replies) == Leftover(ReplyAt(replies, 6), SET_EOLS)
  {
    FailedStepSkips(replies, 0, 7);
  }

  /**
   * A restore of `st` that began with `start` written ended as it should:
   * it wrote the requests up to and including the first failing one, the
   * port holds what followed the last reply, and it reports that failure.
   */
  ghost predicate Restored(st: ZoneStatus, replies: seq<seq<byte>>, start: seq<seq<byte>>,
                           log: seq<seq<byte>>, leftover: seq<byte>, r: Outcome) {
    log == start + RestoreRequests(st)[..RestoreSteps(replies)]
    && leftover == RestoreLeftover(replies)
    && r == RestoreOutcome(replies)
  }

  /** A restore that stops after step `k`, because it failed or was the last, ended as it should. */
  lemma RestoreEndsAt(st: ZoneStatus, replies: seq<seq<byte>>, start: seq<seq<byte>>,
                      log: seq<seq<byte>>, leftover: seq<byte>, r: Outcome, k: nat)
    requires k < 7 && DoneBefore(replies, k) && (StepOutcome(replies, k).Failed? || k == 6)
    requires log == start + RestoreRequests(st)[..k + 1]
    requires leftover == Leftover(ReplyAt(replies, k), SET_EOLS) && r == StepOutcome(replies, k)
    ensures Restored(st, replies, start, log, leftover, r)
  {
    if r.Failed? {
      RestoreStopsAt(replies, k);
    } else {
      DoneBeforeNext(replies, k);
      RestoreCompletes(replies);
    }
  }

  /** Sending the next request of a list extends the sent prefix by one. */
  lemma SentNext(log: seq<seq<byte>>, start: seq<seq<byte>>, reqs: seq<seq<byte>>, k: nat, request: seq<byte>)
    requires k < |reqs| && log == start + reqs[..k] && request == reqs[k]
    ensures log + [request] == start + reqs[..k + 1]
  {
    assert reqs[..k + 1] == reqs[..k] + [reqs[k]];
  }

  /**
   * One turn of the read loop: taking byte `c` after `before` extends the
   * prefix read, keeps the cursor equal to a from-scratch scan, and either
   * reaches the threshold, where the cycle's outcome is fixed, or leaves every
   * prefix so far short of it.
   */
  lemma ReadStep(reply: seq<byte>, threshold: int, before: seq<byte>, c: byte, count: Option<Cursor>, next: Cursor)
    requires |before| < |reply| && before == reply[..|before|] && c == reply[|before|]
    requires count.None? <==> before == []
    requires count.Some? ==> count.value == Scan(before, EOL, 0, 0)
    requires next == Scan(before + [c], EOL, count.GetOr(Cursor(0, 0)).start, count.GetOr(Cursor(0, 0)).count)
    requires QuietUpTo(reply, threshold, |before|)
    ensures before + [c] == reply[..|before| + 1] && reply[|before|..][1..] == reply[|before| + 1..]
    ensures next == Scan(before + [c], EOL, 0, 0)
    ensures next.count >= threshold ==>
      ReadOutcome(reply, threshold) == DecodeResponse(before + [c])
      && Leftover(reply, threshold) == reply[|before| + 1..]
    ensures next.count < threshold ==> QuietUpTo(reply, threshold, |before| + 1)
  {
    assert before + [c] == reply[..|before| + 1];
    if count.Some? {
      ScanResumes(before, [c], EOL, 0, 0);
    }
    if next.count >= threshold {
      ReadStopAt(reply, threshold, |before| + 1);
    }
  }

  class Monoprice {
    /** Bytes received and not yet read. */
    var input: seq<byte>
    /** Every request written to the port, oldest first. */
    var sent: seq<seq<byte>>

    /** A freshly opened port: nothing received, nothing written. */
    constructor ()
      ensures input == [] && sent == []
    {
      input := [];
      sent := [];
    }

    /** `_send_request`: discard pending input, then write the request. */
    method SendRequest(request: seq<byte>)
      modifies this
      ensures input == []
      ensures sent == old(sent) + [request]
    {
      input := [];
      sent := sent + [request];
    }

    /**
     * `_process_request`: write the request, then read one byte at a time,
     * rethreading the end-of-line cursor, until `numEolsToRead` markers have
     * arrived; the port running dry first is a timeout.
     */
    method ProcessRequest(request: seq<byte>, numEolsToRead: int, reply: seq<byte>)
      returns (r: Result<string, Error>)
      modifies this
      ensures sent == old(sent) + [request]
      ensures r == ReadOutcome(reply, numEolsToRead)
      ensures input == Leftover(reply, numEolsToRead)
    {
      SendRequest(request);
      input := input + reply;  // the amplifier's answer arrives
      var result: seq<byte> := [];
      var count: Option<Cursor> := None;
      while true
        invariant sent == old(sent) + [request]
        invariant |result| <= |reply| && result == reply[..|result|] && input == reply[|result|..]
        invariant count.None? <==> result == []
        invariant count.Some? ==> count.value == Scan(result, EOL, 0, 0)
        invariant QuietUpTo(reply, numEolsToRead, |result|)
        decreases |input|
      {
        if |input| == 0 {
          assert result == reply;
          ReadNeverStops(reply, numEolsToRead);
          return Err(Timeout(result));
        }
        var c := input[0];  // read one byte
        input := input[1..];
        ghost var before := result;
        result := result + [c];
        var next := SubsequenceCount(result, EOL, count);
        ReadStep(reply, numEolsToRead, before, c, count, next);
        count := Some(next);
        if next.count >= numEolsToRead {
          return DecodeResponse(result);
        }
      }
    }

    /** `zone_status`: query one zone, read two markers, decode the status. */
    method GetZoneStatus(zone: int, reply: seq<byte>) returns (r: Result<Option<ZoneStatus>, Error>)
      modifies this
      ensures sent == old(sent) + [FormatZoneStatusRequest(zone)]
      ensures input == Leftover(reply, ZONE_EOLS)
      ensures r == match ReadOutcome(reply, ZONE_EOLS)
                   case Ok(text) => Ok(FromString(text))
                   case Err(e) => Err(e)
    {
      var text := ProcessRequest(FormatZoneStatusRequest(zone), ZONE_EOLS, reply);
      match text
      case Ok(t) => return Ok(FromString(t));
      case Err(e) => return Err(e);
    }

    /**
     * `all_zone_status`: for a unit outside 1..3 return no statuses and send
     * nothing; otherwise query the unit, read seven markers, split the text at
     * every marker and decode every piece that parses.
     */
    method GetAllZoneStatus(unit: int, reply: seq<byte>) returns (r: Result<seq<ZoneStatus>, Error>)
      modifies this
      ensures unit < 1 || unit > 3 ==> r == Ok([]) && sent == old(sent) && input == old(input)
      ensures 1 <= unit <= 3 ==>
        sent == old(sent) + [FormatAllZonesStatusRequest(unit)]
        && input == Leftover(reply, UNIT_EOLS)
        && r == match ReadOutcome(reply, UNIT_EOLS)
                case Ok(text) => Ok(FromStrings(SplitAtEol(text)))
                case Err(e) => Err(e)
    {
      if unit < 1 || unit > 3 {
        return Ok([]);
      }
      var text := ProcessRequest(FormatAllZonesStatusRequest(unit), UNIT_EOLS, reply);
      match text
      case Ok(t) => return Ok(FromStrings(SplitAtEol(t)));
      case Err(e) => return Err(e);
    }

    /** `set_power`. */
    method SetPower(zone: int, power: PyValue, reply: seq<byte>) returns (r: Outcome)
      modifies this
      ensures sent == old(sent) + [FormatSetPower(zone, power)]
      ensures input == Leftover(reply, SET_EOLS)
      ensures r == OutcomeOf(ReadOutcome(reply, SET_EOLS))
    {
      var text := ProcessRequest(FormatSetPower(zone, power), SET_EOLS, reply);
      r := OutcomeOf(text);
    }

    /** `set_mute`. */
    method SetMute(zone: int, mute: PyValue, reply: seq<byte>) returns (r: Outcome)
      modifies this
      ensures sent == old(sent) + [FormatSetMute(zone, mute)]
      ensures input == Leftover(reply, SET_EOLS)
      ensures r == OutcomeOf(ReadOutcome(reply, SET_EOLS))
    {
      var text := ProcessRequest(FormatSetMute(zone, mute), SET_EOLS, reply);
      r := OutcomeOf(text);
    }

    /** `set_volume`. */
    method SetVolume(zone: int, volume: int, reply: seq<byte>) returns (r: Outcome)
      modifies this
      ensures sent == old(sent) + [FormatSetVolume(zone, volume)]
      ensures input == Leftover(reply, SET_EOLS)
      ensures r == OutcomeOf(ReadOutcome(reply, SET_EOLS))
    {
      var text := ProcessRequest(FormatSetVolume(zone, volume), SET_EOLS, reply);
      r := OutcomeOf(text);
    }

    /** `set_treble`. */
    method SetTreble(zone: int, treble: int, reply: seq<byte>) returns (r: Outcome)
      modifies this
      ensures sent == old(sent) + [FormatSetTreble(zone, treble)]
      ensures input == Leftover(reply, SET_EOLS)
      ensures r == OutcomeOf(ReadOutcome(reply, SET_EOLS))
    {
      var text := ProcessRequest(FormatSetTreble(zone, treble), SET_EOLS, reply);
      r := OutcomeOf(text);
    }

    /** `set_bass`. */
    method SetBass(zone: int, bass: int, reply: seq<byte>) returns (r: Outcome)
      modifies this
      ensures sent == old(sent) + [FormatSetBass(zone, bass)]
      ensures input == Leftover(reply, SET_EOLS)
      ensures r == OutcomeOf(ReadOutcome(reply, SET_EOLS))
    {
      var text := ProcessRequest(FormatSetBass(zone, bass), SET_EOLS, reply);
      r := OutcomeOf(text);
    }

    /** `set_balance`. */
    method SetBalance(zone: int, balance: int, reply: seq<byte>) returns (r: Outcome)
      modifies this
      ensures sent == old(sent) + [FormatSetBalance(zone, balance)]
      ensures input == Leftover(reply, SET_EOLS)
      ensures r == OutcomeOf(ReadOutcome(reply, SET_EOLS))
    {
      var text := ProcessRequest(FormatSetBalance(zone, balance), SET_EOLS, reply);
      r := OutcomeOf(text);
    }

    /** `set_source`. */
    method SetSource(zone: int, source: int, reply: seq<byte>) returns (r: Outcome)
      modifies this
      ensures sent == old(sent) + [FormatSetSource(zone, source)]
      ensures input == Leftover(reply, SET_EOLS)
      ensures r == OutcomeOf(ReadOutcome(reply, SET_EOLS))
    {
      var text := ProcessRequest(FormatSetSource(zone, source), SET_EOLS, reply);
      r := OutcomeOf(text);
    }

    /**
     * `restore_zone`: replay the snapshot as seven set-requests in a fixed
     * order; the first step that fails ends the restore with its error, and
     * the steps after it are never sent.
     */
    method RestoreZone(status: ZoneStatus, replies: seq<seq<byte>>) returns (r: Outcome)
      modifies this
      ensures Restored(status, replies, old(sent), sent, input, r)
    {
      ghost var reqs := RestoreRequests(status);
      ghost var start := sent;
      RestoreCallsSetters(status);
      assert sent == start + reqs[..0];
      SentNext(sent, start, reqs, 0, FormatSetPower(status.zone, PyBool(status.power)));
      r := SetPower(status.zone, PyBool(status.power), ReplyAt(replies, 0));
      if r.Failed? {
        RestoreEndsAt(status, replies, start, sent, input, r, 0);
        return;
      }
      DoneBeforeNext(replies, 0);
      SentNext(sent, start, reqs, 1, FormatSetMute(status.zone, PyBool(status.mute)));
      r := SetMute(status.zone, PyBool(status.mute), ReplyAt(replies, 1));
      if r.Failed? {
        RestoreEndsAt(status, replies, start, sent, input, r, 1);
        return;
      }
      DoneBeforeNext(replies, 1);
      SentNext(sent, start, reqs, 2, FormatSetVolume(status.zone, status.volume));
      r := SetVolume(status.zone, status.volume, ReplyAt(replies, 2));
      if r.Failed? {
        RestoreEndsAt(status, replies, start, sent, input, r, 2);
        return;
      }
      DoneBeforeNext(replies, 2);
      SentNext(sent, start, reqs, 3, FormatSetTreble(status.zone, status.treble));
      r := SetTreble(status.zone, status.treble, ReplyAt(replies, 3));
      if r.Failed? {
        RestoreEndsAt(status, replies, start, sent, input, r, 3);
        return;
      }
      DoneBeforeNext(replies, 3);
      SentNext(sent, start, reqs, 4, FormatSetBass(status.zone, status.bass));
      r := SetBass(status.zone, status.bass, ReplyAt(replies, 4));
      if r.Failed? {
        RestoreEndsAt(status, replies, start, sent, input, r, 4);
        return;
      }
      DoneBeforeNext(replies, 4);
      SentNext(sent, start, reqs, 5, FormatSetBalance(status.zone, status.balance));
      r := SetBalance(status.zone, status.balance, ReplyAt(replies, 5));
      if r.Failed? {
        RestoreEndsAt(status, replies, start, sent, input, r, 5);
        return;
      }
      DoneBeforeNext(replies, 5);
      SentNext(sent, start, reqs, 6, FormatSetSource(status.zone, status.source));
      r := SetSource(status.zone, status.source, ReplyAt(replies, 6));
      RestoreEndsAt(status, replies, start, sent, input, r, 6);
    }
  }
}

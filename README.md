# pymonoprice framing layer in Dafny

This project models the ASCII framing layer that `pymonoprice` uses to drive
a Monoprice multi-zone amplifier over a serial line, and proves properties of
that model. The model has five parts:

- **End-of-line counter** (`_subsequence_count`): a resumable scan. It counts
  the marker `\r\n#` in a growing byte buffer and threads a `(start, count)`
  cursor from one call to the next (modules `Occurrences` and `Eol`).
- **Request encoder** (the `_format_*` helpers): builds `?{zone}\r`,
  `?{unit*10}\r` and `<{zone}{CODE}{vv}\r`. Values are clamped, and power and
  mute follow Python truthiness (module `Encoder`, on top of `Decimal` for
  `str()` / `{:02}` and `Bytes` for the ASCII codec).
- **Status decoder** (`ZoneStatus.from_string` / `from_strings`): a search
  for `>` followed by eleven two-digit groups (module `Status`), plus the
  `str.split` the unit query applies first (module `Text`).
- **Blocking request/response cycle** (`Monoprice._process_request`) and the
  facade built on it (module `Amplifier`, class `Monoprice`):
  - a `while` loop that reads one byte at a time until the marker count
    reaches the command's threshold: 1 for set-commands, 2 for a zone
    query, 7 for a unit query;
  - the unit check of `all_zone_status`;
  - the seven ordered set-requests of `restore_zone`.

  Its specification (where the loop stops, what it returns and what stays
  unread) lives in module `Framing`.
- **asyncio cycle** (`MonopriceProtocol.send`): the same loop over whole
  chunks taken from a queue (module `Protocol`, class `MonopriceProtocol`).

The serial port is two fields:

- `input`, the bytes received and not yet read (for the asyncio protocol,
  `queue`, the chunks received and not yet taken);
- `sent`, the log of every request written.

The bytes the amplifier sends back after a request are a parameter of each
call. A timeout is the reply running out before the threshold is reached.
Python exceptions (`SerialTimeoutException`, `asyncio.TimeoutError`,
`UnicodeDecodeError`) become `Err(Timeout(...))` / `Err(NotAscii(...))`
results. In `restore_zone` they become an early return with `Failed(...)`.

The code's end-of-line counter resumes each search just past the marker it
found (`start = idx + len(sub)`), so it counts non-overlapping
occurrences.
`Eol.ResumeExample` shows the difference on a marker that can overlap
itself (`\r\r`). `Eol.EolCountsEveryMarker` proves the difference never
shows for the real marker `\r\n#`, which cannot overlap itself.

## Model

| member | source | states |
|---|---|---|
| Occurrences.Find | pymonoprice/__init__.py:452 | `bytes.find(sub, start)`: -1 or an index at or after `start` where `sub` fits |
| Occurrences.FindFirst | pymonoprice/__init__.py:452 | the index found is the first occurrence at or after `start`, and -1 means there is no occurrence from `start` on |
| Occurrences.FindInExtension | pymonoprice/__init__.py:428-429 | appending bytes to a buffer never moves a first occurrence that is already present |
| Eol.Scan | pymonoprice/__init__.py:446-455 | the cursor the counter's loop computes never moves back (start and count only grow) and stays within the buffer when it starts there |
| Eol.SubsequenceCount | pymonoprice/__init__.py:446-455 | the `while True` loop returns the cursor `Scan` defines, starting from `(0, 0)` when there is no previous cursor; start and count do not decrease, start stays within the buffer, and no marker remains after the returned start |
| Eol.Positions | pymonoprice/__init__.py:451-455 | the markers a scan counts really occur, in increasing order, and never overlap |
| Eol.ScanCountsPositions | pymonoprice/__init__.py:451-455 | a scan adds one to the count per counted marker and leaves the start just past the last one |
| Eol.ScanResumes | pymonoprice/__init__.py:165-166 | resuming with the returned cursor after appending bytes gives the same cursor as one scan of the whole buffer from the same origin: no marker is counted twice or missed |
| Eol.ScanExhausts | pymonoprice/__init__.py:451-454 | a scan runs until no marker is left after its start |
| Eol.ScanOneMore | pymonoprice/__init__.py:165-166 | appending one byte raises the count by at most one, and only when the buffer then ends with the marker |
| Eol.EolCountsEveryMarker | pymonoprice/__init__.py:25 | every occurrence of `\r\n#` at or after the start is among the markers counted |
| Eol.ResumeExample | pymonoprice/__init__.py:451-455 | on `\r\r`, a marker that overlaps itself, `\r\r\r` counts once and resuming after a fourth `\r` counts twice |
| Bytes.Encode | pymonoprice/__init__.py:459 | `str.encode()` on ASCII text keeps every code and the length |
| Bytes.Decode | pymonoprice/__init__.py:171 | `bytes.decode("ascii")` on bytes below 128 keeps every code and the length |
| Bytes.DecodeEncode | pymonoprice/__init__.py:171 | decoding an encoded ASCII text gives the text back |
| Decimal.NatToString | pymonoprice/__init__.py:459 | `str(n)`: decimal digits whose value is `n`, with no leading zero, one digit below 10 and two below 100 |
| Decimal.IntToString | pymonoprice/__init__.py:459 | `str(n)` for any integer reads back as `n`, in its canonical spelling: no leading zero except `0` itself, and a minus sign followed by a nonzero digit for negatives |
| Decimal.Pad2 | pymonoprice/__init__.py:476 | `{:02}`: digits whose value is `n`, exactly two of them when `n < 100` |
| Decimal.TwoDigitsValue | pymonoprice/__init__.py:104 | `int` of a two-digit group is ten times the first digit plus the second |
| Encoder.Clamp | pymonoprice/__init__.py:475 | `max(lo, min(v, hi))` lies in `lo..hi`, is `v` inside the range, `lo` below it and `hi` above it |
| Encoder.Code | pymonoprice/__init__.py:466-496 | each parameter's code is two upper-case ASCII letters |
| Encoder.CodeParses | pymonoprice/__init__.py:466-496 | the seven codes PR, MU, VO, TR, BS, BL, CH are distinct: each reads back as its own parameter |
| Encoder.RenderIsAscii | pymonoprice/__init__.py:459 | a `str.format` template whose literal parts are ASCII renders to ASCII |
| Encoder.QueryText | pymonoprice/__init__.py:459 | the query text is ASCII |
| Encoder.QueryTextSpelled | pymonoprice/__init__.py:459 | `"?{}\r".format(code)` is `?`, the code in decimal, then CR |
| Encoder.QueryTextParses | pymonoprice/__init__.py:459 | the query text reads back as the code it was built from |
| Encoder.SetText | pymonoprice/__init__.py:476 | the set-request text is ASCII |
| Encoder.SetTextSpelled | pymonoprice/__init__.py:476 | `"<{}CODE{:02}\r".format(zone, v)` is `<`, the zone in decimal, the two-letter code, `v` zero-padded, then CR |
| Encoder.SetTextParses | pymonoprice/__init__.py:476 | a set-request text with a value below 100 reads back as its zone, parameter and value |
| Encoder.SetRequestParses | pymonoprice/__init__.py:474-476 | the encoded set-request bytes read back as the command they were built from |
| Encoder.Truthy | pymonoprice/__init__.py:466-471 | Python's `bool()` of a power or mute argument: false exactly for None, False, 0 and the empty string |
| Encoder.FormatZoneStatusRequest | pymonoprice/__init__.py:458-459 | `_format_zone_status_request`: the encoded `?{zone}\r` query text; what it means is stated by `Encoder.ZoneStatusRequestParses` |
| Encoder.FormatAllZonesStatusRequest | pymonoprice/__init__.py:462-463 | `_format_all_zones_status_request`: the encoded `?{unit*10}\r` query text; stated by `Encoder.AllZonesStatusRequestParses` |
| Encoder.FormatSetPower | pymonoprice/__init__.py:466-467 | `_format_set_power`: the set-request for code PR with 1 or 0 by truthiness; stated by `Encoder.SetPowerParses` and `Encoder.SetPowerSamples` |
| Encoder.FormatSetMute | pymonoprice/__init__.py:470-471 | `_format_set_mute`: the set-request for code MU with 1 or 0 by truthiness; stated by `Encoder.SetMuteParses` and `Encoder.SetMuteSamples` |
| Encoder.FormatSetVolume | pymonoprice/__init__.py:474-476 | `_format_set_volume`: the set-request for code VO with the clamped volume; stated by `Encoder.SetVolumeParses` and `Encoder.SetVolumeSamples` |
| Encoder.FormatSetTreble | pymonoprice/__init__.py:479-481 | `_format_set_treble`: the set-request for code TR with the clamped treble; stated by `Encoder.SetTrebleParses` and `Encoder.SetTrebleSamples` |
| Encoder.FormatSetBass | pymonoprice/__init__.py:484-486 | `_format_set_bass`: the set-request for code BS with the clamped bass; stated by `Encoder.SetBassParses` and `Encoder.SetBassSamples` |
| Encoder.FormatSetBalance | pymonoprice/__init__.py:489-491 | `_format_set_balance`: the set-request for code BL with the clamped balance; stated by `Encoder.SetBalanceParses` and `Encoder.SetBalanceSamples` |
| Encoder.FormatSetSource | pymonoprice/__init__.py:494-496 | `_format_set_source`: the set-request for code CH with the clamped source; stated by `Encoder.SetSourceParses` and `Encoder.SetSourceSamples` |
| Encoder.ZoneStatusRequestParses | pymonoprice/__init__.py:458-459 | `_format_zone_status_request(zone)` reads back as a query for `zone` |
| Encoder.AllZonesStatusRequestParses | pymonoprice/__init__.py:462-463 | `_format_all_zones_status_request(unit)` reads back as a query for `unit * 10` |
| Encoder.SetPowerParses | pymonoprice/__init__.py:466-467 | `_format_set_power` sends code PR with value 01 exactly when `power` is truthy, 00 otherwise |
| Encoder.SetMuteParses | pymonoprice/__init__.py:470-471 | `_format_set_mute` sends code MU with value 01 exactly when `mute` is truthy, 00 otherwise |
| Encoder.SetVolumeParses | pymonoprice/__init__.py:474-476 | `_format_set_volume` sends code VO with the volume clamped to 0..38 |
| Encoder.SetTrebleParses | pymonoprice/__init__.py:479-481 | `_format_set_treble` sends code TR with the treble clamped to 0..14 |
| Encoder.SetBassParses | pymonoprice/__init__.py:484-486 | `_format_set_bass` sends code BS with the bass clamped to 0..14 |
| Encoder.SetBalanceParses | pymonoprice/__init__.py:489-491 | `_format_set_balance` sends code BL with the balance clamped to 0..20 |
| Encoder.SetSourceParses | pymonoprice/__init__.py:494-496 | `_format_set_source` sends code CH with the source clamped to 1..6 |
| Encoder.SetPowerSamples | tests/test_monoprice.py:40-55 | the set-power test's seven arguments give exactly the bytes `<3PR01\r` (True, 'True', 1) or `<3PR00\r` (False, None, 0, '') |
| Encoder.SetMuteSamples | tests/test_monoprice.py:57-72 | the set-mute test's seven arguments give exactly the bytes `<3MU01\r` (True, 'True', 1) or `<3MU00\r` (False, None, 0, '') |
| Encoder.SetVolumeSamples | tests/test_monoprice.py:74-83 | the set-volume test's requests are exactly `<3VO01\r`, `<3VO38\r` (for 100), `<3VO00\r` (for -100) and `<3VO20\r` |
| Encoder.SetTrebleSamples | tests/test_monoprice.py:85-94 | the set-treble test's requests are exactly `<3TR01\r`, `<3TR14\r` (for 100), `<3TR00\r` (for -100) and `<3TR13\r` |
| Encoder.SetBassSamples | tests/test_monoprice.py:96-105 | the set-bass test's requests are exactly `<3BS01\r`, `<3BS14\r` (for 100), `<3BS00\r` (for -100) and `<3BS13\r` |
| Encoder.SetBalanceSamples | tests/test_monoprice.py:107-116 | the set-balance test's requests are exactly `<3BL01\r`, `<3BL20\r` (for 100), `<3BL00\r` (for -100) and `<3BL13\r` |
| Encoder.SetSourceSamples | tests/test_monoprice.py:118-127 | the set-source test's requests are exactly `<3CH01\r`, `<3CH06\r` (for 100), `<3CH01\r` (for -100) and `<3CH03\r` |
| Status.SearchFrom | pymonoprice/__init__.py:89 | `re.search` returns a position at or after the origin where `>` and 22 digits match |
| Status.SearchFromFirst | pymonoprice/__init__.py:89 | the search finds the leftmost match and reports none only when there is none |
| Status.Group | pymonoprice/__init__.py:104 | `int` of one `(\d\d)` group is ten times its first digit plus its second, so below 100 |
| Status.GroupsAt | pymonoprice/__init__.py:92-104 | `map(int, match.groups())` gives eleven values in group order, each ten times the first digit of its group plus the second |
| Status.FromGroups | pymonoprice/__init__.py:105-117 | the record built from the eleven values (flags through `bool`) fits a status line when every value is below 100, and is written back as the same values when its flags are 0 or 1 |
| Status.FromString | pymonoprice/__init__.py:86-88 | the empty string decodes to nothing |
| Status.FromStringNone | pymonoprice/__init__.py:89-91 | decoding gives nothing exactly when `>` followed by 22 digits occurs nowhere |
| Status.FromStringLeftmost | pymonoprice/__init__.py:89-117 | otherwise the record is read from the leftmost match, with fields in the order zone, pa, power, mute, dnd, volume, treble, bass, balance, source, keypad, and flags true exactly when their group is nonzero |
| Status.StatusLineRoundTrip | pymonoprice/__init__.py:86-117 | a status line for any record within range, framed by text with no `>` before it, decodes back to that record |
| Status.StatusLineAlone | pymonoprice/__init__.py:86-117 | a status line on its own decodes to its record |
| Status.DecodesSampleLine | tests/test_monoprice.py:24-37 | the zone-status test's line decodes to zone 1, pa off, power on, mute off, dnd off, volume 13, treble 11, bass 12, balance 10, source 4, keypad on |
| Status.NoMatchWhenBroken | pymonoprice/__init__.py:21-23 | a text whose only `>` is not followed by 22 digits decodes to nothing |
| Status.RejectsShortLine | tests/test_monoprice.py:14 | the line with a digit missing decodes to nothing |
| Status.RejectsLetterInZone | tests/test_monoprice.py:15 | the line with a letter in its first group decodes to nothing |
| Status.RejectsLetters | tests/test_monoprice.py:16 | the line with letters in several groups decodes to nothing |
| Status.RejectsEmptyFrame | tests/test_monoprice.py:17 | a frame with no groups decodes to nothing |
| Status.Present | pymonoprice/__init__.py:83 | the `is not None` filter keeps no more entries than it is given |
| Status.PresentMembers | pymonoprice/__init__.py:83 | a value is kept exactly when some entry holds it |
| Status.PresentAppend | pymonoprice/__init__.py:83 | filtering a concatenation concatenates the filterings: order is kept |
| Status.DecodedAppend | pymonoprice/__init__.py:83 | decoding a concatenation concatenates the decodings |
| Status.FromStrings | pymonoprice/__init__.py:80-83 | the bulk result is no longer than the input and empty for empty input |
| Status.FromStringsMembers | pymonoprice/__init__.py:80-83 | a record is in the bulk result exactly when some input string decodes to it |
| Status.FromStringsAppend | pymonoprice/__init__.py:80-83 | bulk decoding of a concatenation is the concatenation of the bulk decodings, in input order |
| Status.FromStringsSingle | pymonoprice/__init__.py:80-83 | one string yields its record when it parses and nothing otherwise |
| Status.BulkMiddleOnly | pymonoprice/__init__.py:80-83 | of three strings of which only the middle one parses, the bulk result is that record alone |
| Status.FillersDecodeToNothing | pymonoprice/__init__.py:86-91 | text without any `>` ("aaa", "ccc") decodes to nothing |
| Status.BulkSample | pymonoprice/__init__.py:80-83 | `["aaa", <status line>, "ccc"]` decodes to the status line's record alone |
| Text.Split | pymonoprice/__init__.py:198 | `str.split(sep)`: at least one piece, the pieces joined with `sep` give the text back, and no piece holds `sep` |
| Text.Join | pymonoprice/__init__.py:198 | `sep.join(pieces)`, the reference `Text.Split` is stated against; its properties are `Text.JoinEnds` |
| Text.JoinEnds | pymonoprice/__init__.py:198 | the joined text starts with the first piece and ends with the last |
| Text.CutAtFirst | pymonoprice/__init__.py:198 | the text is its head, the separator and its tail around the first separator, and the head holds no separator |
| Framing.StopFrom | pymonoprice/__init__.py:155-168 | the search for the stopping length from a given length on returns a length of the reply or nothing |
| Framing.StopFromFirst | pymonoprice/__init__.py:165-168 | the stopping length is the first prefix length with enough markers, and nothing means no prefix has enough |
| Framing.DecodeResponse | pymonoprice/__init__.py:169-171 | decoding succeeds exactly when every byte is below 128, and the text encodes back to the bytes |
| Framing.EolCountGrows | pymonoprice/__init__.py:165-166 | appending bytes never lowers the marker count |
| Framing.EolCountStep | pymonoprice/__init__.py:165-166 | one more byte adds at most one marker, and only when the buffer then ends with the marker |
| Framing.TimesOutIff | pymonoprice/__init__.py:158-164 | the cycle times out exactly when nothing arrives or the whole reply holds fewer markers than the threshold |
| Framing.StopsAtNthEol | pymonoprice/__init__.py:165-168 | with a threshold of at least one, the response ends with the marker and holds exactly `threshold` markers |
| Framing.ReadStopAt | pymonoprice/__init__.py:155-171 | when length `n` has enough markers and no shorter prefix has, the cycle returns the first `n` bytes decoded and leaves the rest unread |
| Framing.ReadNeverStops | pymonoprice/__init__.py:158-164 | when no prefix has enough markers, the cycle times out with everything received and leaves nothing unread |
| Amplifier.SplitAtEol | pymonoprice/__init__.py:198 | `response.split(sep=EOL.decode('ascii'))`: at least one piece, the pieces joined with `\r\n#` give the response back, and no piece holds `\r\n#` |
| Amplifier.ReadStep | pymonoprice/__init__.py:155-168 | one turn of the read loop keeps the cursor equal to a from-scratch scan of the bytes read, and either fixes the outcome or leaves every prefix so far short of the threshold |
| Amplifier.Monoprice.constructor | pymonoprice/__init__.py:121-133 | a freshly opened port has nothing received and nothing written |
| Amplifier.Monoprice.SendRequest | pymonoprice/__init__.py:135-145 | `_send_request` discards pending input and writes exactly the one request |
| Amplifier.Monoprice.ProcessRequest | pymonoprice/__init__.py:147-171 | `_process_request` writes exactly the one request, returns the ASCII decoding of the shortest prefix of the reply holding `num_eols_to_read` markers (or a timeout when there is none), and leaves the rest of the reply unread |
| Amplifier.Monoprice.GetZoneStatus | pymonoprice/__init__.py:174-183 | `zone_status` writes `?{zone}\r`, reads two markers and returns `from_string` of the text |
| Amplifier.Monoprice.GetAllZoneStatus | pymonoprice/__init__.py:186-198 | `all_zone_status` returns `[]` and writes and reads nothing for a unit outside 1..3; otherwise it writes `?{unit*10}\r`, reads seven markers, splits at every marker and bulk-decodes the pieces |
| Amplifier.Monoprice.SetPower | pymonoprice/__init__.py:201-207 | `set_power` writes `_format_set_power`, reads one marker and reports the cycle's failure, if any |
| Amplifier.Monoprice.SetMute | pymonoprice/__init__.py:210-216 | `set_mute` likewise with `_format_set_mute` |
| Amplifier.Monoprice.SetVolume | pymonoprice/__init__.py:219-225 | `set_volume` likewise with `_format_set_volume` |
| Amplifier.Monoprice.SetTreble | pymonoprice/__init__.py:228-234 | `set_treble` likewise with `_format_set_treble` |
| Amplifier.Monoprice.SetBass | pymonoprice/__init__.py:237-243 | `set_bass` likewise with `_format_set_bass` |
| Amplifier.Monoprice.SetBalance | pymonoprice/__init__.py:246-252 | `set_balance` likewise with `_format_set_balance` |
| Amplifier.Monoprice.SetSource | pymonoprice/__init__.py:255-261 | `set_source` likewise with `_format_set_source` |
| Amplifier.RestorePlan | pymonoprice/__init__.py:269-275 | a restore has seven steps, all for the snapshot's zone, each value below 100 |
| Amplifier.RestoreReplaysSnapshot | pymonoprice/__init__.py:269-275 | the seven requests of a restore read back, in order, as power, mute, volume, treble, bass, balance and source of the snapshot, each clamped as its setter clamps it |
| Amplifier.RestoreCallsSetters | pymonoprice/__init__.py:269-275 | the restore's requests are exactly what the seven setters send, in the order `restore_zone` calls them |
| Amplifier.RestoreSample | tests/test_monoprice.py:129-139 | the restore test's snapshot is restored by exactly the bytes `<1PR01\r`, `<1MU00\r`, `<1VO13\r`, `<1TR11\r`, `<1BS12\r`, `<1BL10\r`, `<1CH04\r` the test answers, in that order, and they read back as the expected commands |
| Amplifier.RestoreSampleBytes | tests/test_monoprice.py:131-139 | any snapshot whose restore plan is the test's sends exactly those seven requests |
| Amplifier.FailedStep | pymonoprice/__init__.py:269-275 | the first failing step from a given step on, when there is one, is one of the seven steps |
| Amplifier.RestoreSteps | pymonoprice/__init__.py:269-275 | a restore writes between one and seven requests |
| Amplifier.FailedStepSkips | pymonoprice/__init__.py:269-275 | steps that succeed are skipped over when looking for the first failure |
| Amplifier.RestoreStopsAt | pymonoprice/__init__.py:269-275 | when the steps before `k` succeed and step `k` fails, the restore writes `k + 1` requests and reports that failure |
| Amplifier.RestoreCompletes | pymonoprice/__init__.py:269-275 | when all seven steps succeed, the restore writes all seven requests and is done |
| Amplifier.RestoreEndsAt | pymonoprice/__init__.py:269-275 | a restore that stops after its failing or last step ends with its requests, port contents and outcome as specified |
| Amplifier.Monoprice.RestoreZone | pymonoprice/__init__.py:264-275 | `restore_zone` writes the seven set-requests in order up to and including the first that fails, reports that failure (or success), and leaves unread what followed the last reply |
| Protocol.Flatten | pymonoprice/__init__.py:428 | `result += chunk` over no chunks is empty |
| Protocol.FlattenPrefix | pymonoprice/__init__.py:428 | the bytes of fewer chunks are a prefix of the bytes of more |
| Protocol.ChunkStopFrom | pymonoprice/__init__.py:427-431 | the search for the stopping chunk count returns a number of chunks that arrived, or nothing |
| Protocol.ChunkStopFromFirst | pymonoprice/__init__.py:429-431 | `send` stops after the first chunk that brings the marker count to the threshold, and nothing means no chunk does |
| Protocol.ChunkStopAt | pymonoprice/__init__.py:427-441 | when `n` chunks hold enough markers and fewer do not, `send` returns those chunks' bytes decoded and leaves the later chunks queued |
| Protocol.ChunkNeverStops | pymonoprice/__init__.py:427-438 | when no number of chunks holds enough markers, `send` times out and leaves nothing queued |
| Protocol.SendTimesOutIff | pymonoprice/__init__.py:427-438 | `send` times out exactly when no chunk arrives or all chunks together hold fewer markers than the threshold |
| Protocol.ChunkCountGrows | pymonoprice/__init__.py:428-429 | the first chunks hold no more markers than all of them |
| Protocol.SinglesAgree | pymonoprice/__init__.py:413-441 | when every chunk is one byte, `send` returns what `_process_request` returns for the same bytes and leaves the same bytes unread |
| Protocol.ChunkStep | pymonoprice/__init__.py:428-431 | one turn of the receive loop keeps the cursor equal to a from-scratch scan of the bytes received, and either fixes the outcome or leaves every chunk count so far short of the threshold |
| Protocol.MonopriceProtocol.constructor | pymonoprice/__init__.py:393-399 | a fresh protocol has nothing queued and nothing written |
| Protocol.MonopriceProtocol.Send | pymonoprice/__init__.py:413-441 | `send` drains the queue, writes exactly the one request, returns the ASCII decoding of the fewest chunks whose bytes hold `num_eols_to_read` markers (or a timeout when there are none), and leaves the later chunks queued |

## Left out

- Serial port construction and configuration (`Monoprice.__init__`: baud rate, parity, timeouts, `open()`), `reset_output_buffer` and `flush`: these are pyserial calls. The input reset is modelled as discarding pending input.
- The wall-clock `TIMEOUT`: it is modelled as the reply, or the supply of chunks, running out.
- A failing write (`write_timeout`) is not modelled: a write always succeeds.
- The locking decorators `synchronized`, `locked_coro` and `connected`, RLock and asyncio.Lock: they exist for mutual exclusion between threads and coroutines, which a sequential model has no need of.
- The asyncio plumbing (`connection_made`, `data_received`, its pending `put` tasks, the connection event): the chunks `data_received` would queue are the `arriving` parameter of `Send`.
- The `MonopriceAsync` facade: its getters, setters and `restore_zone` send the same requests with the same thresholds as `Monoprice`, so the model has it only through `MonopriceProtocol.Send`.
- Logging calls: diagnostics only.
- The factories `get_monoprice` and `get_async_monoprice`: they only wire up the transport.
- Protocol.MonopriceProtocol.Send: the source's `asyncio.TimeoutError` carries no bytes (it only logs them); the model's `Timeout` carries the bytes received, as the blocking driver's exception does.
- Status.FromString: Python's `\d` also matches non-ASCII decimal digits; the model accepts only `0`..`9`. `from_string(None)` is modelled as the empty string, since both are falsy and both yield None.
- Encoder.Truthy: only None, booleans, integers and strings are modelled as setter arguments for power and mute. Other Python objects follow the same truthiness rules but are not modelled.
- Encoder.FormatSetVolume: the clamped setters take integers; `int(...)` truncating a float argument is not modelled.
- Eol.SubsequenceCount: requires a non-empty marker. With an empty `sub` the source loops forever whenever `start <= len(sequence)`, since `find` then keeps returning `start` and `start` never moves (past the end `find` returns -1 and the loop ends). The cursor is a pair of naturals, so a negative `start`, which Python's `find` counts from the end, is not modelled.
- Integers are unbounded in both Python and the model, so no width or wrap-around arises.

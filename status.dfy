/**
 * The status decoder `ZoneStatus.from_string` / `from_strings`: a search for
 * `>` followed by eleven two-digit groups, read into a zone-status record.
 */
module Status {
  import opened Wrappers
  import opened Decimal

  /** One zone's state as the amplifier reports it. */
  datatype ZoneStatus = ZoneStatus(
    zone: int,
    pa: bool,
    power: bool,
    mute: bool,
    doNotDisturb: bool,
    volume: int,    // 0..38
    treble: int,    // 0 is -7, 14 is +7
    bass: int,      // 0 is -7, 14 is +7
    balance: int,   // 0 left, 10 centre, 20 right
    source: int,
    keypad: bool)

  /** The pattern `>(\d\d)` repeated for eleven groups matches at index `i` of `s`. */
  predicate MatchAt(s: string, i: int) {
    0 <= i && i + 23 <= |s| && s[i] == '>' && forall m :: i < m < i + 23 ==> IsDigit(s[m])
  }

  /** `re.search`: the leftmost index at or after `from` where the pattern matches. */
  function SearchFrom(s: string, from: nat): (r: Option<nat>)
    decreases |s| - from
    ensures r.Some? ==> from <= r.value && MatchAt(s, r.value)
  {
    if from + 23 > |s| then None
    else if MatchAt(s, from) then Some(from)
    else SearchFrom(s, from + 1)
  }

  /** The search finds the leftmost match at or after `from`, and reports none only when there is none. */
  lemma {:induction false} SearchFromFirst(s: string, from: nat)
    decreases |s| - from
    ensures var r := SearchFrom(s, from);
      (r.Some? ==> forall j :: from <= j < r.value ==> !MatchAt(s, j))
      && (r.None? ==> forall j :: from <= j ==> !MatchAt(s, j))
  {
    if from + 23 <= |s| && !MatchAt(s, from) {
      SearchFromFirst(s, from + 1);
    }
  }

  /** `int` of the `k`-th two-digit group of the match at `i`: ten times its first digit plus its second. */
  function Group(s: string, i: nat, k: nat): (v: nat)
    requires MatchAt(s, i) && k < 11
    ensures v < 100
    ensures v == 10 * DigitValue(s[i + 1 + 2 * k]) + DigitValue(s[i + 2 + 2 * k])
  {
    var g := [s[i + 1 + 2 * k], s[i + 2 + 2 * k]];
    TwoDigitsValue(g);
    DigitsValue(g)
  }

  /**
   * The record whose fields are the given eleven groups, in order; flags are
   * "group nonzero". Groups below 100 whose flags are 0 or 1 are exactly the
   * groups the record is written back as.
   */
  function FromGroups(g: seq<nat>): (st: ZoneStatus)
    requires |g| == 11
    ensures (forall k :: 0 <= k < 11 ==> g[k] < 100) ==> FitsLine(st)
    ensures (forall k :: 0 <= k < 11 ==> g[k] < 100) && g[1] <= 1 && g[2] <= 1 && g[3] <= 1 && g[4] <= 1 && g[10] <= 1
      ==> FitsLine(st) && Fields(st) == g
  {
    ZoneStatus(g[0], g[1] != 0, g[2] != 0, g[3] != 0, g[4] != 0,
               g[5], g[6], g[7], g[8], g[9], g[10] != 0)
  }

  /** `map(int, match.groups())`: the eleven group values in order, each read from its two digits. */
  function GroupsAt(s: string, i: nat): (g: seq<nat>)
    requires MatchAt(s, i)
    ensures |g| == 11
    ensures forall k :: 0 <= k < 11 ==> g[k] < 100 && g[k] == 10 * DigitValue(s[i + 1 + 2 * k]) + DigitValue(s[i + 2 + 2 * k])
  {
    seq(11, k requires 0 <= k < 11 => Group(s, i, k))
  }

  /**
   * `ZoneStatus.from_string`: nothing for the empty string or when the
   * pattern matches nowhere; otherwise the record read from the leftmost match.
   */
  function FromString(s: string): (r: Option<ZoneStatus>)
    ensures s == "" ==> r == None
  {
    if s == "" then None
    else match SearchFrom(s, 0)
      case None => None
      case Some(i) => Some(FromGroups(GroupsAt(s, i)))
  }

  /** Decoding yields nothing exactly when the pattern matches nowhere. */
  lemma FromStringNone(s: string)
    ensures FromString(s).None? <==> forall i :: !MatchAt(s, i)
  {
    SearchFromFirst(s, 0);
  }

  /** When the pattern matches, the record is read from the leftmost match. */
  lemma FromStringLeftmost(s: string, i: nat)
    requires MatchAt(s, i)
    requires forall j :: 0 <= j < i ==> !MatchAt(s, j)
    ensures FromString(s) == Some(FromGroups(GroupsAt(s, i)))
  {
    var r := SearchFrom(s, 0);
    SearchFromFirst(s, 0);
    assert r.Some?;
    assert r.value == i;
  }

  /** The `if zone is not None` filter: the present values, in their order. */
  function Present<T>(zones: seq<Option<T>>): (r: seq<T>)
    ensures |r| <= |zones|
  {
    if zones == [] then []
    else (if zones[0].Some? then [zones[0].value] else []) + Present(zones[1..])
  }

  /** A value is kept exactly when some entry holds it. */
  lemma {:induction false} PresentMembers<T>(zones: seq<Option<T>>, x: T)
    ensures x in Present(zones) <==> exists i :: 0 <= i < |zones| && zones[i] == Some(x)
  {
    if zones != [] {
      PresentMembers(zones[1..], x);
      if exists i :: 0 <= i < |zones[1..]| && zones[1..][i] == Some(x) {
        var i :| 0 <= i < |zones[1..]| && zones[1..][i] == Some(x);
        assert zones[i + 1] == Some(x);
      }
      if exists i :: 0 <= i < |zones| && zones[i] == Some(x) {
        var i :| 0 <= i < |zones| && zones[i] == Some(x);
        if i > 0 {
          assert zones[1..][i - 1] == Some(x);
        }
      }
    }
  }

  /** Filtering a concatenation is the concatenation of the filterings. */
  lemma {:induction false} PresentAppend<T>(a: seq<Option<T>>, b: seq<Option<T>>)
    ensures Present(a + b) == Present(a) + Present(b)
  {
    if a != [] {
      assert (a + b)[0] == a[0] && (a + b)[1..] == a[1..] + b;
      PresentAppend(a[1..], b);
    } else {
      assert a + b == b;
    }
  }

  /** `from_string` applied to every string, in order. */
  function Decoded(strings: seq<string>): seq<Option<ZoneStatus>> {
    seq(|strings|, i requires 0 <= i < |strings| => FromString(strings[i]))
  }

  /** `ZoneStatus.from_strings`: the records of the strings that parse, in their order. */
  function FromStrings(strings: seq<string>): (r: seq<ZoneStatus>)
    ensures |r| <= |strings|
    ensures strings == [] ==> r == []
  {
    if strings == [] then [] else Present(Decoded(strings))
  }

  /** Every bulk result comes from an input that parses it, and every input that parses contributes. */
  lemma FromStringsMembers(strings: seq<string>, st: ZoneStatus)
    ensures st in FromStrings(strings) <==>
              exists i :: 0 <= i < |strings| && FromString(strings[i]) == Some(st)
  {
    var zones := Decoded(strings);
    assert forall i :: 0 <= i < |strings| ==> zones[i] == FromString(strings[i]);
    PresentMembers(zones, st);
  }

  /** Bulk decoding of a concatenation is the concatenation of the bulk decodings: order is kept. */
  lemma FromStringsAppend(a: seq<string>, b: seq<string>)
    ensures FromStrings(a + b) == FromStrings(a) + FromStrings(b)
  {
    DecodedAppend(a, b);
    PresentAppend(Decoded(a), Decoded(b));
    if a == [] {
      assert a + b == b;
    }
  }

  lemma DecodedAppend(a: seq<string>, b: seq<string>)
    ensures Decoded(a + b) == Decoded(a) + Decoded(b)
  {
    var l, r := Decoded(a + b), Decoded(a) + Decoded(b);
    forall i | 0 <= i < |a + b|
      ensures l[i] == r[i]
    {
      if i < |a| {
        assert (a + b)[i] == a[i];
      } else {
        assert (a + b)[i] == b[i - |a|];
      }
    }
  }

  /** A single string yields its record when it parses and nothing otherwise. */
  lemma FromStringsSingle(s: string)
    ensures FromStrings([s]) == if FromString(s).Some? then [FromString(s).value] else []
  {
    assert [s][1..] == [];
  }

  /** The status fields fit the two-digit groups of a status line. */
  predicate FitsLine(st: ZoneStatus) {
    0 <= st.zone < 100 && 0 <= st.volume < 100 && 0 <= st.treble < 100
    && 0 <= st.bass < 100 && 0 <= st.balance < 100 && 0 <= st.source < 100
  }

  function Flag(b: bool): nat {
    if b then 1 else 0
  }

  /** The eleven group values of a record, in wire order. */
  function Fields(st: ZoneStatus): (g: seq<nat>)
    requires FitsLine(st)
    ensures |g| == 11 && forall k :: 0 <= k < 11 ==> g[k] < 100
  {
    [st.zone, Flag(st.pa), Flag(st.power), Flag(st.mute), Flag(st.doNotDisturb),
     st.volume, st.treble, st.bass, st.balance, st.source, Flag(st.keypad)]
  }

  /** The groups written one after another, each as two decimal digits, tens first. */
  function Digits2(g: seq<nat>): (t: string)
    requires forall k :: 0 <= k < |g| ==> g[k] < 100
    ensures |t| == 2 * |g|
  {
    if g == [] then "" else [DigitChar(g[0] / 10), DigitChar(g[0] % 10)] + Digits2(g[1..])
  }

  /** Group `k` sits at positions `2k` and `2k + 1` of the written groups. */
  lemma {:induction false} Digits2At(g: seq<nat>, k: nat)
    requires forall j :: 0 <= j < |g| ==> g[j] < 100
    requires k < |g|
    ensures Digits2(g)[2 * k] == DigitChar(g[k] / 10) && Digits2(g)[2 * k + 1] == DigitChar(g[k] % 10)
  {
    if k > 0 {
      Digits2At(g[1..], k - 1);
    }
  }

  /** A status payload as the amplifier sends it: `>` and the eleven groups. */
  function StatusLine(st: ZoneStatus): string
    requires FitsLine(st)
  {
    ">" + Digits2(Fields(st))
  }

  /**
   * Decoding inverts the payload: a status line framed by any text that holds
   * no `>` before it decodes to the record it was written from.
   */
  lemma StatusLineRoundTrip(prefix: string, st: ZoneStatus, suffix: string)
    requires FitsLine(st)
    requires forall j :: 0 <= j < |prefix| ==> prefix[j] != '>'
    ensures FromString(prefix + StatusLine(st) + suffix) == Some(st)
  {
    var line := StatusLine(st);
    var s := prefix + line + suffix;
    var i := |prefix|;
    var g := Fields(st);
    var d := Digits2(g);
    forall k | 0 <= k < 11
      ensures IsDigit(d[2 * k]) && IsDigit(d[2 * k + 1])
    {
      Digits2At(g, k);
    }
    forall m | i < m < i + 23
      ensures IsDigit(s[m])
    {
      var k := (m - i - 1) / 2;
      assert m - i - 1 == 2 * k || m - i - 1 == 2 * k + 1;
      assert s[m] == d[m - i - 1];
    }
    assert MatchAt(s, i);
    forall j | 0 <= j < i
      ensures !MatchAt(s, j)
    {
      assert s[j] == prefix[j];
    }
    forall k | 0 <= k < 11
      ensures Group(s, i, k) == Fields(st)[k]
    {
      var v := g[k];
      Digits2At(g, k);
      assert s[i + 1 + 2 * k] == d[2 * k] && s[i + 2 + 2 * k] == d[2 * k + 1];
    }
    assert GroupsAt(s, i) == g;
    FromStringLeftmost(s, i);
  }

  /** The status line of the zone-status test decodes field by field. */
  lemma DecodesSampleLine(s: string)
    requires s == "\r\n#>0100010000131112100401\r\n#"
    ensures FromString(s) == Some(ZoneStatus(1, false, true, false, false, 13, 11, 12, 10, 4, true))
  {
    SampleLineMatches(s);
    SampleLineGroups(s);
    assert forall j :: 0 <= j < 3 ==> !MatchAt(s, j);
    FromStringLeftmost(s, 3);
  }

  lemma SampleLineMatches(s: string)
    requires s == "\r\n#>0100010000131112100401\r\n#"
    ensures MatchAt(s, 3)
  {
  }

  /** The groups of the zone-status test's line, and the values it expects them to read as. */
  const SAMPLE_DIGITS := "0100010000131112100401"
  const SAMPLE_GROUPS: seq<nat> := [1, 0, 1, 0, 0, 13, 11, 12, 10, 4, 1]

  lemma SampleLineDigits(s: string)
    requires s == "\r\n#>0100010000131112100401\r\n#"
    ensures forall m :: 0 <= m < 22 ==> s[4 + m] == SAMPLE_DIGITS[m]
  {
  }

  lemma SampleDigitPairs()
    ensures forall k :: 0 <= k < 11 ==> 10 * DigitValue(SAMPLE_DIGITS[2 * k]) + DigitValue(SAMPLE_DIGITS[2 * k + 1]) == SAMPLE_GROUPS[k]
  {
  }

  lemma SampleLineGroups(s: string)
    requires s == "\r\n#>0100010000131112100401\r\n#" && MatchAt(s, 3)
    ensures GroupsAt(s, 3) == SAMPLE_GROUPS
  {
    SampleLineDigits(s);
    SampleDigitPairs();
    assert forall k :: 0 <= k < 11 ==> GroupsAt(s, 3)[k] == SAMPLE_GROUPS[k];
  }

  /** A text whose only `>` sits at `at` and is not followed by 22 digits decodes to nothing. */
  lemma NoMatchWhenBroken(s: string, at: nat, bad: nat)
    requires forall j :: 0 <= j < |s| && j != at ==> s[j] != '>'
    requires at + 23 > |s| || (at < bad < at + 23 && !IsDigit(s[bad]))
    ensures FromString(s) == None
  {
    FromStringNone(s);
    forall i | 0 <= i
      ensures !MatchAt(s, i)
    {

    }
  }

  /** The decoder tests' status line with one digit missing. */
  lemma RejectsShortLine()
    ensures FromString("\r\n#>010001000010111210040\r\n#") == None
  {
    NoMatchWhenBroken("\r\n#>010001000010111210040\r\n#", 3, 25);
  }

  /** The decoder tests' status line with a letter in its first group. */
  lemma RejectsLetterInZone()
    ensures FromString("\r\n#>a100010000101112100401\r\n#") == None
  {
    NoMatchWhenBroken("\r\n#>a100010000101112100401\r\n#", 3, 4);
  }

  /** The decoder tests' status line with letters in several groups. */
  lemma RejectsLetters()
    ensures FromString("\r\n#>a1000100dfsf112100401\r\n#") == None
  {
    NoMatchWhenBroken("\r\n#>a1000100dfsf112100401\r\n#", 3, 4);
  }

  /** The decoder tests' frame with no groups at all. */
  lemma RejectsEmptyFrame()
    ensures FromString("\r\n#>\r\n#") == None
  {
    NoMatchWhenBroken("\r\n#>\r\n#", 3, 0);
  }

  /** Of three lines of which only the middle one parses, bulk decoding returns that one record. */
  lemma BulkMiddleOnly(a: string, line: string, c: string, st: ZoneStatus)
    requires FromString(a) == None && FromString(c) == None
    requires FromString(line) == Some(st)
    ensures FromStrings([a, line, c]) == [st]
  {
    var d: seq<Option<ZoneStatus>> := [None, Some(st), None];
    assert Decoded([a, line, c]) == d;
    assert d[1..][1..] == d[2..] && d[2..][1..] == [];
    assert Present(d[2..]) == [];
    assert Present(d[1..]) == [st];
  }

  /** A status line on its own decodes to its record. */
  lemma StatusLineAlone(st: ZoneStatus)
    requires FitsLine(st)
    ensures FromString(StatusLine(st)) == Some(st)
  {
    var line := StatusLine(st);
    assert "" + line + "" == line;
    StatusLineRoundTrip("", st, "");
  }

  /** The bulk example's filler strings hold no status line. */
  lemma FillersDecodeToNothing()
    ensures FromString("aaa") == None && FromString("ccc") == None
  {
    NoMatchWhenBroken("aaa", 0, 0);
    NoMatchWhenBroken("ccc", 0, 0);
  }

  /** The bulk example: `["aaa", <valid line>, "ccc"]` decodes to the valid line's record alone. */
  lemma BulkSample(st: ZoneStatus)
    requires FitsLine(st)
    ensures FromStrings(["aaa", StatusLine(st), "ccc"]) == [st]
  {
    StatusLineAlone(st);
    FillersDecodeToNothing();
    BulkMiddleOnly("aaa", StatusLine(st), "ccc", st);
  }
}

/**
 * The request encoder: the `_format_*` helpers that build the ASCII requests
 * `?{zone}\r`, `?{unit*10}\r` and `<{zone}{CODE}{vv}\r`, with each value
 * clamped into its range and written as two zero-padded digits.
 */
module Encoder {
  import opened Wrappers
  import opened Bytes
  import opened Decimal

  /** The Python values a caller may pass for power or mute; only their truthiness matters. */
  datatype PyValue = PyNone | PyBool(b: bool) | PyInt(i: int) | PyStr(s: string)

  /** Python's `bool(v)`: None, False, 0 and the empty string are false, all else true. */
  function Truthy(v: PyValue): (b: bool)
    ensures !b <==> v == PyNone || v == PyBool(false) || v == PyInt(0) || v == PyStr("")
  {
    match v
    case PyNone => false
    case PyBool(b) => b
    case PyInt(i) => i != 0
    case PyStr(s) => s != ""
  }

  /** `max(lo, min(v, hi))`. */
  function Clamp(v: int, lo: int, hi: int): (r: int)
    requires lo <= hi
    ensures lo <= r <= hi
    ensures lo <= v <= hi ==> r == v
    ensures v < lo ==> r == lo
    ensures v > hi ==> r == hi
  {
    var m := if v < hi then v else hi;
    if lo > m then lo else m
  }

  /** The zone parameters a set-command can change. */
  datatype Param = Power | Mute | Volume | Treble | Bass | Balance | Source

  /** The two-letter code a set-command spells its parameter with. */
  function Code(p: Param): (code: string)
    ensures |code| == 2 && IsAsciiText(code)
    ensures forall k :: 0 <= k < 2 ==> 'A' <= code[k] <= 'Z'
  {
    match p
    case Power => "PR"
    case Mute => "MU"
    case Volume => "VO"
    case Treble => "TR"
    case Bass => "BS"
    case Balance => "BL"
    case Source => "CH"
  }

  /** The parameter a two-letter code names, if any. */
  function ParseParam(code: string): Option<Param> {
    if code == "PR" then Some(Power)
    else if code == "MU" then Some(Mute)
    else if code == "VO" then Some(Volume)
    else if code == "TR" then Some(Treble)
    else if code == "BS" then Some(Bass)
    else if code == "BL" then Some(Balance)
    else if code == "CH" then Some(Source)
    else None
  }

  /** The seven codes are distinct: each reads back as its own parameter. */
  lemma CodeParses(p: Param)
    ensures ParseParam(Code(p)) == Some(p)
  {
    var c := Code(p);
    assert c[0] != 'P' || c[1] != 'R' || p == Power;
  }

  /** A set-command: zone, parameter, value. */
  datatype SetCommand = SetCommand(zone: int, param: Param, value: nat)

  /** Reads `<{zone}{CODE}{vv}\r`: the code and value are the five characters before the final CR. */
  function ParseSetText(t: string): Option<SetCommand> {
    if |t| >= 7 && t[0] == '<' && t[|t| - 1] == '\r'
       && IsIntText(t[1..|t| - 5]) && ParseParam(t[|t| - 5..|t| - 3]).Some? && AllDigits(t[|t| - 3..|t| - 1])
    then Some(SetCommand(IntValue(t[1..|t| - 5]), ParseParam(t[|t| - 5..|t| - 3]).value, DigitsValue(t[|t| - 3..|t| - 1])))
    else None
  }

  function ParseSet(r: seq<byte>): Option<SetCommand> {
    if IsAsciiBytes(r) then ParseSetText(Decode(r)) else None
  }

  /** Reads `?{code}\r`, the status query for a zone or a whole unit. */
  function ParseQueryText(t: string): Option<int> {
    if |t| >= 3 && t[0] == '?' && t[|t| - 1] == '\r' && IsIntText(t[1..|t| - 1])
    then Some(IntValue(t[1..|t| - 1]))
    else None
  }

  function ParseQuery(r: seq<byte>): Option<int> {
    if IsAsciiBytes(r) then ParseQueryText(Decode(r)) else None
  }

  lemma IntTextIsAscii(s: string)
    requires IsIntText(s)
    ensures IsAsciiText(s)
  {
    if s[0] == '-' {
      assert forall i :: 1 <= i < |s| ==> s[i] == s[1..][i - 1];
    }
  }

  /** One piece of a `str.format` template: literal text, a `{}` field, or a `{:02}` field. */
  datatype Piece = Literal(text: string) | Field(value: int) | Field02(padded: nat)

  function PieceText(p: Piece): string {
    match p
    case Literal(t) => t
    case Field(v) => IntToString(v)
    case Field02(n) => Pad2(n)
  }

  predicate AsciiLiteral(p: Piece) {
    p.Literal? ==> IsAsciiText(p.text)
  }

  lemma PieceTextIsAscii(p: Piece)
    ensures AsciiLiteral(p) ==> IsAsciiText(PieceText(p))
  {
    match p
    case Literal(_) =>
    case Field(v) => IntTextIsAscii(IntToString(v));
    case Field02(n) =>
  }

  /** `template.format(...)`: the pieces' texts, left to right. */
  function Render(template: seq<Piece>): string {
    if template == [] then [] else PieceText(template[0]) + Render(template[1..])
  }

  /** A template whose literals are ASCII renders to ASCII text. */
  lemma {:induction false} RenderIsAscii(template: seq<Piece>)
    requires forall k :: 0 <= k < |template| ==> AsciiLiteral(template[k])
    ensures IsAsciiText(Render(template))
  {
    if template != [] {
      var head := PieceText(template[0]);
      var tail := Render(template[1..]);
      PieceTextIsAscii(template[0]);
      RenderIsAscii(template[1..]);
      assert forall k :: 0 <= k < |tail| ==> (head + tail)[|head| + k] == tail[k];
    }
  }

  /** Rendering a template renders its first piece, then the rest. */
  lemma RenderCons(p: Piece, rest: seq<Piece>)
    ensures Render([p] + rest) == PieceText(p) + Render(rest)
  {
    assert ([p] + rest)[1..] == rest;
  }

  lemma RenderOne(p: Piece)
    ensures Render([p]) == PieceText(p)
  {
    assert [p][1..] == [];
  }

  /** `"?{}\r".format(code)`. */
  function QueryText(code: int): (t: string)
    ensures IsAsciiText(t)
  {
    var template := [Literal("?")] + ([Field(code)] + [Literal("\r")]);
    RenderIsAscii(template);
    Render(template)
  }

  /** The status query spelled out: `?`, the code in decimal, CR. */
  lemma QueryTextSpelled(code: int)
    ensures QueryText(code) == "?" + (IntToString(code) + "\r")
  {
    RenderOne(Literal("\r"));
    RenderCons(Field(code), [Literal("\r")]);
    RenderCons(Literal("?"), [Field(code)] + [Literal("\r")]);
  }

  /** Where the code sits in a status query's text. */
  lemma QueryTextSlices(z: string)
    ensures var t := "?" + (z + "\r");
      |t| == |z| + 2 && t[0] == '?' && t[|t| - 1] == '\r' && t[1..|t| - 1] == z
  {
    var t := "?" + (z + "\r");
    assert forall i :: 0 <= i < |z| ==> t[1 + i] == z[i];
  }

  /** The status query reads back as the code it was built from. */
  lemma QueryTextParses(code: int)
    ensures ParseQueryText(QueryText(code)) == Some(code)
  {
    var z := IntToString(code);
    QueryTextSpelled(code);
    QueryTextSlices(z);
  }

  /** `"<{}{CODE}{:02}\r".format(zone, value)`. */
  function SetText(zone: int, param: Param, value: nat): (t: string)
    ensures IsAsciiText(t)
  {
    var template := [Literal("<")] + ([Field(zone)] + ([Literal(Code(param))] + ([Field02(value)] + [Literal("\r")])));
    RenderIsAscii(template);
    Render(template)
  }

  /** The set-request spelled out: `<`, the zone in decimal, the code, two value digits, CR. */
  lemma SetTextSpelled(zone: int, param: Param, value: nat)
    ensures SetText(zone, param, value) == "<" + (IntToString(zone) + (Code(param) + (Pad2(value) + "\r")))
  {
    var code := Code(param);
    RenderOne(Literal("\r"));
    RenderCons(Field02(value), [Literal("\r")]);
    RenderCons(Literal(code), [Field02(value)] + [Literal("\r")]);
    RenderCons(Field(zone), [Literal(code)] + ([Field02(value)] + [Literal("\r")]));
    RenderCons(Literal("<"), [Field(zone)] + ([Literal(code)] + ([Field02(value)] + [Literal("\r")])));
  }

  /** Where the zone, code and value sit in a set-request's text. */
  lemma SetTextSlices(z: string, code: string, v: string)
    requires |code| == 2 && |v| == 2
    ensures var t := "<" + (z + (code + (v + "\r")));
      |t| == |z| + 6 && t[0] == '<' && t[|t| - 1] == '\r'
      && t[1..|t| - 5] == z && t[|t| - 5..|t| - 3] == code && t[|t| - 3..|t| - 1] == v
  {
    var t := "<" + (z + (code + (v + "\r")));
    assert forall i :: 0 <= i < |z| ==> t[1 + i] == z[i];
    assert t[1..|t| - 5] == z;
    assert t[|t| - 5] == code[0] && t[|t| - 4] == code[1];
    assert t[|t| - 3] == v[0] && t[|t| - 2] == v[1];
  }

  /** Text framed as a set-request around a zone number and a two-digit value parses into them. */
  lemma SetFieldsParse(t: string, z: string, param: Param, v: string)
    requires |t| == |z| + 6 && t[0] == '<' && t[|t| - 1] == '\r'
    requires t[1..|t| - 5] == z && t[|t| - 5..|t| - 3] == Code(param) && t[|t| - 3..|t| - 1] == v
    requires IsIntText(z) && AllDigits(v)
    ensures ParseSetText(t) == Some(SetCommand(IntValue(z), param, DigitsValue(v)))
  {
    CodeParses(param);
  }

  /** A set-command with a two-digit value reads back as the zone, parameter and value it was built from. */
  lemma SetTextParses(zone: int, param: Param, value: nat)
    requires value < 100
    ensures ParseSetText(SetText(zone, param, value)) == Some(SetCommand(zone, param, value))
  {
    var z := IntToString(zone);
    var v := Pad2(value);
    SetTextSpelled(zone, param, value);
    SetTextSlices(z, Code(param), v);
    SetFieldsParse(SetText(zone, param, value), z, param, v);
  }

  /** The encoded set-request for `c`. */
  function SetRequest(c: SetCommand): seq<byte> {
    Encode(SetText(c.zone, c.param, c.value))
  }

  /** Every set-command with a two-digit value decodes back from its request. */
  lemma SetRequestParses(c: SetCommand)
    requires c.value < 100
    ensures ParseSet(SetRequest(c)) == Some(c)
  {
    SetTextParses(c.zone, c.param, c.value);
    DecodeEncode(SetText(c.zone, c.param, c.value));
  }

  /** `_format_zone_status_request`: `?{zone}\r`. */
  function FormatZoneStatusRequest(zone: int): seq<byte> {
    Encode(QueryText(zone))
  }

  /** `_format_all_zones_status_request`: `?{unit * 10}\r`. */
  function FormatAllZonesStatusRequest(unit: int): seq<byte> {
    Encode(QueryText(unit * 10))
  }

  /** `_format_set_power`: `01` exactly when `power` is truthy. */
  function FormatSetPower(zone: int, power: PyValue): seq<byte> {
    SetRequest(SetCommand(zone, Power, if Truthy(power) then 1 else 0))
  }

  /** `_format_set_mute`: `01` exactly when `mute` is truthy. */
  function FormatSetMute(zone: int, mute: PyValue): seq<byte> {
    SetRequest(SetCommand(zone, Mute, if Truthy(mute) then 1 else 0))
  }

  /** `_format_set_volume`: volume clamped to 0..38. */
  function FormatSetVolume(zone: int, volume: int): seq<byte> {
    SetRequest(SetCommand(zone, Volume, Clamp(volume, 0, 38)))
  }

  /** `_format_set_treble`: treble clamped to 0..14. */
  function FormatSetTreble(zone: int, treble: int): seq<byte> {
    SetRequest(SetCommand(zone, Treble, Clamp(treble, 0, 14)))
  }

  /** `_format_set_bass`: bass clamped to 0..14. */
  function FormatSetBass(zone: int, bass: int): seq<byte> {
    SetRequest(SetCommand(zone, Bass, Clamp(bass, 0, 14)))
  }

  /** `_format_set_balance`: balance clamped to 0..20. */
  function FormatSetBalance(zone: int, balance: int): seq<byte> {
    SetRequest(SetCommand(zone, Balance, Clamp(balance, 0, 20)))
  }

  /** `_format_set_source`: source clamped to 1..6. */
  function FormatSetSource(zone: int, source: int): seq<byte> {
    SetRequest(SetCommand(zone, Source, Clamp(source, 1, 6)))
  }

  /** The zone-status query reads back as a query for `zone`. */
  lemma ZoneStatusRequestParses(zone: int)
    ensures ParseQuery(FormatZoneStatusRequest(zone)) == Some(zone)
  {
    QueryTextParses(zone);
    DecodeEncode(QueryText(zone));
  }

  /** A whole-unit query addresses zone `unit * 10`. */
  lemma AllZonesStatusRequestParses(unit: int)
    ensures ParseQuery(FormatAllZonesStatusRequest(unit)) == Some(unit * 10)
  {
    QueryTextParses(unit * 10);
    DecodeEncode(QueryText(unit * 10));
  }

  /** Power is sent as code PR with `01` exactly when the argument is truthy. */
  lemma SetPowerParses(zone: int, power: PyValue)
    ensures ParseSet(FormatSetPower(zone, power)) == Some(SetCommand(zone, Power, if Truthy(power) then 1 else 0))
  {
    SetRequestParses(SetCommand(zone, Power, if Truthy(power) then 1 else 0));
  }

  /** Mute is sent as code MU with `01` exactly when the argument is truthy. */
  lemma SetMuteParses(zone: int, mute: PyValue)
    ensures ParseSet(FormatSetMute(zone, mute)) == Some(SetCommand(zone, Mute, if Truthy(mute) then 1 else 0))
  {
    SetRequestParses(SetCommand(zone, Mute, if Truthy(mute) then 1 else 0));
  }

  /** Volume is sent as code VO, clamped to 0..38. */
  lemma SetVolumeParses(zone: int, volume: int)
    ensures ParseSet(FormatSetVolume(zone, volume)) == Some(SetCommand(zone, Volume, Clamp(volume, 0, 38)))
  {
    SetRequestParses(SetCommand(zone, Volume, Clamp(volume, 0, 38)));
  }

  /** Treble is sent as code TR, clamped to 0..14. */
  lemma SetTrebleParses(zone: int, treble: int)
    ensures ParseSet(FormatSetTreble(zone, treble)) == Some(SetCommand(zone, Treble, Clamp(treble, 0, 14)))
  {
    SetRequestParses(SetCommand(zone, Treble, Clamp(treble, 0, 14)));
  }

  /** Bass is sent as code BS, clamped to 0..14. */
  lemma SetBassParses(zone: int, bass: int)
    ensures ParseSet(FormatSetBass(zone, bass)) == Some(SetCommand(zone, Bass, Clamp(bass, 0, 14)))
  {
    SetRequestParses(SetCommand(zone, Bass, Clamp(bass, 0, 14)));
  }

  /** Balance is sent as code BL, clamped to 0..20. */
  lemma SetBalanceParses(zone: int, balance: int)
    ensures ParseSet(FormatSetBalance(zone, balance)) == Some(SetCommand(zone, Balance, Clamp(balance, 0, 20)))
  {
    SetRequestParses(SetCommand(zone, Balance, Clamp(balance, 0, 20)));
  }

  /** Source is sent as code CH, clamped to 1..6. */
  lemma SetSourceParses(zone: int, source: int)
    ensures ParseSet(FormatSetSource(zone, source)) == Some(SetCommand(zone, Source, Clamp(source, 1, 6)))
  {
    SetRequestParses(SetCommand(zone, Source, Clamp(source, 1, 6)));
  }

  /** The exact text of a set-request, as the tests spell it: `<`, the zone, the code, the two value digits, CR. */
  lemma SampleText(zone: int, param: Param, value: nat, text: string)
    requires text == "<" + (IntToString(zone) + (Code(param) + (Pad2(value) + "\r")))
    ensures IsAsciiText(text) && SetRequest(SetCommand(zone, param, value)) == Encode(text)
  {
    SetTextSpelled(zone, param, value);
    assert text == SetText(zone, param, value);
  }

  /** The set-power test's requests: a true, a string, or a nonzero integer sends `01`; false, None, 0 or "" sends `00`. */
  lemma SetPowerSamples()
    ensures FormatSetPower(3, PyBool(true)) == Encode("<3PR01\r")
    ensures FormatSetPower(3, PyStr("True")) == Encode("<3PR01\r")
    ensures FormatSetPower(3, PyInt(1)) == Encode("<3PR01\r")
    ensures FormatSetPower(3, PyBool(false)) == Encode("<3PR00\r")
    ensures FormatSetPower(3, PyNone) == Encode("<3PR00\r")
    ensures FormatSetPower(3, PyInt(0)) == Encode("<3PR00\r")
    ensures FormatSetPower(3, PyStr("")) == Encode("<3PR00\r")
  {
    SampleText(3, Power, 1, "<3PR01\r");
    SampleText(3, Power, 0, "<3PR00\r");
  }

  /** The set-mute test's requests, with the same seven arguments as the set-power test. */
  lemma SetMuteSamples()
    ensures FormatSetMute(3, PyBool(true)) == Encode("<3MU01\r")
    ensures FormatSetMute(3, PyStr("True")) == Encode("<3MU01\r")
    ensures FormatSetMute(3, PyInt(1)) == Encode("<3MU01\r")
    ensures FormatSetMute(3, PyBool(false)) == Encode("<3MU00\r")
    ensures FormatSetMute(3, PyNone) == Encode("<3MU00\r")
    ensures FormatSetMute(3, PyInt(0)) == Encode("<3MU00\r")
    ensures FormatSetMute(3, PyStr("")) == Encode("<3MU00\r")
  {
    SampleText(3, Mute, 1, "<3MU01\r");
    SampleText(3, Mute, 0, "<3MU00\r");
  }

  /** The set-volume test's requests: 1 and 20 as they are, 100 as 38, -100 as 0. */
  lemma SetVolumeSamples()
    ensures FormatSetVolume(3, 1) == Encode("<3VO01\r")
    ensures FormatSetVolume(3, 100) == Encode("<3VO38\r")
    ensures FormatSetVolume(3, -100) == Encode("<3VO00\r")
    ensures FormatSetVolume(3, 20) == Encode("<3VO20\r")
  {
    SampleText(3, Volume, 1, "<3VO01\r");
    SampleText(3, Volume, 38, "<3VO38\r");
    SampleText(3, Volume, 0, "<3VO00\r");
    SampleText(3, Volume, 20, "<3VO20\r");
  }

  /** The set-treble test's requests: 1 and 13 as they are, 100 as 14, -100 as 0. */
  lemma SetTrebleSamples()
    ensures FormatSetTreble(3, 1) == Encode("<3TR01\r")
    ensures FormatSetTreble(3, 100) == Encode("<3TR14\r")
    ensures FormatSetTreble(3, -100) == Encode("<3TR00\r")
    ensures FormatSetTreble(3, 13) == Encode("<3TR13\r")
  {
    SampleText(3, Treble, 1, "<3TR01\r");
    SampleText(3, Treble, 14, "<3TR14\r");
    SampleText(3, Treble, 0, "<3TR00\r");
    SampleText(3, Treble, 13, "<3TR13\r");
  }

  /** The set-bass test's requests: 1 and 13 as they are, 100 as 14, -100 as 0. */
  lemma SetBassSamples()
    ensures FormatSetBass(3, 1) == Encode("<3BS01\r")
    ensures FormatSetBass(3, 100) == Encode("<3BS14\r")
    ensures FormatSetBass(3, -100) == Encode("<3BS00\r")
    ensures FormatSetBass(3, 13) == Encode("<3BS13\r")
  {
    SampleText(3, Bass, 1, "<3BS01\r");
    SampleText(3, Bass, 14, "<3BS14\r");
    SampleText(3, Bass, 0, "<3BS00\r");
    SampleText(3, Bass, 13, "<3BS13\r");
  }

  /** The set-balance test's requests: 1 and 13 as they are, 100 as 20, -100 as 0. */
  lemma SetBalanceSamples()
    ensures FormatSetBalance(3, 1) == Encode("<3BL01\r")
    ensures FormatSetBalance(3, 100) == Encode("<3BL20\r")
    ensures FormatSetBalance(3, -100) == Encode("<3BL00\r")
    ensures FormatSetBalance(3, 13) == Encode("<3BL13\r")
  {
    SampleText(3, Balance, 1, "<3BL01\r");
    SampleText(3, Balance, 20, "<3BL20\r");
    SampleText(3, Balance, 0, "<3BL00\r");
    SampleText(3, Balance, 13, "<3BL13\r");
  }

  /** The set-source test's requests: 1 and 3 as they are, 100 as 6, -100 as 1. */
  lemma SetSourceSamples()
    ensures FormatSetSource(3, 1) == Encode("<3CH01\r")
    ensures FormatSetSource(3, 100) == Encode("<3CH06\r")
    ensures FormatSetSource(3, -100) == Encode("<3CH01\r")
    ensures FormatSetSource(3, 3) == Encode("<3CH03\r")
  {
    SampleText(3, Source, 1, "<3CH01\r");
    SampleText(3, Source, 6, "<3CH06\r");
    SampleText(3, Source, 3, "<3CH03\r");
  }
}

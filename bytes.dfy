/** Bytes on the serial line, and the ASCII codec between them and Python strings. */
module Bytes {
  newtype byte = x: int | 0 <= x < 256

  predicate IsAsciiText(s: string) {
    forall i :: 0 <= i < |s| ==> s[i] as int < 128
  }

  predicate IsAsciiBytes(b: seq<byte>) {
    forall i :: 0 <= i < |b| ==> b[i] < 128
  }

  /** `str.encode()` on text that is pure ASCII (UTF-8 agrees with ASCII there). */
  function Encode(s: string): (b: seq<byte>)
    requires IsAsciiText(s)
    ensures |b| == |s| && IsAsciiBytes(b)
    ensures forall i :: 0 <= i < |s| ==> b[i] as int == s[i] as int
  {
    seq(|s|, i requires 0 <= i < |s| => s[i] as int as byte)
  }

  /** `bytes.decode("ascii")` on bytes that all lie below 128. */
  function Decode(b: seq<byte>): (s: string)
    requires IsAsciiBytes(b)
    ensures |s| == |b| && IsAsciiText(s)
    ensures forall i :: 0 <= i < |b| ==> s[i] as int == b[i] as int
  {
    seq(|b|, i requires 0 <= i < |b| => b[i] as int as char)
  }

  lemma DecodeEncode(s: string)
    requires IsAsciiText(s)
    ensures Decode(Encode(s)) == s
  {
    var b := Encode(s);
    assert forall i :: 0 <= i < |s| ==> Decode(b)[i] == s[i];
  }
}

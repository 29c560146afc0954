/**
 * The end-of-line counter `_subsequence_count`: a resumable scan that counts
 * the markers in a growing buffer and hands back a cursor to resume from.
 */
module Eol {
  import opened Wrappers
  import opened Bytes
  import opened Occurrences

  /** The three-byte marker CR LF '#' that ends every frame the amplifier sends. */
  const EOL: seq<byte> := [13, 10, 35]

  /** The pair `(start, count)` threaded through successive calls. */
  datatype Cursor = Cursor(start: nat, count: nat)

  /** What one call computes from `(start, count)`: repeat find, step past the marker, count it. */
  function Scan<T(==)>(s: seq<T>, sub: seq<T>, start: nat, count: nat): (r: Cursor)
    requires |sub| > 0
    decreases |s| - start
    ensures start <= r.start && count <= r.count
    ensures start <= |s| ==> r.start <= |s|
  {
    var idx := Find(s, sub, start);
    if idx < 0 then Cursor(start, count) else Scan(s, sub, idx + |sub|, count + 1)
  }

  /**
   * `_subsequence_count(sequence, sub, previous)`: the loop that keeps looking
   * for `sub` from the current start until no further occurrence exists;
   * `previous == None` starts from `(0, 0)`.
   */
  method SubsequenceCount<T(==)>(sequence: seq<T>, sub: seq<T>, previous: Option<Cursor>) returns (r: Cursor)
    requires |sub| > 0
    ensures var from := previous.GetOr(Cursor(0, 0));
      r == Scan(sequence, sub, from.start, from.count)
    ensures var from := previous.GetOr(Cursor(0, 0));
      from.start <= r.start && from.count <= r.count
      && (from.start <= |sequence| ==> r.start <= |sequence|)
    ensures Find(sequence, sub, r.start) < 0
  {
    var start, count := 0, 0;
    if previous.Some? {
      start, count := previous.value.start, previous.value.count;
    }
    ghost var from := Cursor(start, count);
    while true
      invariant from.start <= start && from.count <= count
      invariant Scan(sequence, sub, start, count) == Scan(sequence, sub, from.start, from.count)
      decreases |sequence| - start
    {
      var idx := Find(sequence, sub, start);
      if idx < 0 {
        return Cursor(start, count);
      }
      start, count := idx + |sub|, count + 1;
    }
  }

  /** The indices of the markers a scan from `start` counts, in the order it finds them. */
  ghost function Positions<T>(s: seq<T>, sub: seq<T>, start: nat): (p: seq<nat>)
    requires |sub| > 0
    decreases |s| - start
    ensures forall k :: 0 <= k < |p| ==> start <= p[k] && OccursAt(s, sub, p[k])
    ensures forall k, m :: 0 <= k < m < |p| ==> p[k] + |sub| <= p[m]
  {
    var idx := Find(s, sub, start);
    FindFirst(s, sub, start);
    if idx < 0 then [] else [idx] + Positions(s, sub, idx + |sub|)
  }

  /**
   * A scan adds one to the count per marker in `Positions`, and leaves the
   * cursor just past the last of them: markers counted never overlap.
   */
  lemma {:induction false} ScanCountsPositions<T>(s: seq<T>, sub: seq<T>, start: nat, count: nat)
    requires |sub| > 0
    decreases |s| - start
    ensures var p := Positions(s, sub, start);
      Scan(s, sub, start, count)
        == Cursor(if p == [] then start else p[|p| - 1] + |sub|, count + |p|)
  {
    var idx := Find(s, sub, start);
    if idx >= 0 {
      ScanCountsPositions(s, sub, idx + |sub|, count + 1);
    }
  }

  /**
   * Resuming equals rescanning: scanning `a` and then resuming on `a + b`
   * from the returned cursor gives the cursor of one scan of `a + b`.
   */
  lemma {:induction false} ScanResumes<T>(a: seq<T>, b: seq<T>, sub: seq<T>, start: nat, count: nat)
    requires |sub| > 0
    decreases |a| - start
    ensures var mid := Scan(a, sub, start, count);
      Scan(a + b, sub, mid.start, mid.count) == Scan(a + b, sub, start, count)
  {
    var idx := Find(a, sub, start);
    if idx >= 0 {
      FindInExtension(a, b, sub, start);
      ScanSkips(a, sub, start, count, idx);
      ScanSkips(a + b, sub, start, count, idx);
      ScanResumes(a, b, sub, idx + |sub|, count + 1);
    }
  }

  /** A scan that finds the marker at `idx` goes on from just past it, one count up. */
  lemma ScanSkips<T>(s: seq<T>, sub: seq<T>, start: nat, count: nat, idx: int)
    requires |sub| > 0 && idx == Find(s, sub, start) && idx >= 0
    ensures Scan(s, sub, start, count) == Scan(s, sub, idx + |sub|, count + 1)
  {
  }

  /** A scan runs until no marker is left from its cursor on. */
  lemma {:induction false} ScanExhausts<T>(s: seq<T>, sub: seq<T>, start: nat, count: nat)
    requires |sub| > 0
    decreases |s| - start
    ensures Find(s, sub, Scan(s, sub, start, count).start) < 0
  {
    var idx := Find(s, sub, start);
    if idx >= 0 {
      ScanExhausts(s, sub, idx + |sub|, count + 1);
    }
  }

  /** With no marker in `a` from `from` on, a marker in `a + [x]` from there must end at the new element. */
  lemma FindAfterExhausted<T>(a: seq<T>, x: T, sub: seq<T>, from: nat)
    requires Find(a, sub, from) < 0
    ensures var idx := Find(a + [x], sub, from);
      idx < 0 || (idx + |sub| == |a| + 1 && OccursAt(a + [x], sub, idx))
  {
    FindFirst(a, sub, from);
    FindFirst(a + [x], sub, from);
    OccursInPrefix(a, [x], sub);
  }

  /**
   * Appending one element adds at most one to the count, and only when the
   * buffer now ends with the marker.
   */
  lemma ScanOneMore<T>(a: seq<T>, x: T, sub: seq<T>, start: nat, count: nat)
    requires |sub| > 0
    ensures var before := Scan(a, sub, start, count);
      var after := Scan(a + [x], sub, start, count);
      before.count <= after.count <= before.count + 1
      && (after.count == before.count + 1 ==>
            |sub| <= |a| + 1 && (a + [x])[|a| + 1 - |sub|..] == sub)
  {
    var mid := Scan(a, sub, start, count);
    var s := a + [x];
    ScanResumes(a, [x], sub, start, count);
    ScanExhausts(a, sub, start, count);
    FindAfterExhausted(a, x, sub, mid.start);
    var idx := Find(s, sub, mid.start);
    if idx >= 0 {
      assert Find(s, sub, idx + |sub|) < 0;
      assert forall k :: 0 <= k < |sub| ==> s[idx..][k] == sub[k];
    }
  }

  /** The marker cannot overlap itself, so a scan counts every marker in the buffer. */
  lemma {:induction false} EolCountsEveryMarker(s: seq<byte>, start: nat, j: nat)
    requires start <= j && OccursAt(s, EOL, j)
    decreases |s| - start
    ensures j in Positions(s, EOL, start)
  {
    var idx := Find(s, EOL, start);
    FindFirst(s, EOL, start);
    assert s[idx..idx + 3] == EOL && s[j..j + 3] == EOL;
    assert s[j] == 13 && s[idx + 1] == 10 && s[idx + 2] == 35;
    assert j != idx + 1 && j != idx + 2;
    if j != idx {
      EolCountsEveryMarker(s, idx + 3, j);
    }
  }

  /** The example of a marker that does overlap itself: "\r\r\r" holds "\r\r" once, then once more after a fourth "\r". */
  lemma ResumeExample()
    ensures Scan("\r\r\r", "\r\r", 0, 0) == Cursor(2, 1)
    ensures Scan("\r\r\r\r", "\r\r", 2, 1) == Cursor(4, 2)
  {
    assert Find("\r\r\r", "\r\r", 0) == 0;
    assert Find("\r\r\r", "\r\r", 2) == -1;
    assert Find("\r\r\r\r", "\r\r", 2) == 2;
    assert Find("\r\r\r\r", "\r\r", 4) == -1;
  }
}

/** `str.split(sep)`: cutting a response at every separator, leftmost first. */
module Text {
  import opened Occurrences

  /** The pieces glued back together with `sep` between neighbours: `sep.join(pieces)`. */
  function Join<T>(pieces: seq<seq<T>>, sep: seq<T>): seq<T>
    requires |pieces| >= 1
  {
    if |pieces| == 1 then pieces[0] else pieces[0] + sep + Join(pieces[1..], sep)
  }

  /** The joined text starts with the first piece and ends with the last. */
  lemma {:induction false} JoinEnds<T>(pieces: seq<seq<T>>, sep: seq<T>)
    requires |pieces| >= 1
    ensures pieces[0] <= Join(pieces, sep)
    ensures var s, last := Join(pieces, sep), pieces[|pieces| - 1];
      |last| <= |s| && s[|s| - |last|..] == last
  {
    if |pieces| > 1 {
      var rest := Join(pieces[1..], sep);
      JoinEnds(pieces[1..], sep);
      assert pieces[1..][|pieces| - 2] == pieces[|pieces| - 1];
      var s := pieces[0] + sep + rest;
      assert s[|s| - |rest|..] == rest;
    }
  }

  /**
   * `s.split(sep)` for a non-empty separator: joining the pieces with `sep`
   * gives `s` back, and no piece contains `sep`.
   */
  function Split<T(==)>(s: seq<T>, sep: seq<T>): (pieces: seq<seq<T>>)
    requires |sep| > 0
    decreases |s|
    ensures |pieces| >= 1
    ensures Join(pieces, sep) == s
    ensures forall k :: 0 <= k < |pieces| ==> Find(pieces[k], sep, 0) < 0
  {
    var i := Find(s, sep, 0);
    if i < 0 then [s]
    else
      var head, tail := s[..i], s[i + |sep|..];
      var pieces := [head] + Split(tail, sep);
      CutAtFirst(s, sep, i);
      assert pieces[1..] == Split(tail, sep);
      pieces
  }

  /** Cutting `s` around its first occurrence of `sep`, at `i`: the parts glue back, and the head holds no `sep`. */
  lemma CutAtFirst<T>(s: seq<T>, sep: seq<T>, i: nat)
    requires |sep| > 0 && i == Find(s, sep, 0) && i >= 0
    ensures s == s[..i] + sep + s[i + |sep|..]
    ensures Find(s[..i], sep, 0) < 0
  {
    FindFirst(s, sep, 0);
    GlueAround(s, sep, i);
    OccursInHead(s, sep, i);
    FindFirst(s[..i], sep, 0);
  }

  /** An occurrence inside a prefix of `s` is an occurrence in `s`. */
  lemma OccursInHead<T>(s: seq<T>, sep: seq<T>, i: nat)
    requires i <= |s|
    ensures forall j :: OccursAt(s[..i], sep, j) ==> OccursAt(s, sep, j)
  {
    var head := s[..i];
    forall j | OccursAt(head, sep, j)
      ensures OccursAt(s, sep, j)
    {
      assert forall k :: j <= k < j + |sep| ==> s[k] == head[k];
    }
  }

  lemma GlueAround<T>(s: seq<T>, sep: seq<T>, i: nat)
    requires OccursAt(s, sep, i)
    ensures s == s[..i] + sep + s[i + |sep|..]
  {
    var t := s[..i] + sep + s[i + |sep|..];
    assert |t| == |s|;
    forall j | 0 <= j < |s|
      ensures t[j] == s[j]
    {
      if i <= j < i + |sep| {
        assert t[j] == sep[j - i];
      }
    }
  }
}

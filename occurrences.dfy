/** Where one sequence occurs inside another: the search behind `bytes.find` and `str.split`. */
module Occurrences {
  /** `sub` occurs in `s` starting at index `j`. */
  predicate OccursAt<T(==)>(s: seq<T>, sub: seq<T>, j: int) {
    0 <= j && j + |sub| <= |s| && forall k :: 0 <= k < |sub| ==> s[j + k] == sub[k]
  }

  /**
   * `s.find(sub, start)` for a non-negative `start`: the lowest index at or
   * after `start` where `sub` occurs, or -1 when there is none (also when
   * `start` lies past the end).
   */
  function Find<T(==)>(s: seq<T>, sub: seq<T>, start: nat): (idx: int)
    decreases |s| - start
    ensures -1 <= idx
    ensures idx >= 0 ==> start <= idx && idx + |sub| <= |s|
  {
    if start + |sub| > |s| then -1
    else if OccursAt(s, sub, start) then start
    else Find(s, sub, start + 1)
  }

  /** `Find` returns the first occurrence at or after `start`, and -1 exactly when there is none. */
  lemma {:induction false} FindFirst<T>(s: seq<T>, sub: seq<T>, start: nat)
    decreases |s| - start
    ensures var idx := Find(s, sub, start);
      (idx >= 0 ==> OccursAt(s, sub, idx))
      && (idx >= 0 ==> forall j :: start <= j < idx ==> !OccursAt(s, sub, j))
      && (idx < 0 ==> forall j :: start <= j ==> !OccursAt(s, sub, j))
  {
    if start + |sub| <= |s| && !OccursAt(s, sub, start) {
      FindFirst(s, sub, start + 1);
    }
  }

  /** An occurrence that lies wholly inside `a` is an occurrence in `a + b`, and conversely. */
  lemma OccursInPrefix<T>(a: seq<T>, b: seq<T>, sub: seq<T>)
    ensures forall j :: j + |sub| <= |a| ==> (OccursAt(a + b, sub, j) <==> OccursAt(a, sub, j))
  {
    forall j | j + |sub| <= |a|
      ensures OccursAt(a + b, sub, j) <==> OccursAt(a, sub, j)
    {

    }
  }

  /** Appending bytes never moves the first occurrence already present. */
  lemma {:induction false} FindInExtension<T>(a: seq<T>, b: seq<T>, sub: seq<T>, start: nat)
    requires Find(a, sub, start) >= 0
    ensures Find(a + b, sub, start) == Find(a, sub, start)
  {
    OccursInPrefix(a, b, sub);
    FindFirst(a, sub, start);
    FindFirst(a + b, sub, start);
  }
}

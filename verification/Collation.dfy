/** Comparing strings character by character: `a < b` on code units, and `a.localeCompare(b)`
    taken as lexicographic by the weight a collation gives each character.  The weights are
    arbitrary, except that distinct characters differ. */
module Collation {

  type Weight = char -> int

  ghost predicate Collates(w: Weight) {
    forall c, d :: w(c) == w(d) ==> c == d
  }

  function Sign(n: int): int {
    if n < 0 then -1 else if n > 0 then 1 else 0
  }

  function CompareText(w: Weight, a: string, b: string): (n: int)
    ensures -1 <= n <= 1
  {
    if a == "" then if b == "" then 0 else -1
    else if b == "" then 1
    else if a[0] != b[0] then Sign(w(a[0]) - w(b[0]))
    else CompareText(w, a[1..], b[1..])
  }

  /** The weights of `<` on strings. */
  function CodeUnits(): Weight {
    (c: char) => c as int
  }

  lemma {:induction false} CompareSamePrefix(w: Weight, p: string, a: string, b: string)
    ensures CompareText(w, p + a, p + b) == CompareText(w, a, b)
  {
    if p == "" {
      assert p + a == a && p + b == b;
    } else {
      assert (p + a)[1..] == p[1..] + a && (p + b)[1..] == p[1..] + b;
      CompareSamePrefix(w, p[1..], a, b);
    }
  }

  /** Strings that differ somewhere within both compare the same however they go on. */
  lemma {:induction false} CompareExtended(w: Weight, a: string, b: string, k: nat, x: string, y: string)
    requires k < |a| && k < |b| && a[k] != b[k]
    ensures CompareText(w, a + x, b + y) == CompareText(w, a, b)
  {
    if a[0] == b[0] {
      assert (a + x)[1..] == a[1..] + x && (b + y)[1..] == b[1..] + y;
      CompareExtended(w, a[1..], b[1..], k - 1, x, y);
    }
  }

  lemma {:induction false} CompareZero(w: Weight, a: string, b: string)
    requires Collates(w)
    ensures CompareText(w, a, b) == 0 <==> a == b
  {
    if a != "" && b != "" && a[0] == b[0] {
      CompareZero(w, a[1..], b[1..]);
      assert a == [a[0]] + a[1..] && b == [b[0]] + b[1..];
    }
  }

  lemma {:induction false} CompareReversed(w: Weight, a: string, b: string)
    requires Collates(w)
    ensures CompareText(w, b, a) == -CompareText(w, a, b)
  {
    if a != "" && b != "" && a[0] == b[0] {
      CompareReversed(w, a[1..], b[1..]);
    }
  }

  lemma {:induction false} CompareTransitive(w: Weight, a: string, b: string, c: string)
    requires Collates(w) && CompareText(w, a, b) <= 0 && CompareText(w, b, c) <= 0
    ensures CompareText(w, a, c) <= 0
  {
    if a != "" && b != "" && c != "" && a[0] == b[0] == c[0] {
      CompareTransitive(w, a[1..], b[1..], c[1..]);
    }
  }
}

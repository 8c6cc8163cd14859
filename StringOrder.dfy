/** Python's `<` on `str`: lexicographic comparison by code point, where a
    proper prefix comes before any longer string. `sorted` uses this order. */
module StringOrder {

  predicate Below(a: string, b: string)
    decreases |a|
  {
    if |a| == 0 then |b| > 0
    else |b| > 0 && (a[0] < b[0] || (a[0] == b[0] && Below(a[1..], b[1..])))
  }

  /** No string is below itself. */
  lemma {:induction false} BelowIrreflexive(a: string)
    ensures !Below(a, a)
    decreases |a|
  {
    if |a| > 0 {
      BelowIrreflexive(a[1..]);
    }
  }

  /** `Below` is transitive. */
  lemma {:induction false} BelowTransitive(a: string, b: string, c: string)
    requires Below(a, b) && Below(b, c)
    ensures Below(a, c)
    decreases |a|
  {
    if |a| > 0 && a[0] == b[0] && b[0] == c[0] {
      BelowTransitive(a[1..], b[1..], c[1..]);
    }
  }

  /** Of two different strings, one is below the other. */
  lemma {:induction false} BelowConnected(a: string, b: string)
    requires a != b
    ensures Below(a, b) || Below(b, a)
    decreases |a|
  {
    if |a| > 0 && |b| > 0 && a[0] == b[0] {
      assert a == [a[0]] + a[1..] && b == [b[0]] + b[1..];
      BelowConnected(a[1..], b[1..]);
    }
  }

  /** `Below` is a strict total order on strings. */
  lemma StrictTotalOrder()
    ensures forall a :: !Below(a, a)
    ensures forall a, b, c :: Below(a, b) && Below(b, c) ==> Below(a, c)
    ensures forall a, b :: a != b ==> Below(a, b) || Below(b, a)
  {
    forall a {
      BelowIrreflexive(a);
    }
    forall a, b, c | Below(a, b) && Below(b, c) {
      BelowTransitive(a, b, c);
    }
    forall a, b | a != b {
      BelowConnected(a, b);
    }
  }
}

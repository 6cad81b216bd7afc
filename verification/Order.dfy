/** Lexicographic order of sequences, given an order of their elements: of keys as bytes, of names as characters. */
module Order {

  // A strict order in which any two elements can be compared
  ghost predicate Strict<T(!new)>(less: (T, T) -> bool) {
    && (forall a :: !less(a, a))
    && (forall a, b :: less(a, b) || less(b, a) || a == b)
    && (forall a, b, c :: less(a, b) && less(b, c) ==> less(a, c))
  }

  predicate Before<T(==)>(less: (T, T) -> bool, a: seq<T>, b: seq<T>) {
    if b == [] then false
    else if a == [] then true
    else less(a[0], b[0]) || (a[0] == b[0] && Before(less, a[1..], b[1..]))
  }

  lemma {:induction false} BeforeIrreflexive<T(!new)>(less: (T, T) -> bool, a: seq<T>)
    requires Strict(less)
    ensures !Before(less, a, a)
  {
    if a != [] {
      BeforeIrreflexive(less, a[1..]);
    }
  }

  lemma {:induction false} BeforeTotal<T(!new)>(less: (T, T) -> bool, a: seq<T>, b: seq<T>)
    requires Strict(less)
    ensures Before(less, a, b) || Before(less, b, a) || a == b
    ensures !(Before(less, a, b) && Before(less, b, a))
    ensures a == b ==> !Before(less, a, b)
  {
    if a != [] && b != [] {
      BeforeTotal(less, a[1..], b[1..]);
      assert a == [a[0]] + a[1..] && b == [b[0]] + b[1..];
      assert less(a[0], b[0]) ==> !less(b[0], a[0]);
    }
    BeforeIrreflexive(less, a);
  }

  lemma {:induction false} BeforeTransitive<T(!new)>(less: (T, T) -> bool, a: seq<T>, b: seq<T>, c: seq<T>)
    requires Strict(less) && Before(less, a, b) && Before(less, b, c)
    ensures Before(less, a, c)
  {
    if a != [] && a[0] == b[0] == c[0] {
      BeforeTransitive(less, a[1..], b[1..], c[1..]);
    }
  }

  /** A common prefix does not matter. */
  lemma {:induction false} BeforeAfterPrefix<T(!new)>(less: (T, T) -> bool, p: seq<T>, a: seq<T>, b: seq<T>)
    requires Strict(less)
    ensures Before(less, p + a, p + b) <==> Before(less, a, b)
  {
    if p == [] {
      assert p + a == a && p + b == b;
    } else {
      assert (p + a)[1..] == p[1..] + a && (p + b)[1..] == p[1..] + b;
      BeforeAfterPrefix(less, p[1..], a, b);
    }
  }
}

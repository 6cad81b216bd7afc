/** Strings as the assigner uses them: decimal numbers, separators, the order of hashes, sorting. */
module Text {
  import Order

  function Digit(n: nat): char
    requires n < 10
  {
    '0' + n as char
  }

  function Decimal(n: nat): (s: string)
    ensures s != [] && forall c | c in s :: '0' <= c <= '9'
  {
    if n < 10 then [Digit(n)] else Decimal(n / 10) + [Digit(n % 10)]
  }

  lemma {:induction false} DecimalInjective(a: nat, b: nat)
    requires Decimal(a) == Decimal(b)
    ensures a == b
    decreases a
  {
    var s := Decimal(a);
    if a >= 10 && b >= 10 {
      assert Decimal(a / 10) == s[..|s| - 1] == Decimal(b / 10);
      DecimalInjective(a / 10, b / 10);
      assert s[|s| - 1] == Digit(a % 10) == Digit(b % 10);
    }
  }

  // The separator is the last character that is no digit
  lemma SeparatorIsLast(a: string, m: nat, separator: char, i: nat)
    requires !('0' <= separator <= '9') && |a| < i < |a + [separator] + Decimal(m)|
    ensures (a + [separator] + Decimal(m))[i] != separator
  {
    var d := Decimal(m);
    assert (a + [separator] + d)[i] == d[i - |a| - 1] && d[i - |a| - 1] in d;
  }

  /** A text, a separator that is no digit, and a number: both parts can be read back. */
  lemma SeparatedInjective(a: string, m: nat, b: string, n: nat, separator: char)
    requires !('0' <= separator <= '9')
    requires a + [separator] + Decimal(m) == b + [separator] + Decimal(n)
    ensures a == b && m == n
  {
    hide Decimal;
    var s := a + [separator] + Decimal(m);
    assert s[|a|] == separator && s[|b|] == separator;
    if |a| < |b| {
      SeparatorIsLast(a, m, separator, |b|);
    }
    if |b| < |a| {
      SeparatorIsLast(b, n, separator, |a|);
    }
    assert a == s[..|a|] == b;
    assert Decimal(m) == s[|a| + 1..] == Decimal(n);
    DecimalInjective(m, n);
  }

  function CharLess(x: char, y: char): bool {
    x < y
  }

  // The order of strings, character by character
  predicate Before(a: string, b: string) {
    Order.Before(CharLess, a, b)
  }

  lemma FirstCharDecides(a: string, b: string)
    requires a != [] && b != [] && a[0] < b[0]
    ensures Before(a, b)
  {
  }

  lemma BeforeTotal(a: string, b: string)
    ensures Before(a, b) || Before(b, a) || a == b
    ensures !(Before(a, b) && Before(b, a)) && !Before(a, a)
  {
    Order.BeforeTotal(CharLess, a, b);
    Order.BeforeIrreflexive(CharLess, a);
  }

  lemma BeforeTransitive(a: string, b: string, c: string)
    requires Before(a, b) && Before(b, c)
    ensures Before(a, c)
  {
    Order.BeforeTransitive(CharLess, a, b, c);
  }

  // Rising keys, no two alike
  ghost predicate Sorted<T(!new)>(xs: seq<T>, key: T -> string) {
    forall i, j :: 0 <= i < j < |xs| ==> Before(key(xs[i]), key(xs[j]))
  }

  // No key stands before an earlier one; equal keys may come in any order
  ghost predicate Ordered<T(!new)>(xs: seq<T>, key: T -> string) {
    forall i, j :: 0 <= i < j < |xs| ==> !Before(key(xs[j]), key(xs[i]))
  }

  ghost predicate DistinctKeys<T(!new), K(!new)>(xs: seq<T>, key: T -> K) {
    forall i, j :: 0 <= i < j < |xs| ==> key(xs[i]) != key(xs[j])
  }

  lemma OccursTwice<T>(xs: seq<T>, i: nat, j: nat)
    requires i < j < |xs| && xs[i] == xs[j]
    ensures multiset(xs)[xs[i]] >= 2
  {
    assert xs == xs[..j] + [xs[j]] + xs[j + 1..];
    assert xs[i] in xs[..j];
  }

  lemma OccursOnce<T(!new), K(!new)>(xs: seq<T>, i: nat, key: T -> K)
    requires DistinctKeys(xs, key) && i < |xs|
    ensures multiset(xs)[xs[i]] == 1
  {
    assert xs == xs[..i] + [xs[i]] + xs[i + 1..];
    assert xs[i] !in xs[..i] && xs[i] !in xs[i + 1..];
  }

  /** Distinct keys stay distinct under any rearrangement. */
  lemma DistinctRearranged<T(!new), K(!new)>(xs: seq<T>, ys: seq<T>, key: T -> K)
    requires DistinctKeys(xs, key) && multiset(xs) == multiset(ys)
    ensures DistinctKeys(ys, key)
  {
    forall i, j | 0 <= i < j < |ys| ensures key(ys[i]) != key(ys[j]) {
      assert ys[i] in multiset(xs) && ys[j] in multiset(xs);
      var a :| 0 <= a < |xs| && xs[a] == ys[i];
      var b :| 0 <= b < |xs| && xs[b] == ys[j];
      if a == b {
        OccursTwice(ys, i, j);
        OccursOnce(xs, a, key);
      }
    }
  }

  lemma OrderedIsSorted<T(!new)>(xs: seq<T>, key: T -> string)
    requires Ordered(xs, key)
    ensures Sorted(xs, key) <==> DistinctKeys(xs, key)
  {
    forall i, j | 0 <= i < j < |xs|
      ensures Before(key(xs[i]), key(xs[j])) <==> key(xs[i]) != key(xs[j])
    {
      BeforeTotal(key(xs[i]), key(xs[j]));
    }
  }

  /** However the input was ordered, the result is an ordered arrangement of its elements. */
  method SortBy<T(!new)>(xs: seq<T>, key: T -> string) returns (ys: seq<T>)
    ensures multiset(ys) == multiset(xs) && Ordered(ys, key)
  {
    ys := [];
    assert Ordered(ys, key);
    hide Before, Ordered;
    for n := 0 to |xs|
      invariant multiset(ys) == multiset(xs[..n]) && Ordered(ys, key)
    {
      var x := xs[n];
      var at := 0;
      while at < |ys| && Before(key(ys[at]), key(x))
        invariant 0 <= at <= |ys|
        invariant forall i :: 0 <= i < at ==> Before(key(ys[i]), key(x))
      {
        at := at + 1;
      }
      InsertOrdered(ys, x, at, key);
      InsertedElements(ys, x, at);
      ys := ys[..at] + [x] + ys[at..];
      assert xs[..n + 1] == xs[..n] + [x];
    }
    assert xs[..|xs|] == xs;
  }

  // Where insertion stops, what stands before is not after `x`, and what follows not before it
  lemma StandsAround<T(!new)>(ys: seq<T>, x: T, at: nat, key: T -> string, i: nat)
    requires Ordered(ys, key) && at <= |ys| && i < |ys|
    requires forall j :: 0 <= j < at ==> Before(key(ys[j]), key(x))
    requires at < |ys| ==> !Before(key(ys[at]), key(x))
    ensures if i < at then !Before(key(x), key(ys[i])) else !Before(key(ys[i]), key(x))
  {
    hide Before;
    BeforeTotal(key(ys[i]), key(x));
    if at < i && Before(key(ys[i]), key(x)) {
      BeforeTotal(key(ys[at]), key(ys[i]));
      if Before(key(ys[at]), key(ys[i])) {
        BeforeTransitive(key(ys[at]), key(ys[i]), key(x));
      }
      assert false;
    }
  }

  lemma InsertedElements<T>(ys: seq<T>, x: T, at: nat)
    requires at <= |ys|
    ensures multiset(ys[..at] + [x] + ys[at..]) == multiset(ys) + multiset{x}
  {
    assert ys == ys[..at] + ys[at..];
  }

  lemma InsertOrdered<T(!new)>(ys: seq<T>, x: T, at: nat, key: T -> string)
    requires Ordered(ys, key) && at <= |ys|
    requires forall i :: 0 <= i < at ==> Before(key(ys[i]), key(x))
    requires at < |ys| ==> !Before(key(ys[at]), key(x))
    ensures Ordered(ys[..at] + [x] + ys[at..], key)
  {
    hide Before;
    var zs := ys[..at] + [x] + ys[at..];
    forall i: nat | i < |ys| ensures if i < at then !Before(key(x), key(ys[i])) else !Before(key(ys[i]), key(x)) {
      StandsAround(ys, x, at, key, i);
    }
    forall i, j | 0 <= i < j < |zs| ensures !Before(key(zs[j]), key(zs[i])) {
      assert zs[i] == if i < at then ys[i] else if i == at then x else ys[i - 1];
      assert zs[j] == if j < at then ys[j] else if j == at then x else ys[j - 1];
    }
  }

  /** Rising sequences with the same elements are the same sequence. */
  lemma {:induction false} SortedUnique<T(!new)>(xs: seq<T>, ys: seq<T>, key: T -> string)
    requires Sorted(xs, key) && Sorted(ys, key) && forall x :: x in xs <==> x in ys
    ensures xs == ys
    decreases |xs|
  {
    assert xs != [] ==> xs[0] in ys;
    assert ys != [] ==> ys[0] in xs;
    if xs != [] && ys != [] {
      FirstOfSorted(xs, ys, key);
      var xs', ys' := xs[1..], ys[1..];
      forall x ensures x in xs' <==> x in ys' {
        InTail(xs, x, key);
        InTail(ys, x, key);
      }
      SortedUnique(xs', ys', key);
      assert xs == [xs[0]] + xs' && ys == [ys[0]] + ys';
    }
  }

  // The first elements of two ordered arrangements have the same key
  lemma FirstOfOrdered<T(!new)>(xs: seq<T>, ys: seq<T>, key: T -> string)
    requires Ordered(xs, key) && Ordered(ys, key) && xs != [] && ys != [] && xs[0] in ys && ys[0] in xs
    ensures key(xs[0]) == key(ys[0])
  {
    var i :| 0 <= i < |ys| && ys[i] == xs[0];
    var j :| 0 <= j < |xs| && xs[j] == ys[0];
    BeforeTotal(key(xs[0]), key(ys[0]));
    hide Before;
  }

  lemma WithoutFirst<T(!new)>(xs: seq<T>, key: T -> string)
    requires xs != [] && Ordered(xs, key)
    ensures multiset(xs[1..]) == multiset(xs) - multiset{xs[0]} && Ordered(xs[1..], key)
    ensures xs == [xs[0]] + xs[1..]
  {
    hide Before;
    assert xs == [xs[0]] + xs[1..];
  }

  lemma SameElements<T>(xs: seq<T>, ys: seq<T>)
    requires multiset(xs) == multiset(ys)
    ensures |xs| == |ys| && forall x :: x in xs <==> x in ys
  {
    assert |multiset(xs)| == |xs| && |multiset(ys)| == |ys|;
    assert forall x :: x in xs <==> x in multiset(xs);
  }

  /** Ordered arrangements of the same elements are the same, if equal keys mean equal elements. */
  lemma {:induction false} OrderedUnique<T(!new)>(xs: seq<T>, ys: seq<T>, key: T -> string)
    requires Ordered(xs, key) && Ordered(ys, key) && multiset(xs) == multiset(ys)
    requires forall a, b :: a in xs && b in xs && key(a) == key(b) ==> a == b
    ensures xs == ys
    decreases |xs|
  {
    hide Before;
    SameElements(xs, ys);
    if xs != [] {
      FirstOfOrdered(xs, ys, key);
      WithoutFirst(xs, key);
      WithoutFirst(ys, key);
      hide Ordered;
      OrderedUnique(xs[1..], ys[1..], key);
    }
  }

  lemma FirstOfSorted<T(!new)>(xs: seq<T>, ys: seq<T>, key: T -> string)
    requires Sorted(xs, key) && Sorted(ys, key) && forall x :: x in xs <==> x in ys
    requires xs != [] && ys != []
    ensures xs[0] == ys[0]
  {
    assert xs[0] in ys && ys[0] in xs;
    var i :| 0 <= i < |ys| && ys[i] == xs[0];
    var j :| 0 <= j < |xs| && xs[j] == ys[0];
    if i > 0 && j > 0 {
      BeforeTotal(key(xs[0]), key(ys[0]));
      assert false;
    }
  }

  lemma InTail<T(!new)>(xs: seq<T>, x: T, key: T -> string)
    requires Sorted(xs, key) && xs != []
    ensures x in xs[1..] <==> x in xs && x != xs[0]
  {
    if x in xs[1..] {
      var i :| 0 <= i < |xs[1..]| && xs[1..][i] == x;
      assert xs[i + 1] == x;
      BeforeTotal(key(x), key(x));
    }
    if x in xs && x != xs[0] {
      var i :| 0 <= i < |xs| && xs[i] == x;
      assert xs[1..][i - 1] == x;
    }
  }
}

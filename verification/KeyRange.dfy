/** The key range that a prefixed iterator scans: from the prefix up to `KeyUpperBound` of it. */
module KeyRange {
  import opened Basics
  import Order

  function ByteLess(x: byte, y: byte): bool {
    x < y
  }

  /** Lexicographic order on keys, the order of the backend. */
  predicate Less(a: Bytes, b: Bytes) {
    Order.Before(ByteLess, a, b)
  }

  lemma LessTotal(a: Bytes, b: Bytes)
    ensures Less(a, b) || Less(b, a) || a == b
    ensures !(Less(a, b) && Less(b, a)) && !Less(a, a)
  {
    Order.BeforeTotal(ByteLess, a, b);
    Order.BeforeIrreflexive(ByteLess, a);
  }

  lemma LessTransitive(a: Bytes, b: Bytes, c: Bytes)
    requires Less(a, b) && Less(b, c)
    ensures Less(a, c)
  {
    Order.BeforeTransitive(ByteLess, a, b, c);
  }

  lemma LessAfterPrefix(p: Bytes, a: Bytes, b: Bytes)
    ensures Less(p + a, p + b) <==> Less(a, b)
  {
    Order.BeforeAfterPrefix(ByteLess, p, a, b);
  }

  // At or after the lower bound, before the upper bound if there is one
  predicate InRange(s: Bytes, lower: Bytes, upper: Option<Bytes>) {
    !Less(s, lower) && (upper.Some? ==> Less(s, upper.value))
  }

  // A key is bumped at its last byte that is not 0xFF and cut there; all-0xFF keys have no bound
  ghost predicate BumpedAt(b: Bytes, i: nat, upper: Bytes) {
    && i < |b| && b[i] < 255
    && (forall j :: i < j < |b| ==> b[j] == 255)
    && |upper| == i + 1 && upper[..i] == b[..i] && upper[i] == b[i] + 1
  }

  lemma {:induction false} BumpedRange(b: Bytes, i: nat, upper: Bytes, s: Bytes)
    requires BumpedAt(b, i, upper)
    ensures InRange(s, b, Some(upper)) <==> b <= s
    decreases |b|
  {
    if s == [] {
    } else if i == 0 {
      assert upper[0] == b[0] + 1 && upper[1..] == [];
      assert !Less(s[1..], []);
      SaturatedTail(b[1..], s[1..]);
      PrefixStep(b, s);
    } else {
      assert BumpedAt(b[1..], i - 1, upper[1..]) by {
        assert upper[..i][0] == b[..i][0] && upper[1..][..i - 1] == upper[..i][1..] && b[1..][..i - 1] == b[..i][1..];
      }
      BumpedRange(b[1..], i - 1, upper[1..], s[1..]);
      PrefixStep(b, s);
      assert upper[..i][0] == b[..i][0];
    }
  }

  // Nothing but keys with the prefix lies at or above a run of 0xFF bytes
  lemma {:induction false} SaturatedTail(b: Bytes, s: Bytes)
    requires forall j :: 0 <= j < |b| ==> b[j] == 255
    ensures !Less(s, b) <==> b <= s
  {
    if b != [] && s != [] {
      SaturatedTail(b[1..], s[1..]);
      PrefixStep(b, s);
    }
  }

  lemma PrefixStep(b: Bytes, s: Bytes)
    requires b != [] && s != []
    ensures b <= s <==> b[0] == s[0] && b[1..] <= s[1..]
  {
    if b[0] == s[0] && b[1..] <= s[1..] {
      assert b == [b[0]] + b[1..] && s == [s[0]] + s[1..];
      forall j | 0 <= j < |b| ensures b[j] == s[j] {
        if j > 0 {
          assert b[j] == b[1..][j - 1] && s[j] == s[1..][j - 1];
        }
      }
    }
  }

  /** The scanned range holds exactly the keys that have the prefix, for every prefix. */
  method KeyUpperBound(b: Bytes) returns (upper: Option<Bytes>)
    ensures forall s: Bytes :: InRange(s, b, upper) <==> b <= s
    ensures upper.None? <==> forall j :: 0 <= j < |b| ==> b[j] == 255
  {
    var end := new byte[|b|](i requires 0 <= i < |b| => b[i]);
    var i := end.Length - 1;
    while i >= 0
      invariant -1 <= i < end.Length == |b|
      invariant forall j :: 0 <= j <= i ==> end[j] == b[j]
      invariant forall j :: i < j < |b| ==> b[j] == 255
    {
      end[i] := ((end[i] as int + 1) % 256) as byte;  // wraps around
      if end[i] != 0 {
        upper := Some(end[..i + 1]);
        assert BumpedAt(b, i, upper.value);
        forall s: Bytes ensures InRange(s, b, upper) <==> b <= s {
          BumpedRange(b, i, upper.value, s);
        }
        return;
      }
      i := i - 1;
    }
    upper := None;
    forall s: Bytes ensures InRange(s, b, upper) <==> b <= s {
      SaturatedTail(b, s);
    }
  }
}

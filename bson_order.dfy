/**
 * The order MongoDB's `$sort` puts group keys in when the key is the `runId`
 * field: a null (or missing) runId comes before every string, and strings are
 * compared by MongoDB's simple binary comparison of their UTF-8 bytes. A Dafny
 * `char` is a Unicode scalar value, and UTF-8 byte order is code-point order,
 * so comparing characters one by one, a proper prefix coming first, is that
 * same order.
 */
module BsonOrder {
  import opened Wrappers

  /** A `$group` key on `runId`. */
  type Key = Option<string>

  /** Lexicographic order on strings. */
  predicate StrLess(a: string, b: string)
    decreases |a|
  {
    |b| > 0 && (|a| == 0 || a[0] < b[0] || (a[0] == b[0] && StrLess(a[1..], b[1..])))
  }

  /** The BSON comparison of two group keys: null below every string, nothing below null. */
  predicate KeyLess(a: Key, b: Key)
    ensures KeyLess(a, b) ==> b.Some?
    ensures a.None? && b.Some? ==> KeyLess(a, b)
    ensures a.Some? && b.Some? ==> (KeyLess(a, b) <==> StrLess(a.value, b.value))
  {
    match (a, b)
    case (None, Some(_)) => true
    case (Some(x), Some(y)) => StrLess(x, y)
    case _ => false
  }

  /** `a` comes first at position `k`: the first `k` characters agree and `a`'s next one is smaller. */
  ghost predicate FirstDifferenceBelow(a: string, b: string, k: nat) {
    k < |a| && k < |b| && a[..k] == b[..k] && a[k] < b[k]
  }

  /** `StrLess` is the lexicographic order: a proper prefix, or smaller at the first difference. */
  lemma {:induction false} StrLessIsLexicographic(a: string, b: string)
    ensures StrLess(a, b) <==>
      (|a| < |b| && a == b[..|a|]) || exists k: nat :: FirstDifferenceBelow(a, b, k)
    decreases |a|
  {
    if |a| == 0 || |b| == 0 {
    } else if a[0] < b[0] {
      assert FirstDifferenceBelow(a, b, 0);
    } else if a[0] > b[0] {
    } else {
      var a', b' := a[1..], b[1..];
      StrLessIsLexicographic(a', b');
      assert (|a| < |b| && a == b[..|a|]) <==> (|a'| < |b'| && a' == b'[..|a'|]) by {
        if |a| < |b| && a == b[..|a|] { assert a' == a[1..] == b[..|a|][1..] == b'[..|a'|]; }
        if |a'| < |b'| && a' == b'[..|a'|] { assert a == [a[0]] + a' && b[..|a|] == [b[0]] + b'[..|a'|]; }
      }
      forall k: nat | FirstDifferenceBelow(a, b, k) ensures FirstDifferenceBelow(a', b', k - 1) {
        assert k > 0;
        assert a'[..k - 1] == a[..k][1..] == b[..k][1..] == b'[..k - 1];
      }
      forall k: nat | FirstDifferenceBelow(a', b', k) ensures FirstDifferenceBelow(a, b, k + 1) {
        assert a[..k + 1] == [a[0]] + a'[..k] && b[..k + 1] == [b[0]] + b'[..k];
      }
    }
  }

  lemma {:induction false} StrLessIrreflexive(a: string)
    ensures !StrLess(a, a)
    decreases |a|
  {
    if |a| > 0 { StrLessIrreflexive(a[1..]); }
  }

  lemma {:induction false} StrLessTransitive(a: string, b: string, c: string)
    requires StrLess(a, b) && StrLess(b, c)
    ensures StrLess(a, c)
    decreases |a|
  {
    if |a| > 0 && a[0] == b[0] && b[0] == c[0] {
      StrLessTransitive(a[1..], b[1..], c[1..]);
    }
  }

  lemma {:induction false} StrLessTotal(a: string, b: string)
    ensures a == b || StrLess(a, b) || StrLess(b, a)
    decreases |a|
  {
    if |a| > 0 && |b| > 0 && a[0] == b[0] {
      StrLessTotal(a[1..], b[1..]);
      if a[1..] == b[1..] {
        assert a == [a[0]] + a[1..] && b == [b[0]] + b[1..];
      }
    }
  }

  lemma KeyLessIrreflexive(a: Key)
    ensures !KeyLess(a, a)
  {
    if a.Some? { StrLessIrreflexive(a.value); }
  }

  lemma KeyLessTransitive(a: Key, b: Key, c: Key)
    requires KeyLess(a, b) && KeyLess(b, c)
    ensures KeyLess(a, c)
  {
    if a.Some? { StrLessTransitive(a.value, b.value, c.value); }
  }

  lemma KeyLessTotal(a: Key, b: Key)
    ensures a == b || KeyLess(a, b) || KeyLess(b, a)
  {
    if a.Some? && b.Some? { StrLessTotal(a.value, b.value); }
  }
}

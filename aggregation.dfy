/**
 * The stages of the run-index aggregation pipeline, each as a function on the
 * sequence that flows between stages: `$match` on iata, `$group` on runId,
 * `$sort` descending on the group key, `$skip`, `$limit`. The `$project` stage
 * only renames the group key `_id` to `runId`, so a key stands for its
 * projected document.
 */
module Aggregation {
  import opened Wrappers
  import opened Model
  import opened BsonOrder

  function Elems<T>(s: seq<T>): set<T> {
    set x | x in s
  }

  predicate Distinct<T(==)>(s: seq<T>) {
    forall i, j :: 0 <= i < j < |s| ==> s[i] != s[j]
  }

  predicate StrictlyDescending(s: seq<Key>) {
    forall i, j :: 0 <= i < j < |s| ==> KeyLess(s[j], s[i])
  }

  /** The runIds occurring in a collection of documents. */
  function RunIds(docs: seq<TestMethodResult>): set<Key> {
    set d | d in docs :: d.runId
  }

  /** `$match` on `iata`: keeps the documents whose iata equals the argument, in order. */
  function Match(docs: seq<TestMethodResult>, iata: string): (r: seq<TestMethodResult>)
    ensures forall d :: d in r <==> d in docs && d.iata == Some(iata)
  {
    if |docs| == 0 then []
    else if docs[0].iata == Some(iata) then [docs[0]] + Match(docs[1..], iata)
    else Match(docs[1..], iata)
  }

  /** `$group` on `runId`: one key per distinct runId (here in order of first occurrence). */
  function Group(docs: seq<TestMethodResult>): (r: seq<Key>)
    ensures Distinct(r)
    ensures Elems(r) == RunIds(docs)
  {
    if |docs| == 0 then []
    else
      var front := docs[..|docs| - 1];
      var g := Group(front);
      var k := docs[|docs| - 1].runId;
      assert docs == front + [docs[|docs| - 1]];
      assert RunIds(docs) == RunIds(front) + {k};
      if k in g then g else g + [k]
  }

  /** Inserts a key into a strictly descending sequence, dropping it if already present. */
  function InsertDesc(s: seq<Key>, k: Key): (r: seq<Key>)
    requires StrictlyDescending(s)
    ensures StrictlyDescending(r)
    ensures Elems(r) == Elems(s) + {k}
  {
    if |s| == 0 then [k]
    else if s[0] == k then s
    else if KeyLess(s[0], k) then
      assert forall j :: 0 <= j < |s| ==> KeyLess(s[j], k) by {
        forall j | 0 < j < |s| { KeyLessTransitive(s[j], s[0], k); }
      }
      [k] + s
    else
      KeyLessTotal(s[0], k);
      var t := InsertDesc(s[1..], k);
      assert Elems(s) == {s[0]} + Elems(s[1..]) by { assert s == [s[0]] + s[1..]; }
      forall j | 0 <= j < |t| ensures KeyLess(t[j], s[0]) {
        assert t[j] in Elems(t);
        if t[j] != k {
          assert t[j] in Elems(s[1..]);
          var i :| 0 <= i < |s[1..]| && s[1..][i] == t[j];
          assert s[i + 1] == t[j];
        }
      }
      assert Elems([s[0]] + t) == {s[0]} + Elems(t);
      [s[0]] + t
  }

  /** `$sort` descending on the group key. */
  function SortDesc(keys: seq<Key>): (r: seq<Key>)
    ensures StrictlyDescending(r)
    ensures Elems(r) == Elems(keys)
  {
    if |keys| == 0 then []
    else
      assert keys == [keys[0]] + keys[1..];
      InsertDesc(SortDesc(keys[1..]), keys[0])
  }

  /** `$skip`: drops the first `n` entries. */
  function Skip<T>(s: seq<T>, n: nat): seq<T> {
    if n >= |s| then [] else s[n..]
  }

  /** `$limit`: keeps at most the first `n` entries. */
  function Limit<T>(s: seq<T>, n: nat): seq<T> {
    if n >= |s| then s else s[..n]
  }

  /** `$skip n` leaves the last max(N - n, 0) entries. */
  lemma SkipDropsPrefix<T>(s: seq<T>, n: nat)
    ensures |Skip(s, n)| == if n >= |s| then 0 else |s| - n
    ensures Skip(s, n) == s[|s| - |Skip(s, n)|..]
  {
  }

  /** `$limit n` is the first min(N, n) entries. */
  lemma LimitKeepsPrefix<T>(s: seq<T>, n: nat)
    ensures |Limit(s, n)| == if n >= |s| then |s| else n
    ensures Limit(s, n) == s[..|Limit(s, n)|]
  {
  }

  /** Page `index` of `s`, pages holding `size` entries each. */
  function Page<T>(s: seq<T>, index: nat, size: nat): seq<T> {
    Limit(Skip(s, index * size), size)
  }

  /** Pages `0 .. count-1` of `s`, one after the other. */
  function Pages<T>(s: seq<T>, count: nat, size: nat): seq<T> {
    if count == 0 then [] else Pages(s, count - 1, size) + Page(s, count - 1, size)
  }

  /** Number of pages needed for `n` entries: the ceiling of `n / size`. */
  function PageCount(n: nat, size: nat): nat
    requires size > 0
  {
    (n + size - 1) / size
  }

  lemma MulMonotone(a: nat, b: nat, n: nat)
    requires a <= b
    ensures a * n <= b * n
  {
    assert b * n == a * n + (b - a) * n;
  }

  /** Page `index` is the slice of `s` starting at `index * size`, at most `size` long. */
  lemma PageIndexing<T>(s: seq<T>, index: nat, size: nat)
    ensures index * size >= |s| ==> Page(s, index, size) == []
    ensures index * size < |s| ==>
      |Page(s, index, size)| == (if |s| - index * size < size then |s| - index * size else size)
    ensures forall i :: 0 <= i < |Page(s, index, size)| ==> Page(s, index, size)[i] == s[index * size + i]
  {
  }

  /** A prefix followed by the next slice is the longer prefix. */
  lemma LimitSkip<T>(s: seq<T>, m: nat, n: nat)
    ensures Limit(s, m) + Limit(Skip(s, m), n) == Limit(s, m + n)
  {
    if m >= |s| {
    } else if m + n >= |s| {
      assert s[..m] + s[m..] == s;
    } else {
      assert s[..m] + s[m..][..n] == s[..m + n];
    }
  }

  /** The first `count` pages together are the first `count * size` entries. */
  lemma {:induction false} PagesArePrefix<T>(s: seq<T>, count: nat, size: nat)
    ensures Pages(s, count, size) == Limit(s, count * size)
  {
    if count == 0 {
      assert Limit(s, 0) == [];
    } else {
      PagesArePrefix(s, count - 1, size);
      LimitSkip(s, (count - 1) * size, size);
      assert (count - 1) * size + size == count * size;
    }
  }

  /** Pages from `PageCount(|s|, size)` on are empty, and all earlier pages are not. */
  lemma PageEmptyExactlyBeyondLast<T>(s: seq<T>, index: nat, size: nat)
    requires size > 0
    ensures Page(s, index, size) == [] <==> index >= PageCount(|s|, size)
  {
    var q := PageCount(|s|, size);
    var r := (|s| + size - 1) % size;
    assert |s| + size - 1 == q * size + r;
    if index >= q {
      MulMonotone(q, index, size);
      PageIndexing(s, index, size);
    } else {
      MulMonotone(index, q - 1, size);
      assert (q - 1) * size == q * size - size;
      PageIndexing(s, index, size);
    }
  }

  /** All `PageCount(|s|, size)` pages together reproduce `s` exactly. */
  lemma AllPagesAreWhole<T>(s: seq<T>, size: nat)
    requires size > 0
    ensures Pages(s, PageCount(|s|, size), size) == s
  {
    var q := PageCount(|s|, size);
    var r := (|s| + size - 1) % size;
    assert |s| + size - 1 == q * size + r;
    PagesArePrefix(s, q, size);
  }

  /** Entry `i` of page `p` and entry `j` of page `q` sit at different positions when `p != q`. */
  lemma SlotsDiffer(p: nat, q: nat, i: nat, j: nat, size: nat)
    requires p != q && i < size && j < size
    ensures p * size + i != q * size + j
  {
    if p < q {
      MulMonotone(p + 1, q, size);
    } else {
      MulMonotone(q + 1, p, size);
    }
  }

  /** A page of a strictly descending sequence is strictly descending, at most `size` long, and drawn from it. */
  lemma PageOfDescending(s: seq<Key>, index: nat, size: nat)
    requires StrictlyDescending(s)
    ensures StrictlyDescending(Page(s, index, size))
    ensures |Page(s, index, size)| <= size
    ensures Elems(Page(s, index, size)) <= Elems(s)
  {
    var m := index * size;
    if m < |s| {
      var t := s[m..];
      assert StrictlyDescending(t) by {
        forall i, j | 0 <= i < j < |t| ensures KeyLess(t[j], t[i]) {
          assert t[i] == s[m + i] && t[j] == s[m + j];
        }
      }
      assert Elems(t) <= Elems(s) by {
        forall x | x in Elems(t) ensures x in Elems(s) {
          var i :| 0 <= i < |t| && t[i] == x;
          assert s[m + i] == x;
        }
      }
      if size < |t| {
        assert Elems(t[..size]) <= Elems(t) by {
          forall x | x in Elems(t[..size]) ensures x in Elems(t) {
            var i :| 0 <= i < size && t[..size][i] == x;
            assert t[i] == x;
          }
        }
      }
    }
  }

  lemma PageEntry<T>(s: seq<T>, p: nat, size: nat, i: nat)
    requires i < |Page(s, p, size)|
    ensures p * size + i < |s| && Page(s, p, size)[i] == s[p * size + i]
  {
  }

  lemma EntriesOfDifferentPagesDiffer<T>(s: seq<T>, p: nat, q: nat, size: nat, i: nat, j: nat)
    requires Distinct(s) && p != q
    requires i < |Page(s, p, size)| && j < |Page(s, q, size)|
    ensures Page(s, p, size)[i] != Page(s, q, size)[j]
  {
    PageEntry(s, p, size, i);
    PageEntry(s, q, size, j);
    assert i < size && j < size;
    SlotsDiffer(p, q, i, j, size);
    var u, v := p * size + i, q * size + j;
    DistinctAt(s, u, v);
  }

  lemma DistinctAt<T>(s: seq<T>, u: nat, v: nat)
    requires Distinct(s) && u < |s| && v < |s| && u != v
    ensures s[u] != s[v]
  {
    if u > v { assert s[v] != s[u]; }
  }

  /** Different pages of a sequence without repetitions share no entry. */
  lemma DistinctPagesDisjoint<T>(s: seq<T>, p: nat, q: nat, size: nat)
    requires Distinct(s) && p != q
    ensures Elems(Page(s, p, size)) !! Elems(Page(s, q, size))
  {
    var a, b := Page(s, p, size), Page(s, q, size);
    forall x | x in Elems(a) ensures x !in Elems(b) {
      var i :| 0 <= i < |a| && a[i] == x;
      if x in Elems(b) {
        var j :| 0 <= j < |b| && b[j] == x;
        EntriesOfDifferentPagesDiffer(s, p, q, size, i, j);
      }
    }
  }

  lemma EmptyElems<T>(s: seq<T>)
    ensures Elems(s) == {} <==> s == []
  {
    if s != [] { assert s[0] in Elems(s); }
  }

  lemma DescendingIsDistinct(s: seq<Key>)
    requires StrictlyDescending(s)
    ensures Distinct(s)
  {
    forall i, j | 0 <= i < j < |s| ensures s[i] != s[j] {
      KeyLessIrreflexive(s[i]);
    }
  }

  /** A finite set of keys has exactly one strictly descending arrangement. */
  lemma {:induction false} DescendingUnique(a: seq<Key>, b: seq<Key>)
    requires StrictlyDescending(a) && StrictlyDescending(b)
    requires Elems(a) == Elems(b)
    ensures a == b
    decreases |a|
  {
    if |a| == 0 {
      EmptyElems(b);
    } else {
      assert a[0] in Elems(b);
      assert |b| > 0;
      assert b[0] in Elems(a);
      if a[0] != b[0] {
        var i :| 0 <= i < |a| && a[i] == b[0];
        var j :| 0 <= j < |b| && b[j] == a[0];
        KeyLessTransitive(a[0], b[0], a[0]);
        KeyLessIrreflexive(a[0]);
        assert false;
      }
      DescendingIsDistinct(a);
      DescendingIsDistinct(b);
      assert Elems(a[1..]) == Elems(a) - {a[0]} by {
        assert a == [a[0]] + a[1..];
        assert a[0] !in a[1..];
      }
      assert Elems(b[1..]) == Elems(b) - {b[0]} by {
        assert b == [b[0]] + b[1..];
        assert b[0] !in b[1..];
      }
      DescendingUnique(a[1..], b[1..]);
      assert a == [a[0]] + a[1..] && b == [b[0]] + b[1..];
    }
  }
}

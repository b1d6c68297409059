/** Option, the usual stand-in for JavaScript's `undefined`/`null`. */
module Wrappers {
  datatype Option<+T> = None | Some(value: T) {
    function GetOr(default: T): T {
      match this
      case Some(v) => v
      case None => default
    }
  }
}

/**
 * The sequence operations the screens use on their arrays:
 * `Array.prototype.filter`, `Array.prototype.map` and the first-seen key
 * order of a JavaScript object that is filled key by key.
 */
module Seqs {

  /** `s.filter(p)`: the elements satisfying `p`, in their original order. */
  function Filter<T(!new)>(s: seq<T>, p: T -> bool): (r: seq<T>)
    ensures |r| <= |s|
  {
    if s == [] then [] else (if p(s[0]) then [s[0]] else []) + Filter(s[1..], p)
  }

  /** The filtered list holds exactly the elements of `s` that satisfy `p`. */
  lemma {:induction false} FilterMembers<T(!new)>(s: seq<T>, p: T -> bool)
    ensures forall x :: x in Filter(s, p) <==> x in s && p(x)
  {
    if s != [] {
      FilterMembers(s[1..], p);
      assert forall x :: x in s <==> x == s[0] || x in s[1..];
    }
  }

  /** `s.map(f)`. */
  function Map<T, U>(s: seq<T>, f: T -> U): (r: seq<U>)
    ensures |r| == |s|
  {
    if s == [] then [] else [f(s[0])] + Map(s[1..], f)
  }

  /** Each element of the mapped list is the image of the element at the same place. */
  lemma {:induction false} MapAt<T, U>(s: seq<T>, f: T -> U, k: nat)
    requires k < |s|
    ensures Map(s, f)[k] == f(s[k])
  {
    if k > 0 {
      MapAt(s[1..], f, k - 1);
    }
  }

  /** The mapped list holds exactly the images of the elements of `s`. */
  lemma MapMembers<T, U>(s: seq<T>, f: T -> U)
    ensures forall k :: 0 <= k < |s| ==> f(s[k]) in Map(s, f)
    ensures forall y :: y in Map(s, f) ==> exists k :: 0 <= k < |s| && y == f(s[k])
  {
    forall k | 0 <= k < |s| ensures f(s[k]) in Map(s, f) {
      MapAt(s, f, k);
    }
    forall y | y in Map(s, f) ensures exists k :: 0 <= k < |s| && y == f(s[k]) {
      var k :| 0 <= k < |s| && Map(s, f)[k] == y;
      MapAt(s, f, k);
    }
  }

  lemma MapSnoc<T, U>(s: seq<T>, x: T, f: T -> U)
    ensures Map(s + [x], f) == Map(s, f) + [f(x)]
  {
    var l, r := Map(s + [x], f), Map(s, f) + [f(x)];
    assert |l| == |r|;
    forall k | 0 <= k < |l| ensures l[k] == r[k] {
      MapAt(s + [x], f, k);
      if k < |s| {
        MapAt(s, f, k);
      }
    }
  }

  /**
   * A loop over `s` that pushes the image under `f` of every element
   * satisfying `p`: the images of the accepted elements, in order.
   */
  method CollectWhere<T(!new), U>(s: seq<T>, p: T -> bool, f: T -> U) returns (out: seq<U>)
    ensures out == Map(Filter(s, p), f)
  {
    out := [];
    for i := 0 to |s|
      invariant out == Map(Filter(s[..i], p), f)
    {
      var x := s[i];
      ghost var kept := Filter(s[..i], p);
      assert s[..i + 1] == s[..i] + [x];
      FilterSnoc(s[..i], x, p);
      if p(x) {
        MapSnoc(kept, x, f);
        out := out + [f(x)];
      } else {
        assert Filter(s[..i + 1], p) == kept;
      }
    }
    assert s[..|s|] == s;
  }

  /**
   * `a` is an order-preserving subsequence of `b`: `a` is obtained from `b`
   * by deleting elements (greedy matching decides this exactly).
   */
  predicate Subseq<T(==,!new)>(a: seq<T>, b: seq<T>)
  {
    if a == [] then true
    else if b == [] then false
    else if a[0] == b[0] then Subseq(a[1..], b[1..])
    else Subseq(a, b[1..])
  }

  /** Every element is different from every other. */
  predicate NoDup<T(==,!new)>(s: seq<T>)
  {
    forall i, j :: 0 <= i < j < |s| ==> s[i] != s[j]
  }

  /**
   * The distinct elements of `s` in the order in which they are first seen:
   * the key order of an object that gets a property for each key of `s`
   * not seen before.
   */
  function Dedup<T(==,!new)>(s: seq<T>): (r: seq<T>)
    ensures NoDup(r)
    ensures forall x :: x in r <==> x in s
  {
    if s == [] then []
    else
      var d := Dedup(s[..|s| - 1]);
      assert forall x :: x in s <==> x in s[..|s| - 1] || x == s[|s| - 1];
      if s[|s| - 1] in d then d else d + [s[|s| - 1]]
  }

  /** Each element occurs in the filtered list as often as in `s` when it satisfies `p`, and not at all otherwise. */
  lemma {:induction false} FilterCount<T(!new)>(s: seq<T>, p: T -> bool)
    ensures forall x :: multiset(Filter(s, p))[x] == if p(x) then multiset(s)[x] else 0
  {
    if s != [] {
      FilterCount(s[1..], p);
      assert s == [s[0]] + s[1..];
      assert multiset(s) == multiset([s[0]]) + multiset(s[1..]);
      assert Filter(s, p) == (if p(s[0]) then [s[0]] else []) + Filter(s[1..], p);
    }
  }

  lemma {:induction false} FilterAppend<T(!new)>(a: seq<T>, b: seq<T>, p: T -> bool)
    ensures Filter(a + b, p) == Filter(a, p) + Filter(b, p)
  {
    if a == [] {
      assert a + b == b;
    } else {
      var head := if p(a[0]) then [a[0]] else [];
      assert (a + b)[0] == a[0];
      assert (a + b)[1..] == a[1..] + b;
      FilterAppend(a[1..], b, p);
      calc {
        Filter(a + b, p);
        head + Filter(a[1..] + b, p);
        head + (Filter(a[1..], p) + Filter(b, p));
        (head + Filter(a[1..], p)) + Filter(b, p);
      }
    }
  }

  /** Filtering processes the input from the front, so it can be computed by pushing. */
  lemma FilterSnoc<T(!new)>(s: seq<T>, x: T, p: T -> bool)
    ensures Filter(s + [x], p) == Filter(s, p) + (if p(x) then [x] else [])
  {
    FilterAppend(s, [x], p);
  }

  lemma {:induction false} FilterIsSubseq<T(!new)>(s: seq<T>, p: T -> bool)
    ensures Subseq(Filter(s, p), s)
  {
    if s != [] {
      FilterIsSubseq(s[1..], p);
      if p(s[0]) {
        assert Filter(s, p) == [s[0]] + Filter(s[1..], p);
        assert Filter(s, p)[1..] == Filter(s[1..], p);
      } else {
        assert Filter(s, p) == Filter(s[1..], p);
        SkipHead(Filter(s[1..], p), s);
      }
    }
  }

  /** A subsequence of the tail is a subsequence of the whole sequence. */
  lemma {:induction false} SkipHead<T(!new)>(a: seq<T>, b: seq<T>)
    requires b != [] && Subseq(a, b[1..])
    ensures Subseq(a, b)
  {
    if a != [] && a[0] == b[0] {
      var t := b[1..];
      if t != [] {
        if a[0] == t[0] {
          assert Subseq(a[1..], t[1..]);
          SkipHead(a[1..], t);
        } else {
          SkipHead(a, t);
          assert Subseq(a, t);
          SubseqTail(a, t);
        }
      }
    }
  }

  /** Dropping the first element of a subsequence keeps it a subsequence. */
  lemma {:induction false} SubseqTail<T(!new)>(a: seq<T>, b: seq<T>)
    requires a != [] && Subseq(a, b)
    ensures Subseq(a[1..], b)
  {
    if b != [] {
      if a[0] == b[0] {
        assert Subseq(a[1..], b[1..]);
        SkipHead(a[1..], b);
      } else {
        SubseqTail(a, b[1..]);
        SkipHead(a[1..], b);
      }
    }
  }

  /**
   * Filtering by a stronger predicate after a weaker one is the same as
   * filtering by the stronger one alone.
   */
  lemma {:induction false} FilterNarrow<T(!new)>(s: seq<T>, p: T -> bool, q: T -> bool)
    requires forall x :: p(x) ==> q(x)
    ensures Filter(Filter(s, q), p) == Filter(s, p)
  {
    if s != [] {
      FilterNarrow(s[1..], p, q);
      if q(s[0]) {
        assert Filter(s, q) == [s[0]] + Filter(s[1..], q);
        FilterAppend([s[0]], Filter(s[1..], q), p);
        assert [s[0]][1..] == [];
        assert Filter([s[0]], p) == if p(s[0]) then [s[0]] else [];
      } else {
        assert !p(s[0]);
        assert Filter(s, q) == Filter(s[1..], q);
      }
    }
  }

  /** Applying the same filter twice yields the same list as applying it once. */
  lemma FilterIdempotent<T(!new)>(s: seq<T>, p: T -> bool)
    ensures Filter(Filter(s, p), p) == Filter(s, p)
  {
    FilterNarrow(s, p, p);
  }

  /** The result of a filter by the weaker predicate contains, in order, that of the stronger. */
  lemma FilterMonotone<T(!new)>(s: seq<T>, p: T -> bool, q: T -> bool)
    requires forall x :: p(x) ==> q(x)
    ensures Subseq(Filter(s, p), Filter(s, q))
  {
    FilterNarrow(s, p, q);
    FilterIsSubseq(Filter(s, q), p);
  }

  /** A filter that rejects every element of `s` yields nothing. */
  lemma {:induction false} FilterNone<T(!new)>(s: seq<T>, p: T -> bool)
    requires forall k :: 0 <= k < |s| ==> !p(s[k])
    ensures Filter(s, p) == []
  {
    if s != [] {
      FilterNone(s[1..], p);
    }
  }

  /** A filter that accepts every element of `s` yields `s` itself. */
  lemma {:induction false} FilterAll<T(!new)>(s: seq<T>, p: T -> bool)
    requires forall k :: 0 <= k < |s| ==> p(s[k])
    ensures Filter(s, p) == s
  {
    if s != [] {
      FilterAll(s[1..], p);
    }
  }

  /** The first element of the first-seen order is the first element of the input. */
  lemma {:induction false} DedupHead<T(!new)>(s: seq<T>)
    requires s != []
    ensures Dedup(s) != [] && Dedup(s)[0] == s[0]
  {
    if |s| > 1 {
      var init := s[..|s| - 1];
      DedupHead(init);
      assert init[0] == s[0];
    }
  }

  /** The position of the first occurrence of `x` in `s`. */
  function FirstIndex<T(==)>(s: seq<T>, x: T): (i: nat)
    requires x in s
    ensures i < |s| && s[i] == x && x !in s[..i]
  {
    if s[0] == x then 0
    else
      var i := 1 + FirstIndex(s[1..], x);
      assert s[..i] == [s[0]] + s[1..][..i - 1];
      i
  }

  /** An occurrence with no earlier occurrence is the first one. */
  lemma FirstIndexAt<T>(s: seq<T>, x: T, k: nat)
    requires k < |s| && s[k] == x && x !in s[..k]
    ensures FirstIndex(s, x) == k
  {
  }

  /**
   * The first-seen order lists the keys by the position of their first
   * occurrence in `s`.
   */
  lemma {:induction false} DedupFirstSeen<T(!new)>(s: seq<T>)
    ensures forall i, j :: 0 <= i < j < |Dedup(s)| ==>
              Dedup(s)[i] in s && Dedup(s)[j] in s && FirstIndex(s, Dedup(s)[i]) < FirstIndex(s, Dedup(s)[j])
  {
    if s != [] {
      var init, last := s[..|s| - 1], s[|s| - 1];
      var d, r := Dedup(init), Dedup(s);
      assert r == if last in d then d else d + [last];
      DedupFirstSeen(init);
      forall x | x in init ensures FirstIndex(s, x) == FirstIndex(init, x) {
        var k := FirstIndex(init, x);
        assert s[..k] == init[..k];
        FirstIndexAt(s, x, k);
      }
      forall i, j | 0 <= i < j < |r| ensures r[i] in s && r[j] in s && FirstIndex(s, r[i]) < FirstIndex(s, r[j]) {
        assert r[i] in r && r[j] in r;
        if j < |d| {
          assert r[i] == d[i] && r[j] == d[j];
          assert d[i] in init && d[j] in init;
        } else {
          assert r[j] == last && last !in d && r[i] == d[i];
          assert d[i] in init;
          assert last !in init;
          assert s[..|init|] == init;
          FirstIndexAt(s, last, |init|);
        }
      }
    } else {
      assert Dedup(s) == [];
    }
  }
}

/** Keep-if-match selection over a sequence (`Array.prototype.filter`): the kept
    elements, in their original order, each decided from the element and its index. */
module Selection {

  /** The elements of `items` for which `keep(item, index)` holds, in order, where
      `items` starts at position `offset` of the whole sequence. */
  function SelectFrom<T>(items: seq<T>, keep: (T, nat) -> bool, offset: nat): (r: seq<T>)
    ensures |r| <= |items|
    decreases |items|
  {
    if items == [] then []
    else
      (if keep(items[0], offset) then [items[0]] else []) + SelectFrom(items[1..], keep, offset + 1)
  }

  function Select<T>(items: seq<T>, keep: (T, nat) -> bool): (r: seq<T>) {
    SelectFrom(items, keep, 0)
  }

  /** The positions (counted from `offset`) that `keep` accepts, in increasing
      order (`KeptIndicesExact`). */
  function KeptIndicesFrom<T>(items: seq<T>, keep: (T, nat) -> bool, offset: nat): (idx: seq<nat>)
    ensures |idx| <= |items|
    ensures forall k | 0 <= k < |idx| :: offset <= idx[k] < offset + |items|
    decreases |items|
  {
    if items == [] then []
    else
      var rest := KeptIndicesFrom(items[1..], keep, offset + 1);
      if keep(items[0], offset) then [offset] + rest else rest
  }

  /** The positions increase strictly. */
  ghost predicate Increasing(idx: seq<nat>) {
    forall k, l | 0 <= k < l < |idx| :: idx[k] < idx[l]
  }

  /** A position of `items` (counted from `offset`) is in `idx` exactly when
      `keep` accepts the element there. */
  ghost predicate KeptExactly<T>(idx: seq<nat>, items: seq<T>, keep: (T, nat) -> bool, offset: nat) {
    forall i | 0 <= i < |items| :: offset + i in idx <==> keep(items[i], offset + i)
  }

  /** The kept positions increase, and a position is kept exactly when `keep`
      accepts the element there. */
  lemma {:induction false} KeptIndicesExact<T>(items: seq<T>, keep: (T, nat) -> bool, offset: nat)
    ensures Increasing(KeptIndicesFrom(items, keep, offset))
    ensures KeptExactly(KeptIndicesFrom(items, keep, offset), items, keep, offset)
    decreases |items|
  {
    if items != [] {
      var rest := KeptIndicesFrom(items[1..], keep, offset + 1);
      KeptIndicesExact(items[1..], keep, offset + 1);
      KeptExactlyStep(items, keep, offset, rest);
      if keep(items[0], offset) {
        IncreasingCons(offset, rest);
      }
    }
  }

  lemma IncreasingCons(first: nat, rest: seq<nat>)
    requires Increasing(rest) && forall k | 0 <= k < |rest| :: first < rest[k]
    ensures Increasing([first] + rest)
  {
    forall k, l | 0 <= k < l < |rest| + 1
      ensures ([first] + rest)[k] < ([first] + rest)[l]
    {
      assert ([first] + rest)[l] == rest[l - 1];
      if k > 0 {
        assert ([first] + rest)[k] == rest[k - 1];
      }
    }
  }

  /** Membership of the rest's positions carries over to the whole sequence. */
  lemma KeptExactlyStep<T>(items: seq<T>, keep: (T, nat) -> bool, offset: nat, rest: seq<nat>)
    requires items != [] && KeptExactly(rest, items[1..], keep, offset + 1)
    requires forall k | 0 <= k < |rest| :: offset < rest[k]
    ensures KeptExactly(if keep(items[0], offset) then [offset] + rest else rest, items, keep, offset)
  {
    var idx := if keep(items[0], offset) then [offset] + rest else rest;
    assert offset !in rest;
    forall i | 1 <= i < |items|
      ensures offset + i in idx <==> keep(items[i], offset + i)
    {
      assert items[1..][i - 1] == items[i];
      assert offset + i in idx <==> offset + 1 + (i - 1) in rest;
    }
  }

  function KeptIndices<T>(items: seq<T>, keep: (T, nat) -> bool): (idx: seq<nat>) {
    KeptIndicesFrom(items, keep, 0)
  }

  /** `r` is `items` read at the positions `idx`, counted from `offset`. */
  ghost predicate ReadAt<T>(r: seq<T>, idx: seq<nat>, items: seq<T>, offset: nat) {
    |r| == |idx|
    && forall k | 0 <= k < |r| :: offset <= idx[k] < offset + |items| && r[k] == items[idx[k] - offset]
  }

  /** The selection is the input read at the kept positions, in order: exactly the
      order-preserving subsequence of accepted elements. */
  lemma {:induction false} SelectAtKeptIndices<T>(items: seq<T>, keep: (T, nat) -> bool, offset: nat)
    ensures ReadAt(SelectFrom(items, keep, offset), KeptIndicesFrom(items, keep, offset), items, offset)
    decreases |items|
  {
    if items != [] {
      var r', idx' := SelectFrom(items[1..], keep, offset + 1), KeptIndicesFrom(items[1..], keep, offset + 1);
      SelectAtKeptIndices(items[1..], keep, offset + 1);
      ReadAtShift(items, r', idx', offset);
      if keep(items[0], offset) {
        ReadAtCons(items, r', idx', offset);
      }
    }
  }

  /** Positions read in the rest of a sequence, read in the whole of it. */
  lemma ReadAtShift<T>(items: seq<T>, r: seq<T>, idx: seq<nat>, offset: nat)
    requires items != [] && ReadAt(r, idx, items[1..], offset + 1)
    ensures ReadAt(r, idx, items, offset)
  {
    forall k | 0 <= k < |r|
      ensures r[k] == items[idx[k] - offset]
    {
      assert items[1..][idx[k] - (offset + 1)] == items[idx[k] - offset];
    }
  }

  /** Reading the first position as well. */
  lemma ReadAtCons<T>(items: seq<T>, r: seq<T>, idx: seq<nat>, offset: nat)
    requires items != [] && ReadAt(r, idx, items, offset)
    ensures ReadAt([items[0]] + r, [offset] + idx, items, offset)
  {
    forall k | 1 <= k < |r| + 1
      ensures ([items[0]] + r)[k] == r[k - 1] && ([offset] + idx)[k] == idx[k - 1]
    {
    }
  }

  /** `a` can be obtained from `b` by deleting elements. */
  predicate IsSubseq<T(==)>(a: seq<T>, b: seq<T>)
    decreases |b|
  {
    if a == [] then true
    else if b == [] then false
    else if a[0] == b[0] then IsSubseq(a[1..], b[1..])
    else IsSubseq(a, b[1..])
  }

  lemma {:induction false} SubseqPrepend<T>(a: seq<T>, b: seq<T>, x: T)
    requires IsSubseq(a, b)
    ensures IsSubseq(a, [x] + b)
    decreases |b|, 1
  {
    assert ([x] + b)[1..] == b;
    if a != [] && a[0] == x {
      SubseqDropFirst(a, b);
    }
  }

  lemma {:induction false} SubseqDropFirst<T>(a: seq<T>, b: seq<T>)
    requires a != [] && IsSubseq(a, b)
    ensures IsSubseq(a[1..], b)
    decreases |b|, 0
  {
    if a[0] != b[0] {
      SubseqDropFirst(a, b[1..]);
    }
    SubseqPrepend(a[1..], b[1..], b[0]);
    assert [b[0]] + b[1..] == b;
  }

  /** Selecting with a weaker test keeps a superset, in the same order. */
  lemma {:induction false} SelectMonotone<T>(items: seq<T>, p: (T, nat) -> bool, q: (T, nat) -> bool,
                                             offset: nat)
    requires forall i | 0 <= i < |items| :: p(items[i], offset + i) ==> q(items[i], offset + i)
    ensures IsSubseq(SelectFrom(items, p, offset), SelectFrom(items, q, offset))
    decreases |items|
  {
    if items != [] {
      var x := items[0];
      assert forall i | 1 <= i < |items| :: items[1..][i - 1] == items[i];
      SelectMonotone(items[1..], p, q, offset + 1);
      var rp, rq := SelectFrom(items[1..], p, offset + 1), SelectFrom(items[1..], q, offset + 1);
      if p(x, offset) {
        assert ([x] + rp)[1..] == rp;
        assert ([x] + rq)[1..] == rq;
      } else if q(x, offset) {
        assert SelectFrom(items, p, offset) == rp;
        assert SelectFrom(items, q, offset) == [x] + rq;
        SubseqPrepend(rp, rq, x);
      } else {
        assert SelectFrom(items, p, offset) == rp;
        assert SelectFrom(items, q, offset) == rq;
      }
    }
  }

  /** Nothing is dropped when every element is accepted. */
  lemma {:induction false} SelectAll<T>(items: seq<T>, keep: (T, nat) -> bool, offset: nat)
    requires forall i | 0 <= i < |items| :: keep(items[i], offset + i)
    ensures SelectFrom(items, keep, offset) == items
    decreases |items|
  {
    if items != [] {
      assert forall i | 1 <= i < |items| :: items[1..][i - 1] == items[i];
      SelectAll(items[1..], keep, offset + 1);
    }
  }

  /** The selection is a subsequence of the input. */
  lemma SelectIsSubseq<T>(items: seq<T>, keep: (T, nat) -> bool)
    ensures IsSubseq(Select(items, keep), items)
  {
    var all := (x: T, i: nat) => true;
    SelectMonotone(items, keep, all, 0);
    SelectAll(items, all, 0);
  }

  /** Two complementary tests split the input between them. */
  lemma {:induction false} SelectComplement<T>(items: seq<T>, p: (T, nat) -> bool, q: (T, nat) -> bool,
                                               offset: nat)
    requires forall i | 0 <= i < |items| :: q(items[i], offset + i) == !p(items[i], offset + i)
    ensures |SelectFrom(items, p, offset)| + |SelectFrom(items, q, offset)| == |items|
    decreases |items|
  {
    if items != [] {
      assert forall i | 1 <= i < |items| :: items[1..][i - 1] == items[i];
      SelectComplement(items[1..], p, q, offset + 1);
    }
  }

  /** Selecting twice with tests that ignore the index is selecting once with
      their conjunction. */
  lemma {:induction false} SelectTwice<T>(items: seq<T>, p: (T, nat) -> bool, q: (T, nat) -> bool,
                                          pq: (T, nat) -> bool, offset: nat, offset': nat)
    requires forall x, i, j :: p(x, i) == p(x, j) && q(x, i) == q(x, j)
    requires forall x, i | x in items :: pq(x, i) == (p(x, i) && q(x, i))
    ensures SelectFrom(SelectFrom(items, p, offset), q, offset') == SelectFrom(items, pq, offset)
    decreases |items|
  {
    if items != [] {
      assert forall x | x in items[1..] :: x in items;
      var x := items[0];
      var rp := SelectFrom(items[1..], p, offset + 1);
      if p(x, offset) {
        assert ([x] + rp)[1..] == rp;
        assert q(x, offset') == q(x, offset);
        SelectTwice(items[1..], p, q, pq, offset + 1, offset' + 1);
      } else {
        assert SelectFrom(items, p, offset) == rp;
        assert SelectFrom(items, pq, offset) == SelectFrom(items[1..], pq, offset + 1);
        SelectTwice(items[1..], p, q, pq, offset + 1, offset');
      }
    }
  }

  /** The elements whose flag is set, in order. */
  function Chosen<T>(items: seq<T>, flags: seq<bool>): (r: seq<T>)
    requires |flags| == |items|
    ensures |r| <= |items|
    decreases |items|
  {
    if items == [] then []
    else (if flags[0] then [items[0]] else []) + Chosen(items[1..], flags[1..])
  }

  /** Once the decision on every element is known, the selection is the elements
      with a positive decision. */
  lemma {:induction false} SelectByDecisions<T>(items: seq<T>, keep: (T, nat) -> bool,
                                                offset: nat, flags: seq<bool>)
    requires |flags| == |items|
    requires forall i | 0 <= i < |items| :: keep(items[i], offset + i) == flags[i]
    ensures SelectFrom(items, keep, offset) == Chosen(items, flags)
    decreases |items|
  {
    if items != [] {
      assert forall i | 1 <= i < |items| :: items[1..][i - 1] == items[i] && flags[1..][i - 1] == flags[i];
      SelectByDecisions(items[1..], keep, offset + 1, flags[1..]);
    }
  }
}

/** The `filter` filter: `filter(items, expression, comparator)` returns the items
    the expression accepts, in their original order. */
module Filtering {
  import opened Values
  import opened Comparison
  import opened Matching
  import opened Selection

  /** A string, number or boolean used as a whole expression. */
  type Primitive = v: Value | v.Str? || v.Num? || v.Bool? witness Str("")

  /** The filter expression.
      - `Absent`: `undefined`; every item is kept.
      - `Predicate(f)`: a function, called with the item, its index and the items.
      - `Search(p)`: a string, number or boolean searched for in every item.
      - `Record(props)`: an object whose keys all have to match. */
  datatype Expression =
    | Absent
    | Predicate(f: (Value, nat, seq<Value>) -> bool)
    | Search(p: Primitive)
    | Record(props: seq<Prop>)

  /** Whether the item at `index` of `items` is kept. */
  predicate ItemMatches(expr: Expression, cmp: Comparator, item: Value, index: nat, items: seq<Value>) {
    match expr
    case Absent => true
    case Predicate(f) => f(item, index, items)
    case Search(p) => Match(item, p, cmp, true, false)
    case Record(props) => Match(item, Obj(props), cmp, false, false)
  }

  function Keeper(expr: Expression, cmp: Comparator, items: seq<Value>): (Value, nat) -> bool {
    (item: Value, index: nat) => ItemMatches(expr, cmp, item, index, items)
  }

  /** `filter(items, expr, cmp)`: the items the expression accepts, in their
      original order (a subsequence of `items`). */
  function Filter(items: seq<Value>, expr: Expression, cmp: Comparator): (r: seq<Value>)
    ensures IsSubseq(r, items)
  {
    var keep := Keeper(expr, cmp, items);
    SelectIsSubseq(items, keep);
    Select(items, keep)
  }

  /** Exactly the accepted items are kept: the result is `items` read at the
      accepted positions, in increasing order. */
  lemma FilterKeepsAccepted(items: seq<Value>, expr: Expression, cmp: Comparator)
    ensures var idx := KeptIndices(items, Keeper(expr, cmp, items));
      ReadAt(Filter(items, expr, cmp), idx, items, 0)
      && Increasing(idx)
      && (forall i | 0 <= i < |items| :: i in idx <==> ItemMatches(expr, cmp, items[i], i, items))
  {
    var keep := Keeper(expr, cmp, items);
    SelectAtKeptIndices(items, keep, 0);
    KeptIndicesExact(items, keep, 0);
    forall i | 0 <= i < |items|
      ensures i in KeptIndices(items, keep) <==> ItemMatches(expr, cmp, items[i], i, items)
    {
      assert 0 + i == i && keep(items[i], 0 + i) == ItemMatches(expr, cmp, items[i], i, items);
    }
  }

  /** The filter's result is fixed by its decision on each item: the items whose
      decision is positive, in their original order. */
  lemma FilterByDecisions(items: seq<Value>, expr: Expression, cmp: Comparator, flags: seq<bool>)
    requires |flags| == |items|
    requires forall i | 0 <= i < |items| :: ItemMatches(expr, cmp, items[i], i, items) == flags[i]
    ensures Filter(items, expr, cmp) == Chosen(items, flags)
  {
    SelectByDecisions(items, Keeper(expr, cmp, items), 0, flags);
  }

  /** Without an expression (`undefined`) every item is kept. */
  lemma FilterAbsent(items: seq<Value>, cmp: Comparator)
    ensures Filter(items, Absent, cmp) == items
  {
    SelectAll(items, Keeper(Absent, cmp, items), 0);
  }

  /** `'!text'` keeps exactly the items `'text'` drops: the two results split the
      input between them. */
  lemma FilterNegation(items: seq<Value>, s: string, cmp: Comparator)
    ensures forall i | 0 <= i < |items| ::
      ItemMatches(Search(Str("!" + s)), cmp, items[i], i, items) == !ItemMatches(Search(Str(s)), cmp, items[i], i, items)
    ensures |Filter(items, Search(Str("!" + s)), cmp)| + |Filter(items, Search(Str(s)), cmp)| == |items|
  {
    forall i | 0 <= i < |items|
      ensures ItemMatches(Search(Str("!" + s)), cmp, items[i], i, items) == !ItemMatches(Search(Str(s)), cmp, items[i], i, items)
    {
      NegationInverts(items[i], s, cmp, true, false);
    }
    SelectComplement(items, Keeper(Search(Str(s)), cmp, items), Keeper(Search(Str("!" + s)), cmp, items), 0);
  }

  /** An expression free of negation that can be searched for or matched as a
      record. */
  predicate Monotone(expr: Expression) {
    match expr
    case Search(p) => NegationFree(p)
    case Record(props) => NegationFree(Obj(props))
    case _ => false
  }

  /** Under a finer comparator the filter keeps a subsequence of what it keeps
      under a coarser one. */
  lemma FilterRefines(items: seq<Value>, expr: Expression, c1: Comparator, c2: Comparator)
    requires Refines(c1, c2) && Monotone(expr)
    ensures IsSubseq(Filter(items, expr, c1), Filter(items, expr, c2))
  {
    var p, q := Keeper(expr, c1, items), Keeper(expr, c2, items);
    forall i | 0 <= i < |items|
      ensures p(items[i], i) ==> q(items[i], i)
    {
      match expr
      case Search(e) => MatchMonotone(items[i], e, c1, c2, true, false);
      case Record(props) => MatchMonotone(items[i], Obj(props), c1, c2, false, false);
    }
    SelectMonotone(items, p, q, 0);
  }

  /** Comparator `true` keeps a subsequence of what the default comparator keeps. */
  lemma StrictWithinDefault(items: seq<Value>, expr: Expression)
    requires Monotone(expr)
    ensures IsSubseq(Filter(items, expr, Strict), Filter(items, expr, Default))
  {
    StrictRefinesDefault();
    FilterRefines(items, expr, Strict, Default);
  }

  /** On a list of objects, a record with two groups of keys filters like the
      first group followed by the second. */
  lemma FilterRecordConjunction(items: seq<Value>, e1: seq<Prop>, e2: seq<Prop>, cmp: Comparator)
    requires forall i | 0 <= i < |items| :: items[i].Obj?
    requires DisjointNames(e1, e2)
    ensures Filter(items, Record(e1 + e2), cmp) == Filter(Filter(items, Record(e1), cmp), Record(e2), cmp)
  {
    var first := Filter(items, Record(e1), cmp);
    var p, q, pq := Keeper(Record(e1), cmp, items), Keeper(Record(e2), cmp, first), Keeper(Record(e1 + e2), cmp, items);
    forall x, n | x in items
      ensures pq(x, n) == (p(x, n) && q(x, n))
    {
      RecordConjunction(x.props, e1, e2, cmp);
    }
    SelectTwice(items, p, q, pq, 0, 0);
  }

  /** A record with no constraining key keeps every object. */
  lemma FilterEmptyRecord(items: seq<Value>, props: seq<Prop>, cmp: Comparator)
    requires forall i | 0 <= i < |items| :: items[i].Obj?
    requires forall j | 0 <= j < |props| :: !Constrains(props[j].value)
    ensures Filter(items, Record(props), cmp) == items
  {
    forall i | 0 <= i < |items|
      ensures ItemMatches(Record(props), cmp, items[i], i, items)
    {
      EmptyRecordHoldsOfObjects(items[i].props, props, cmp);
    }
    SelectAll(items, Keeper(Record(props), cmp, items), 0);
  }

  /** The empty text keeps exactly the items a search can reach into, and so
      every item when each holds a value that is not an object. */
  lemma FilterEmptyText(items: seq<Value>)
    ensures forall i | 0 <= i < |items| :: ItemMatches(Search(Str("")), Default, items[i], i, items) == Searchable(items[i])
    ensures (forall i | 0 <= i < |items| :: Searchable(items[i])) ==> Filter(items, Search(Str("")), Default) == items
  {
    forall i | 0 <= i < |items|
      ensures ItemMatches(Search(Str("")), Default, items[i], i, items) == Searchable(items[i])
    {
      EmptyTextMatchesSearchable(items[i]);
    }
    if forall i | 0 <= i < |items| :: Searchable(items[i]) {
      SelectAll(items, Keeper(Search(Str("")), Default, items), 0);
    }
  }
}

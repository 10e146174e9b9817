/** Small facts the test replays are assembled from: a text found or missing, the
    search of a one- or two-property object, and the filter's result on a short
    list once its decision on each item is known. */
module ReplayKit {
  import opened Text
  import opened Values
  import opened Comparison
  import opened Matching
  import opened Selection
  import opened Filtering

  /** `e` occurs in `a` at position `i`, ignoring case. */
  lemma TextFound(a: string, e: string, i: nat)
    requires i + |e| <= |a|
    requires forall j | 0 <= j < |e| :: LowerChar(a[i + j]) == LowerChar(e[j])
    ensures Substring(Str(a), Str(e))
  {
    assert OccursAt(Lower(a), Lower(e), i) by {
      assert Lower(a)[i..i + |e|] == Lower(e);
    }
  }

  /** The same ASCII letter in the other case; any other character itself. */
  function OtherCase(c: char): char {
    if 'a' <= c <= 'z' then (c as int - 32) as char
    else if 'A' <= c <= 'Z' then (c as int + 32) as char
    else c
  }

  /** Character `k` of `e` does not occur in `a` in either case. */
  lemma TextMissing(a: string, e: string, k: nat)
    requires k < |e|
    requires e[k] !in a && OtherCase(e[k]) !in a
    ensures !Substring(Str(a), Str(e))
  {
    forall j | 0 <= j < |a|
      ensures Lower(a)[j] != Lower(e)[k]
    {
      assert a[j] != e[k] && a[j] != OtherCase(e[k]);
    }
    NotContainsChar(Lower(a), Lower(e), k);
  }

  /** Every text contains itself. */
  lemma TextSelf(a: string)
    ensures Substring(Str(a), Str(a))
  {
    ContainsSelf(Lower(a));
  }

  /** No two consecutive characters of `a` read, ignoring case, as characters `k`
      and `k + 1` of `e`. */
  lemma TextMissingPair(a: string, e: string, k: nat)
    requires k + 1 < |e|
    requires forall j | 0 <= j < |a| - 1 ::
      !(LowerChar(a[j]) == LowerChar(e[k]) && LowerChar(a[j + 1]) == LowerChar(e[k + 1]))
    ensures !Substring(Str(a), Str(e))
  {
    forall i | 0 <= i <= |a| - |e|
      ensures !OccursAt(Lower(a), Lower(e), i)
    {
      var j := i + k;
      assert Lower(a)[j] == LowerChar(a[j]) && Lower(a)[j + 1] == LowerChar(a[j + 1]);
      assert Lower(e)[k] == LowerChar(e[k]) && Lower(e)[k + 1] == LowerChar(e[k + 1]);
      assert Lower(a)[i..i + |e|][k] == Lower(a)[j];
      assert Lower(a)[i..i + |e|][k + 1] == Lower(a)[j + 1];
    }
  }

  /** A text search in an object of one property is a search in its value. */
  lemma SearchOne(n: string, v: Value, inh: bool, e: Value, cmp: Comparator)
    requires !cmp.Custom? && PlainLeaf(e) && !IsPrivate(n)
    ensures Match(Obj([Prop(n, v, inh)]), e, cmp, true, false) == Match(v, e, cmp, true, false)
  {
    SearchObject([Prop(n, v, inh)], e, cmp);
    assert FirstOfName([Prop(n, v, inh)], 0);
  }

  /** ... and in an object of two, a search in either value. */
  lemma SearchTwo(n1: string, v1: Value, n2: string, v2: Value, e: Value, cmp: Comparator)
    requires !cmp.Custom? && PlainLeaf(e) && !IsPrivate(n1) && !IsPrivate(n2) && n1 != n2
    ensures Match(Obj([Prop(n1, v1, false), Prop(n2, v2, false)]), e, cmp, true, false)
         == (Match(v1, e, cmp, true, false) || Match(v2, e, cmp, true, false))
  {
    var ps := [Prop(n1, v1, false), Prop(n2, v2, false)];
    SearchObject(ps, e, cmp);
    assert FirstOfName(ps, 0) && FirstOfName(ps, 1);
  }

  /** A one-key record whose key names property `j` of the object matches that
      property's value. */
  lemma KeyAt(ps: seq<Prop>, j: nat, e: Value, inh: bool, cmp: Comparator)
    requires j < |ps| && FirstOfName(ps, j) && ps[j].name != "$" && Constrains(e)
    ensures Match(Obj(ps), Obj([Prop(ps[j].name, e, inh)]), cmp, false, false) == Match(ps[j].value, e, cmp, false, false)
  {
    SingleKey(ps, ps[j].name, e, inh, cmp);
  }

  /** A one-key record whose key names no property matches `undefined`. */
  lemma KeyMissing(ps: seq<Prop>, key: string, e: Value, inh: bool, cmp: Comparator)
    requires key != "$" && Constrains(e)
    requires forall j | 0 <= j < |ps| :: ps[j].name != key
    ensures Match(Obj(ps), Obj([Prop(key, e, inh)]), cmp, false, false) == Match(Undefined, e, cmp, false, false)
  {
    SingleKey(ps, key, e, inh, cmp);
  }

  /** A two-key record is the conjunction of its two one-key records. */
  lemma TwoKeys(ps: seq<Prop>, p1: Prop, p2: Prop, cmp: Comparator)
    requires p1.name != p2.name
    ensures Match(Obj(ps), Obj([p1, p2]), cmp, false, false)
         == (Match(Obj(ps), Obj([p1]), cmp, false, false) && Match(Obj(ps), Obj([p2]), cmp, false, false))
  {
    assert [p1] + [p2] == [p1, p2];
    RecordConjunction(ps, [p1], [p2], cmp);
  }

  /** The default comparator compares the texts of two values that are not
      objects. */
  lemma AsText(a: Value, e: Value)
    requires !IsObject(a) && !IsObject(e) && !a.Undefined?
    ensures Substring(a, e) == Substring(Str(TextOf(a)), Str(TextOf(e)))
  {
  }

  /** `{$: v}` on an object of two, three or four properties whose names are
      distinct and do not start with `$`: a search of `v` in any of the values. */
  lemma DollarTwo(p1: Prop, p2: Prop, v: Value, cmp: Comparator)
    requires Constrains(v) && (v.Str? ==> LeadingBangs(v.s) == 0)
    requires p1.name != p2.name && !IsPrivate(p1.name) && !IsPrivate(p2.name)
    ensures Match(Obj([p1, p2]), Obj([Prop("$", v, false)]), cmp, false, false)
         == (Match(p1.value, v, cmp, true, false) || Match(p2.value, v, cmp, true, false))
  {
    var ps := [p1, p2];
    DollarSearchesProperties(ps, v, false, cmp);
    assert FirstOfName(ps, 0) && FirstOfName(ps, 1);
  }

  lemma DollarThree(p1: Prop, p2: Prop, p3: Prop, v: Value, cmp: Comparator)
    requires Constrains(v) && (v.Str? ==> LeadingBangs(v.s) == 0)
    requires p1.name != p2.name && p1.name != p3.name && p2.name != p3.name
    requires !IsPrivate(p1.name) && !IsPrivate(p2.name) && !IsPrivate(p3.name)
    ensures Match(Obj([p1, p2, p3]), Obj([Prop("$", v, false)]), cmp, false, false)
         == (Match(p1.value, v, cmp, true, false) || Match(p2.value, v, cmp, true, false)
             || Match(p3.value, v, cmp, true, false))
  {
    var ps := [p1, p2, p3];
    DollarSearchesProperties(ps, v, false, cmp);
    assert FirstOfName(ps, 0) && FirstOfName(ps, 1) && FirstOfName(ps, 2);
  }

  lemma DollarFour(p1: Prop, p2: Prop, p3: Prop, p4: Prop, v: Value, cmp: Comparator)
    requires Constrains(v) && (v.Str? ==> LeadingBangs(v.s) == 0)
    requires p1.name != p2.name && p1.name != p3.name && p1.name != p4.name
    requires p2.name != p3.name && p2.name != p4.name && p3.name != p4.name
    requires !IsPrivate(p1.name) && !IsPrivate(p2.name) && !IsPrivate(p3.name) && !IsPrivate(p4.name)
    ensures Match(Obj([p1, p2, p3, p4]), Obj([Prop("$", v, false)]), cmp, false, false)
         == (Match(p1.value, v, cmp, true, false) || Match(p2.value, v, cmp, true, false)
             || Match(p3.value, v, cmp, true, false) || Match(p4.value, v, cmp, true, false))
  {
    var ps := [p1, p2, p3, p4];
    DollarSearchesProperties(ps, v, false, cmp);
    assert FirstOfName(ps, 0) && FirstOfName(ps, 1) && FirstOfName(ps, 2) && FirstOfName(ps, 3);
  }

  // The filter's result on a list of one to five items from its decision on
  // each: plain, for a text search, and for a record.

  lemma ChosenOfOne(a: Value, fa: bool)
    ensures Chosen([a], [fa]) == (if fa then [a] else [])
  {
    assert [a][1..] == [] && [fa][1..] == [];
  }

  lemma FilterOfOne(a: Value, expr: Expression, cmp: Comparator, fa: bool)
    requires ItemMatches(expr, cmp, a, 0, [a]) == fa
    ensures Filter([a], expr, cmp) == (if fa then [a] else [])
  {
    FilterByDecisions([a], expr, cmp, [fa]);
    ChosenOfOne(a, fa);
  }

  lemma ChosenOfTwo(a: Value, b: Value, fa: bool, fb: bool)
    ensures Chosen([a, b], [fa, fb]) == (if fa then [a] else []) + (if fb then [b] else [])
  {
    assert [a, b][1..] == [b] && [fa, fb][1..] == [fb];
    assert [b][1..] == [] && [fb][1..] == [];
  }

  lemma FilterOfTwo(a: Value, b: Value, expr: Expression, cmp: Comparator, fa: bool, fb: bool)
    requires ItemMatches(expr, cmp, a, 0, [a, b]) == fa
    requires ItemMatches(expr, cmp, b, 1, [a, b]) == fb
    ensures Filter([a, b], expr, cmp) == (if fa then [a] else []) + (if fb then [b] else [])
  {
    var items, flags := [a, b], [fa, fb];
    forall i | 0 <= i < 2
      ensures ItemMatches(expr, cmp, items[i], i, items) == flags[i]
    {
      if i == 0 { assert items[i] == a && flags[i] == fa; } else { assert items[i] == b && flags[i] == fb; }
    }
    FilterByDecisions(items, expr, cmp, flags);
    ChosenOfTwo(a, b, fa, fb);
  }

  lemma ChosenOfThree(a: Value, b: Value, c: Value, fa: bool, fb: bool, fc: bool)
    ensures Chosen([a, b, c], [fa, fb, fc]) == (if fa then [a] else []) + ((if fb then [b] else []) + (if fc then [c] else []))
  {
    assert [a, b, c][1..] == [b, c] && [fa, fb, fc][1..] == [fb, fc];
    ChosenOfTwo(b, c, fb, fc);
  }

  lemma FilterOfThree(a: Value, b: Value, c: Value, expr: Expression, cmp: Comparator, fa: bool, fb: bool, fc: bool)
    requires ItemMatches(expr, cmp, a, 0, [a, b, c]) == fa
    requires ItemMatches(expr, cmp, b, 1, [a, b, c]) == fb
    requires ItemMatches(expr, cmp, c, 2, [a, b, c]) == fc
    ensures Filter([a, b, c], expr, cmp) == (if fa then [a] else []) + ((if fb then [b] else []) + (if fc then [c] else []))
  {
    var items, flags := [a, b, c], [fa, fb, fc];
    forall i | 0 <= i < 3
      ensures ItemMatches(expr, cmp, items[i], i, items) == flags[i]
    {
      if i == 0 { assert items[i] == a && flags[i] == fa; } else if i == 1 { assert items[i] == b && flags[i] == fb; } else { assert items[i] == c && flags[i] == fc; }
    }
    FilterByDecisions(items, expr, cmp, flags);
    ChosenOfThree(a, b, c, fa, fb, fc);
  }

  lemma ChosenOfFour(a: Value, b: Value, c: Value, d: Value, fa: bool, fb: bool, fc: bool, fd: bool)
    ensures Chosen([a, b, c, d], [fa, fb, fc, fd]) == (if fa then [a] else []) + ((if fb then [b] else []) + ((if fc then [c] else []) + (if fd then [d] else [])))
  {
    assert [a, b, c, d][1..] == [b, c, d] && [fa, fb, fc, fd][1..] == [fb, fc, fd];
    ChosenOfThree(b, c, d, fb, fc, fd);
  }

  lemma FilterOfFour(a: Value, b: Value, c: Value, d: Value, expr: Expression, cmp: Comparator, fa: bool, fb: bool, fc: bool, fd: bool)
    requires ItemMatches(expr, cmp, a, 0, [a, b, c, d]) == fa
    requires ItemMatches(expr, cmp, b, 1, [a, b, c, d]) == fb
    requires ItemMatches(expr, cmp, c, 2, [a, b, c, d]) == fc
    requires ItemMatches(expr, cmp, d, 3, [a, b, c, d]) == fd
    ensures Filter([a, b, c, d], expr, cmp) == (if fa then [a] else []) + ((if fb then [b] else []) + ((if fc then [c] else []) + (if fd then [d] else [])))
  {
    var items, flags := [a, b, c, d], [fa, fb, fc, fd];
    forall i | 0 <= i < 4
      ensures ItemMatches(expr, cmp, items[i], i, items) == flags[i]
    {
      if i == 0 { assert items[i] == a && flags[i] == fa; } else if i == 1 { assert items[i] == b && flags[i] == fb; } else if i == 2 { assert items[i] == c && flags[i] == fc; } else { assert items[i] == d && flags[i] == fd; }
    }
    FilterByDecisions(items, expr, cmp, flags);
    ChosenOfFour(a, b, c, d, fa, fb, fc, fd);
  }

  lemma ChosenOfFive(a: Value, b: Value, c: Value, d: Value, e: Value, fa: bool, fb: bool, fc: bool, fd: bool, fe: bool)
    ensures Chosen([a, b, c, d, e], [fa, fb, fc, fd, fe]) == (if fa then [a] else []) + ((if fb then [b] else []) + ((if fc then [c] else []) + ((if fd then [d] else []) + (if fe then [e] else []))))
  {
    assert [a, b, c, d, e][1..] == [b, c, d, e] && [fa, fb, fc, fd, fe][1..] == [fb, fc, fd, fe];
    ChosenOfFour(b, c, d, e, fb, fc, fd, fe);
  }

  lemma FilterOfFive(a: Value, b: Value, c: Value, d: Value, e: Value, expr: Expression, cmp: Comparator, fa: bool, fb: bool, fc: bool, fd: bool, fe: bool)
    requires ItemMatches(expr, cmp, a, 0, [a, b, c, d, e]) == fa
    requires ItemMatches(expr, cmp, b, 1, [a, b, c, d, e]) == fb
    requires ItemMatches(expr, cmp, c, 2, [a, b, c, d, e]) == fc
    requires ItemMatches(expr, cmp, d, 3, [a, b, c, d, e]) == fd
    requires ItemMatches(expr, cmp, e, 4, [a, b, c, d, e]) == fe
    ensures Filter([a, b, c, d, e], expr, cmp) == (if fa then [a] else []) + ((if fb then [b] else []) + ((if fc then [c] else []) + ((if fd then [d] else []) + (if fe then [e] else []))))
  {
    var items, flags := [a, b, c, d, e], [fa, fb, fc, fd, fe];
    assert items[0] == a && items[1] == b && items[2] == c && items[3] == d && items[4] == e;
    assert flags[0] == fa && flags[1] == fb && flags[2] == fc && flags[3] == fd && flags[4] == fe;
    forall i | 0 <= i < 5
      ensures ItemMatches(expr, cmp, items[i], i, items) == flags[i]
    {
      assert i == 0 || i == 1 || i == 2 || i == 3 || i == 4;
    }
    FilterByDecisions(items, expr, cmp, flags);
    ChosenOfFive(a, b, c, d, e, fa, fb, fc, fd, fe);
  }


  lemma SearchDecision(a: Value, p: Primitive, cmp: Comparator, i: nat, items: seq<Value>)
    ensures ItemMatches(Search(p), cmp, a, i, items) == Match(a, p, cmp, true, false)
  {
  }

  lemma RecordDecision(a: Value, ps: seq<Prop>, cmp: Comparator, i: nat, items: seq<Value>)
    ensures ItemMatches(Record(ps), cmp, a, i, items) == Match(a, Obj(ps), cmp, false, false)
  {
  }

  lemma SearchOfOne(a: Value, p: Primitive, cmp: Comparator, fa: bool)
    requires Match(a, p, cmp, true, false) == fa
    ensures Filter([a], Search(p), cmp) == (if fa then [a] else [])
  {
    SearchDecision(a, p, cmp, 0, [a]);
    FilterOfOne(a, Search(p), cmp, fa);
  }

  lemma SearchOfTwo(a: Value, b: Value, p: Primitive, cmp: Comparator, fa: bool, fb: bool)
    requires Match(a, p, cmp, true, false) == fa
    requires Match(b, p, cmp, true, false) == fb
    ensures Filter([a, b], Search(p), cmp) == (if fa then [a] else []) + (if fb then [b] else [])
  {
    SearchDecision(a, p, cmp, 0, [a, b]);
    SearchDecision(b, p, cmp, 1, [a, b]);
    FilterOfTwo(a, b, Search(p), cmp, fa, fb);
  }

  lemma SearchOfThree(a: Value, b: Value, c: Value, p: Primitive, cmp: Comparator, fa: bool, fb: bool, fc: bool)
    requires Match(a, p, cmp, true, false) == fa
    requires Match(b, p, cmp, true, false) == fb
    requires Match(c, p, cmp, true, false) == fc
    ensures Filter([a, b, c], Search(p), cmp) == (if fa then [a] else []) + ((if fb then [b] else []) + (if fc then [c] else []))
  {
    SearchDecision(a, p, cmp, 0, [a, b, c]);
    SearchDecision(b, p, cmp, 1, [a, b, c]);
    SearchDecision(c, p, cmp, 2, [a, b, c]);
    FilterOfThree(a, b, c, Search(p), cmp, fa, fb, fc);
  }

  lemma SearchOfFour(a: Value, b: Value, c: Value, d: Value, p: Primitive, cmp: Comparator, fa: bool, fb: bool, fc: bool, fd: bool)
    requires Match(a, p, cmp, true, false) == fa
    requires Match(b, p, cmp, true, false) == fb
    requires Match(c, p, cmp, true, false) == fc
    requires Match(d, p, cmp, true, false) == fd
    ensures Filter([a, b, c, d], Search(p), cmp) == (if fa then [a] else []) + ((if fb then [b] else []) + ((if fc then [c] else []) + (if fd then [d] else [])))
  {
    SearchDecision(a, p, cmp, 0, [a, b, c, d]);
    SearchDecision(b, p, cmp, 1, [a, b, c, d]);
    SearchDecision(c, p, cmp, 2, [a, b, c, d]);
    SearchDecision(d, p, cmp, 3, [a, b, c, d]);
    FilterOfFour(a, b, c, d, Search(p), cmp, fa, fb, fc, fd);
  }

  lemma SearchOfFive(a: Value, b: Value, c: Value, d: Value, e: Value, p: Primitive, cmp: Comparator, fa: bool, fb: bool, fc: bool, fd: bool, fe: bool)
    requires Match(a, p, cmp, true, false) == fa
    requires Match(b, p, cmp, true, false) == fb
    requires Match(c, p, cmp, true, false) == fc
    requires Match(d, p, cmp, true, false) == fd
    requires Match(e, p, cmp, true, false) == fe
    ensures Filter([a, b, c, d, e], Search(p), cmp) == (if fa then [a] else []) + ((if fb then [b] else []) + ((if fc then [c] else []) + ((if fd then [d] else []) + (if fe then [e] else []))))
  {
    SearchDecision(a, p, cmp, 0, [a, b, c, d, e]);
    SearchDecision(b, p, cmp, 1, [a, b, c, d, e]);
    SearchDecision(c, p, cmp, 2, [a, b, c, d, e]);
    SearchDecision(d, p, cmp, 3, [a, b, c, d, e]);
    SearchDecision(e, p, cmp, 4, [a, b, c, d, e]);
    FilterOfFive(a, b, c, d, e, Search(p), cmp, fa, fb, fc, fd, fe);
  }

  lemma RecordOfOne(a: Value, ps: seq<Prop>, cmp: Comparator, fa: bool)
    requires Match(a, Obj(ps), cmp, false, false) == fa
    ensures Filter([a], Record(ps), cmp) == (if fa then [a] else [])
  {
    RecordDecision(a, ps, cmp, 0, [a]);
    FilterOfOne(a, Record(ps), cmp, fa);
  }

  lemma RecordOfTwo(a: Value, b: Value, ps: seq<Prop>, cmp: Comparator, fa: bool, fb: bool)
    requires Match(a, Obj(ps), cmp, false, false) == fa
    requires Match(b, Obj(ps), cmp, false, false) == fb
    ensures Filter([a, b], Record(ps), cmp) == (if fa then [a] else []) + (if fb then [b] else [])
  {
    RecordDecision(a, ps, cmp, 0, [a, b]);
    RecordDecision(b, ps, cmp, 1, [a, b]);
    FilterOfTwo(a, b, Record(ps), cmp, fa, fb);
  }

  lemma RecordOfThree(a: Value, b: Value, c: Value, ps: seq<Prop>, cmp: Comparator, fa: bool, fb: bool, fc: bool)
    requires Match(a, Obj(ps), cmp, false, false) == fa
    requires Match(b, Obj(ps), cmp, false, false) == fb
    requires Match(c, Obj(ps), cmp, false, false) == fc
    ensures Filter([a, b, c], Record(ps), cmp) == (if fa then [a] else []) + ((if fb then [b] else []) + (if fc then [c] else []))
  {
    RecordDecision(a, ps, cmp, 0, [a, b, c]);
    RecordDecision(b, ps, cmp, 1, [a, b, c]);
    RecordDecision(c, ps, cmp, 2, [a, b, c]);
    FilterOfThree(a, b, c, Record(ps), cmp, fa, fb, fc);
  }

  lemma RecordOfFour(a: Value, b: Value, c: Value, d: Value, ps: seq<Prop>, cmp: Comparator, fa: bool, fb: bool, fc: bool, fd: bool)
    requires Match(a, Obj(ps), cmp, false, false) == fa
    requires Match(b, Obj(ps), cmp, false, false) == fb
    requires Match(c, Obj(ps), cmp, false, false) == fc
    requires Match(d, Obj(ps), cmp, false, false) == fd
    ensures Filter([a, b, c, d], Record(ps), cmp) == (if fa then [a] else []) + ((if fb then [b] else []) + ((if fc then [c] else []) + (if fd then [d] else [])))
  {
    RecordDecision(a, ps, cmp, 0, [a, b, c, d]);
    RecordDecision(b, ps, cmp, 1, [a, b, c, d]);
    RecordDecision(c, ps, cmp, 2, [a, b, c, d]);
    RecordDecision(d, ps, cmp, 3, [a, b, c, d]);
    FilterOfFour(a, b, c, d, Record(ps), cmp, fa, fb, fc, fd);
  }

  lemma RecordOfFive(a: Value, b: Value, c: Value, d: Value, e: Value, ps: seq<Prop>, cmp: Comparator, fa: bool, fb: bool, fc: bool, fd: bool, fe: bool)
    requires Match(a, Obj(ps), cmp, false, false) == fa
    requires Match(b, Obj(ps), cmp, false, false) == fb
    requires Match(c, Obj(ps), cmp, false, false) == fc
    requires Match(d, Obj(ps), cmp, false, false) == fd
    requires Match(e, Obj(ps), cmp, false, false) == fe
    ensures Filter([a, b, c, d, e], Record(ps), cmp) == (if fa then [a] else []) + ((if fb then [b] else []) + ((if fc then [c] else []) + ((if fd then [d] else []) + (if fe then [e] else []))))
  {
    RecordDecision(a, ps, cmp, 0, [a, b, c, d, e]);
    RecordDecision(b, ps, cmp, 1, [a, b, c, d, e]);
    RecordDecision(c, ps, cmp, 2, [a, b, c, d, e]);
    RecordDecision(d, ps, cmp, 3, [a, b, c, d, e]);
    RecordDecision(e, ps, cmp, 4, [a, b, c, d, e]);
    FilterOfFive(a, b, c, d, e, Record(ps), cmp, fa, fb, fc, fd, fe);
  }

}

/** The recursive structural match between an actual value (an item, or a value
    found inside one) and an expected value (the filter expression, or a part
    of it). */
module Matching {
  import opened Text
  import opened Values
  import opened Comparison

  /** Number of `!` marks a text starts with. */
  function LeadingBangs(s: string): (k: nat)
    ensures k <= |s|
    ensures forall i | 0 <= i < k :: s[i] == '!'
    ensures k < |s| ==> s[k] != '!'
    decreases |s|
  {
    if |s| > 0 && s[0] == '!' then 1 + LeadingBangs(s[1..]) else 0
  }

  /** The expected value with its first `k` characters dropped when it is a text. */
  function Stripped(e: Value, k: nat): Value {
    if e.Str? && k <= |e.s| then Str(e.s[k..]) else e
  }

  /** An entry of a record expression takes part in the match unless its value is
      a function or `undefined`. */
  predicate Constrains(v: Value) {
    !v.Func? && !v.Undefined?
  }

  /** Whether `actual` matches `expected`.

      `anyProp` asks for a search of every property of an object, at any depth
      (the mode of a text expression and of a `$` key); `wholeOff` forbids falling
      back to comparing the searched object as a whole (set for a `$` key).

      A text that starts with `!` is matched without the mark and the outcome is
      inverted; each further leading `!` inverts once more, and the inner match
      never forbids the fallback. */
  predicate Match(actual: Value, expected: Value, cmp: Comparator, anyProp: bool, wholeOff: bool)
    decreases expected, actual, 1, 0
  {
    var k := if expected.Str? then LeadingBangs(expected.s) else 0;
    if k == 0 then Core(actual, expected, 0, cmp, anyProp, wholeOff)
    else
      var r := Core(actual, expected, k, cmp, anyProp, false);
      if k % 2 == 1 then !r else r
  }

  /** The match once `k` leading `!` marks of a text expectation are set aside
      (the expectation compared at the leaves is `Stripped(expected, k)`).

      - An array matches when one of its elements does.
      - An object searched in `anyProp` mode matches when one of its visible
        properties whose name does not start with `$` matches, searched in the
        same mode, or else (unless `wholeOff`) when the object as a whole does.
      - An object against a record expression matches when every constraining
        key matches: a `$` key matches its value against any property of this
        object (at this level or deeper); any other key, a dotted one included,
        matches its value against the property of exactly that name.
      - A function never matches; anything else is a leaf comparison. */
  predicate Core(actual: Value, expected: Value, k: nat, cmp: Comparator, anyProp: bool, wholeOff: bool)
    decreases expected, actual, 0, if anyProp then 1 else 0
  {
    match actual
    case Arr(vs) =>
      exists i | 0 <= i < |vs| :: Core(vs[i], expected, k, cmp, anyProp, false)
    case Obj(ps) =>
      if anyProp then
        (exists i | 0 <= i < |ps| && FirstOfName(ps, i) && !IsPrivate(ps[i].name) ::
           Core(ps[i].value, expected, k, cmp, true, false))
        || (!wholeOff && Core(actual, expected, k, cmp, false, false))
      else if expected.Obj? then
        forall j | 0 <= j < |expected.props| && FirstOfName(expected.props, j)
                   && Constrains(expected.props[j].value) ::
          if expected.props[j].name == "$" then
            Match(actual, expected.props[j].value, cmp, true, true)
          else
            Match(Lookup(ps, expected.props[j].name), expected.props[j].value, cmp, false, false)
      else
        CompareLeaf(cmp, actual, Stripped(expected, k))
    case Func => false
    case _ => CompareLeaf(cmp, actual, Stripped(expected, k))
  }

  // ---------------------------------------------------------------------------
  // Negation

  /** With the marks set aside, only the text that is left matters. */
  lemma {:induction false} CoreOnStripped(a: Value, e1: Value, k1: nat, e2: Value, k2: nat,
                                          cmp: Comparator, anyProp: bool, wholeOff: bool)
    requires e1.Str? && e2.Str? && k1 <= |e1.s| && k2 <= |e2.s| && e1.s[k1..] == e2.s[k2..]
    ensures Core(a, e1, k1, cmp, anyProp, wholeOff) == Core(a, e2, k2, cmp, anyProp, wholeOff)
    decreases a, if anyProp then 1 else 0
  {
    match a
    case Arr(vs) =>
      forall i | 0 <= i < |vs|
        ensures Core(vs[i], e1, k1, cmp, anyProp, false) == Core(vs[i], e2, k2, cmp, anyProp, false)
      {
        CoreOnStripped(vs[i], e1, k1, e2, k2, cmp, anyProp, false);
      }
    case Obj(ps) =>
      if anyProp {
        forall i | 0 <= i < |ps|
          ensures Core(ps[i].value, e1, k1, cmp, true, false) == Core(ps[i].value, e2, k2, cmp, true, false)
        {
          CoreOnStripped(ps[i].value, e1, k1, e2, k2, cmp, true, false);
        }
        CoreOnStripped(a, e1, k1, e2, k2, cmp, false, false);
      }
    case _ =>
  }

  /** A leading `!` inverts the match of the rest of the text (which is then
      matched without forbidding the whole-object fallback). */
  lemma NegationInverts(a: Value, s: string, cmp: Comparator, anyProp: bool, wholeOff: bool)
    ensures Match(a, Str("!" + s), cmp, anyProp, wholeOff) == !Match(a, Str(s), cmp, anyProp, false)
  {
    var t := "!" + s;
    var k := LeadingBangs(s);
    BangPrefix(s);
    MatchText(a, t, cmp, anyProp, wholeOff);
    MatchText(a, s, cmp, anyProp, false);
    CoreOnStripped(a, Str(t), k + 1, Str(s), k, cmp, anyProp, false);
    Flip(k, Core(a, Str(s), k, cmp, anyProp, false),
         Match(a, Str(t), cmp, anyProp, wholeOff), Match(a, Str(s), cmp, anyProp, false));
  }

  /** One more mark flips the outcome. */
  lemma Flip(k: nat, r: bool, m: bool, m': bool)
    requires m == (r != ((k + 1) % 2 == 1))
    requires m' == (r != (k % 2 == 1))
    ensures m == !m'
  {
  }

  /** How a text expectation is matched: through `Core` with its leading marks set
      aside, inverted once per mark. */
  lemma MatchText(a: Value, s: string, cmp: Comparator, anyProp: bool, wholeOff: bool)
    ensures var k := LeadingBangs(s);
      Match(a, Str(s), cmp, anyProp, wholeOff)
      == if k == 0 then Core(a, Str(s), 0, cmp, anyProp, wholeOff)
         else Core(a, Str(s), k, cmp, anyProp, false) != (k % 2 == 1)
  {
  }

  /** Two leading `!` marks cancel: the text matches as the rest of it does, with
      the whole-object fallback allowed as in any negated match. */
  lemma DoubleNegationCancels(a: Value, s: string, cmp: Comparator, anyProp: bool, wholeOff: bool)
    ensures Match(a, Str("!!" + s), cmp, anyProp, wholeOff) == Match(a, Str(s), cmp, anyProp, false)
  {
    var t := "!" + s;
    TwoBangs(s, t);
    NegationInverts(a, t, cmp, anyProp, wholeOff);
    NegationInverts(a, s, cmp, anyProp, false);
  }

  lemma TwoBangs(s: string, t: string)
    requires t == "!" + s
    ensures "!!" + s == "!" + t
  {
    assert ("!!" + s)[1..] == t;
  }

  lemma BangPrefix(s: string)
    ensures LeadingBangs("!" + s) == LeadingBangs(s) + 1
    ensures ("!" + s)[LeadingBangs(s) + 1..] == s[LeadingBangs(s)..]
  {
    assert ("!" + s)[1..] == s;
  }

  // ---------------------------------------------------------------------------
  // Comparator refinement

  /** Every leaf comparison `c1` accepts, `c2` accepts too. */
  ghost predicate Refines(c1: Comparator, c2: Comparator) {
    forall a, e | e != Undefined :: CompareLeaf(c1, a, e) ==> CompareLeaf(c2, a, e)
  }

  /** No text in the expression starts with `!`. */
  predicate NegationFree(e: Value) {
    match e
    case Str(s) => LeadingBangs(s) == 0
    case Obj(ps) => forall j | 0 <= j < |ps| :: NegationFree(ps[j].value)
    case _ => true
  }

  /** Strict equality refines the default comparator. */
  lemma StrictRefinesDefault()
    ensures Refines(Strict, Default)
  {
    forall a, e | e != Undefined
      ensures CompareLeaf(Strict, a, e) ==> CompareLeaf(Default, a, e)
    {
      StrictImpliesSubstring(a, e);
    }
  }

  /** Without negation, a match under a finer comparator is a match under a
      coarser one. */
  lemma {:induction false} MatchMonotone(a: Value, e: Value, c1: Comparator, c2: Comparator,
                                         anyProp: bool, wholeOff: bool)
    requires Refines(c1, c2) && NegationFree(e) && e != Undefined
    ensures Match(a, e, c1, anyProp, wholeOff) ==> Match(a, e, c2, anyProp, wholeOff)
    decreases e, a, 1, 0, 0
  {
    CoreMonotone(a, e, c1, c2, anyProp, wholeOff);
  }

  lemma {:induction false} CoreMonotone(a: Value, e: Value, c1: Comparator, c2: Comparator,
                                        anyProp: bool, wholeOff: bool)
    requires Refines(c1, c2) && NegationFree(e) && e != Undefined
    ensures Core(a, e, 0, c1, anyProp, wholeOff) ==> Core(a, e, 0, c2, anyProp, wholeOff)
    decreases e, a, 0, if anyProp then 1 else 0, 1
  {
    match a
    case Arr(vs) =>
      forall i | 0 <= i < |vs|
        ensures Core(vs[i], e, 0, c1, anyProp, false) ==> Core(vs[i], e, 0, c2, anyProp, false)
      {
        CoreMonotone(vs[i], e, c1, c2, anyProp, false);
      }
    case Obj(ps) =>
      if anyProp {
        SearchMonotone(ps, e, c1, c2, wholeOff);
      } else if e.Obj? {
        RecordMonotone(ps, e, c1, c2, wholeOff);
      } else {
        assert Stripped(e, 0) == e;
      }
    case Func =>
    case _ =>
      assert Stripped(e, 0) == e;
  }

  /** The search of an object's properties, for `CoreMonotone`. */
  lemma {:induction false} SearchMonotone(ps: seq<Prop>, e: Value, c1: Comparator, c2: Comparator, wholeOff: bool)
    requires Refines(c1, c2) && NegationFree(e) && e != Undefined
    ensures Core(Obj(ps), e, 0, c1, true, wholeOff) ==> Core(Obj(ps), e, 0, c2, true, wholeOff)
    decreases e, Obj(ps), 0, 1, 0
  {
    forall i | 0 <= i < |ps|
      ensures Core(ps[i].value, e, 0, c1, true, false) ==> Core(ps[i].value, e, 0, c2, true, false)
    {
      CoreMonotone(ps[i].value, e, c1, c2, true, false);
    }
    CoreMonotone(Obj(ps), e, c1, c2, false, false);
  }

  /** The keys of a record expression, for `CoreMonotone`. */
  lemma {:induction false} RecordMonotone(ps: seq<Prop>, e: Value, c1: Comparator, c2: Comparator, wholeOff: bool)
    requires Refines(c1, c2) && NegationFree(e) && e != Undefined && e.Obj?
    ensures Core(Obj(ps), e, 0, c1, false, wholeOff) ==> Core(Obj(ps), e, 0, c2, false, wholeOff)
    decreases e, Obj(ps), 0, 0, 0
  {
    var eps := e.props;
    forall j | 0 <= j < |eps| && FirstOfName(eps, j) && Constrains(eps[j].value)
      ensures (if eps[j].name == "$" then Match(Obj(ps), eps[j].value, c1, true, true)
               else Match(Lookup(ps, eps[j].name), eps[j].value, c1, false, false))
          ==> (if eps[j].name == "$" then Match(Obj(ps), eps[j].value, c2, true, true)
               else Match(Lookup(ps, eps[j].name), eps[j].value, c2, false, false))
    {
      if eps[j].name == "$" {
        MatchMonotone(Obj(ps), eps[j].value, c1, c2, true, true);
      } else {
        MatchMonotone(Lookup(ps, eps[j].name), eps[j].value, c1, c2, false, false);
      }
    }
  }

  // ---------------------------------------------------------------------------
  // Text search

  /** A value holds something a text search can reach: a value that is not an
      object, or (through visible properties whose names do not start with `$`,
      and through array elements) an object that holds one. */
  predicate Searchable(v: Value) {
    match v
    case Obj(ps) =>
      exists i | 0 <= i < |ps| && FirstOfName(ps, i) && !IsPrivate(ps[i].name) :: Searchable(ps[i].value)
    case Arr(vs) => exists i | 0 <= i < |vs| :: Searchable(vs[i])
    case Func => false
    case _ => true
  }

  /** Searched for as a whole expression, the empty text keeps exactly the values
      a search can reach into. */
  lemma {:induction false} EmptyTextMatchesSearchable(a: Value)
    ensures Match(a, Str(""), Default, true, false) <==> Searchable(a)
  {
    match a
    case Arr(vs) =>
      forall i | 0 <= i < |vs|
        ensures Match(vs[i], Str(""), Default, true, false) <==> Searchable(vs[i])
      {
        EmptyTextMatchesSearchable(vs[i]);
      }
    case Obj(ps) =>
      forall i | 0 <= i < |ps|
        ensures Match(ps[i].value, Str(""), Default, true, false) <==> Searchable(ps[i].value)
      {
        EmptyTextMatchesSearchable(ps[i].value);
      }
      assert !Core(a, Str(""), 0, Default, false, false);
    case Func =>
    case _ =>
      EmptyTextMatchesLeaves(a);
  }

  // ---------------------------------------------------------------------------
  // Leaves

  /** A text without a leading `!`, a number or a boolean. */
  predicate PlainLeaf(e: Value) {
    !IsObject(e) && (e.Str? ==> LeadingBangs(e.s) == 0)
  }

  /** On a value that is neither an object nor a function, the match is the
      comparator's verdict on that value and the expectation, in every mode. */
  lemma LeafComparison(a: Value, e: Value, cmp: Comparator, anyProp: bool, wholeOff: bool)
    requires !IsObject(a) && !a.Func? && PlainLeaf(e)
    ensures Match(a, e, cmp, anyProp, wholeOff) == CompareLeaf(cmp, a, e)
  {
    assert Stripped(e, 0) == e;
  }

  /** A function found in an item matches no record and no text without a
      leading `!` (a `!` inverts that verdict). */
  lemma FunctionNeverMatches(e: Value, cmp: Comparator, anyProp: bool, wholeOff: bool)
    requires PlainLeaf(e) || e.Obj?
    ensures !Match(Func, e, cmp, anyProp, wholeOff)
  {
  }

  /** Under one `!`, a function matches any text that has no mark of its own. */
  lemma NegatedTextMatchesFunction(s: string, cmp: Comparator, anyProp: bool, wholeOff: bool)
    requires LeadingBangs(s) == 0
    ensures Match(Func, Str("!" + s), cmp, anyProp, wholeOff)
  {
    NegationInverts(Func, s, cmp, anyProp, wholeOff);
    FunctionNeverMatches(Str(s), cmp, anyProp, false);
  }

  /** A text, number or boolean searched for in an object (with a built-in
      comparator) is looked for in its visible properties whose names do not
      start with `$`, at any depth; the object itself, whose text would be
      `[object Object]`, never matches. */
  lemma SearchObject(ps: seq<Prop>, e: Value, cmp: Comparator)
    requires !cmp.Custom? && PlainLeaf(e)
    ensures Match(Obj(ps), e, cmp, true, false)
        <==> exists i | 0 <= i < |ps| && FirstOfName(ps, i) && !IsPrivate(ps[i].name) ::
               Match(ps[i].value, e, cmp, true, false)
  {
    assert !Core(Obj(ps), e, 0, cmp, false, false);
    assert forall i | 0 <= i < |ps| ::
      Match(ps[i].value, e, cmp, true, false) == Core(ps[i].value, e, 0, cmp, true, false);
  }

  /** The same search in an array looks at each element. */
  lemma SearchArray(vs: seq<Value>, e: Value, cmp: Comparator)
    requires PlainLeaf(e)
    ensures Match(Arr(vs), e, cmp, true, false) <==> exists i | 0 <= i < |vs| :: Match(vs[i], e, cmp, true, false)
  {
    assert forall i | 0 <= i < |vs| ::
      Match(vs[i], e, cmp, true, false) == Core(vs[i], e, 0, cmp, true, false);
  }

  // ---------------------------------------------------------------------------
  // The `$` key

  /** `{$: v}` holds of an object exactly when `v`, searched for in every mode,
      matches one of its visible properties whose name does not start with `$`;
      the property may hold the match at any depth. */
  lemma DollarSearchesProperties(ps: seq<Prop>, v: Value, inherited: bool, cmp: Comparator)
    requires Constrains(v) && (v.Str? ==> LeadingBangs(v.s) == 0)
    ensures Match(Obj(ps), Obj([Prop("$", v, inherited)]), cmp, false, false)
        <==> exists i | 0 <= i < |ps| && FirstOfName(ps, i) && !IsPrivate(ps[i].name) ::
               Match(ps[i].value, v, cmp, true, false)
  {
    var e := Obj([Prop("$", v, inherited)]);
    assert FirstOfName(e.props, 0);
    assert Match(Obj(ps), e, cmp, false, false) == Match(Obj(ps), v, cmp, true, true);
    assert Match(Obj(ps), v, cmp, true, true) == Core(Obj(ps), v, 0, cmp, true, true);
    assert forall i | 0 <= i < |ps| ::
      Match(ps[i].value, v, cmp, true, false) == Core(ps[i].value, v, 0, cmp, true, false);
  }

  // ---------------------------------------------------------------------------
  // Records

  /** No name is used in both lists. */
  predicate DisjointNames(e1: seq<Prop>, e2: seq<Prop>) {
    forall i, j | 0 <= i < |e1| && 0 <= j < |e2| :: e1[i].name != e2[j].name
  }

  lemma FirstOfNameConcat(e1: seq<Prop>, e2: seq<Prop>, j: int)
    requires DisjointNames(e1, e2) && 0 <= j < |e1| + |e2|
    ensures j < |e1| ==> (FirstOfName(e1 + e2, j) <==> FirstOfName(e1, j))
    ensures j >= |e1| ==> (FirstOfName(e1 + e2, j) <==> FirstOfName(e2, j - |e1|))
  {
    var e := e1 + e2;
    if j >= |e1| {
      assert e[j] == e2[j - |e1|];
      assert forall i | 0 <= i < |e1| :: e[i] == e1[i];
      assert (forall i | 0 <= i < |e1| :: e[i].name != e[j].name);
      assert (forall i | |e1| <= i < j :: e[i].name != e[j].name)
          <==> (forall i | 0 <= i < j - |e1| :: e2[i].name != e2[j - |e1|].name) by {
        assert forall i | 0 <= i < j - |e1| :: e[|e1| + i] == e2[i];
      }
    } else {
      assert forall i | 0 <= i <= j :: e[i] == e1[i];
    }
  }

  /** The keys of a record expression are a conjunction: an object matches a record
      made of two records with distinct names exactly when it matches both. */
  lemma RecordConjunction(ps: seq<Prop>, e1: seq<Prop>, e2: seq<Prop>, cmp: Comparator)
    requires DisjointNames(e1, e2)
    ensures Match(Obj(ps), Obj(e1 + e2), cmp, false, false)
        <==> Match(Obj(ps), Obj(e1), cmp, false, false) && Match(Obj(ps), Obj(e2), cmp, false, false)
  {
    var e := e1 + e2;
    forall j | 0 <= j < |e|
      ensures FirstOfName(e, j) == (if j < |e1| then FirstOfName(e1, j) else FirstOfName(e2, j - |e1|))
      ensures e[j] == if j < |e1| then e1[j] else e2[j - |e1|]
    {
      FirstOfNameConcat(e1, e2, j);
    }
    assert forall j | 0 <= j < |e2| :: e[|e1| + j] == e2[j];
  }

  /** A record of one key: a `$` key searches the object, any other key matches
      its value against the property of that name (`undefined` when there is
      none); a function or `undefined` value imposes nothing. */
  lemma SingleKey(ps: seq<Prop>, n: string, v: Value, inherited: bool, cmp: Comparator)
    ensures Match(Obj(ps), Obj([Prop(n, v, inherited)]), cmp, false, false)
        == (Constrains(v) ==>
              if n == "$" then Match(Obj(ps), v, cmp, true, true)
              else Match(Lookup(ps, n), v, cmp, false, false))
  {
    assert FirstOfName([Prop(n, v, inherited)], 0);
  }

  /** A record with no constraining key holds of every object. */
  lemma EmptyRecordHoldsOfObjects(ps: seq<Prop>, e: seq<Prop>, cmp: Comparator)
    requires forall j | 0 <= j < |e| :: !Constrains(e[j].value)
    ensures Match(Obj(ps), Obj(e), cmp, false, false)
  {
  }

  // ---------------------------------------------------------------------------
  // Properties that take no part

  /** Same names and values, whatever each property's origin. */
  predicate SameEntries(ps: seq<Prop>, qs: seq<Prop>) {
    |ps| == |qs| && forall i | 0 <= i < |ps| :: ps[i].name == qs[i].name && ps[i].value == qs[i].value
  }

  lemma {:induction false} LookupSameEntries(ps: seq<Prop>, qs: seq<Prop>, name: string)
    requires SameEntries(ps, qs)
    ensures IndexOf(ps, name) == IndexOf(qs, name)
    ensures Lookup(ps, name) == Lookup(qs, name)
    decreases |ps|
  {
    if ps != [] {
      assert SameEntries(ps[1..], qs[1..]);
      LookupSameEntries(ps[1..], qs[1..], name);
    }
  }

  /** An item's inherited properties take part in the match exactly as its own
      properties do (for the built-in comparators). */
  lemma {:induction false} InheritedItemPropertiesCount(ps: seq<Prop>, qs: seq<Prop>, e: Value, k: nat,
                                                       cmp: Comparator, anyProp: bool, wholeOff: bool)
    requires SameEntries(ps, qs) && !cmp.Custom?
    ensures Core(Obj(ps), e, k, cmp, anyProp, wholeOff) == Core(Obj(qs), e, k, cmp, anyProp, wholeOff)
    decreases e, if anyProp then 1 else 0
  {
    assert forall i | 0 <= i < |ps| :: FirstOfName(ps, i) == FirstOfName(qs, i);
    if anyProp {
      InheritedItemPropertiesCount(ps, qs, e, k, cmp, false, false);
    } else if e.Obj? {
      var eps := e.props;
      forall j | 0 <= j < |eps| && FirstOfName(eps, j) && Constrains(eps[j].value)
        ensures (if eps[j].name == "$" then Match(Obj(ps), eps[j].value, cmp, true, true)
                 else Match(Lookup(ps, eps[j].name), eps[j].value, cmp, false, false))
             == (if eps[j].name == "$" then Match(Obj(qs), eps[j].value, cmp, true, true)
                 else Match(Lookup(qs, eps[j].name), eps[j].value, cmp, false, false))
      {
        var v := eps[j].value;
        if eps[j].name == "$" {
          var k' := if v.Str? then LeadingBangs(v.s) else 0;
          InheritedItemPropertiesCount(ps, qs, v, k', cmp, true, k' == 0);
        } else {
          LookupSameEntries(ps, qs, eps[j].name);
        }
      }
    }
  }

  /** The inherited entries of a record expression constrain the item exactly as
      its own entries do (for the built-in comparators). */
  lemma {:induction false} InheritedExpressionEntriesCount(a: Value, eps: seq<Prop>, eqs: seq<Prop>,
                                                          cmp: Comparator, anyProp: bool, wholeOff: bool)
    requires SameEntries(eps, eqs) && !cmp.Custom?
    ensures Core(a, Obj(eps), 0, cmp, anyProp, wholeOff) == Core(a, Obj(eqs), 0, cmp, anyProp, wholeOff)
    decreases a, if anyProp then 1 else 0
  {
    assert forall j | 0 <= j < |eps| :: FirstOfName(eps, j) == FirstOfName(eqs, j);
    match a
    case Arr(vs) =>
      forall i | 0 <= i < |vs|
        ensures Core(vs[i], Obj(eps), 0, cmp, anyProp, false) == Core(vs[i], Obj(eqs), 0, cmp, anyProp, false)
      {
        InheritedExpressionEntriesCount(vs[i], eps, eqs, cmp, anyProp, false);
      }
    case Obj(ps) =>
      if anyProp {
        forall i | 0 <= i < |ps|
          ensures Core(ps[i].value, Obj(eps), 0, cmp, true, false) == Core(ps[i].value, Obj(eqs), 0, cmp, true, false)
        {
          InheritedExpressionEntriesCount(ps[i].value, eps, eqs, cmp, true, false);
        }
        InheritedExpressionEntriesCount(a, eps, eqs, cmp, false, false);
      }
    case _ =>
  }

  /** A property whose value is a function, or whose name starts with `$`, adds
      nothing to what a search (with a built-in comparator) finds in an object. */
  lemma HiddenPropertyIgnoredBySearch(ps: seq<Prop>, p: Prop, e: Value, k: nat, cmp: Comparator, wholeOff: bool)
    requires p.value.Func? || IsPrivate(p.name)
    requires !cmp.Custom? && (wholeOff || !e.Obj?)
    ensures Core(Obj(ps + [p]), e, k, cmp, true, wholeOff) == Core(Obj(ps), e, k, cmp, true, wholeOff)
  {
    SearchedPropertiesAppendHidden(ps, p, e, k, cmp);
    if !wholeOff {
      WholeObjectNotLeaf(ps + [p], e, k, cmp);
      WholeObjectNotLeaf(ps, e, k, cmp);
    }
  }

  /** Some visible, non-private property of the object matches in search mode. */
  ghost predicate SomePropertyMatches(ps: seq<Prop>, e: Value, k: nat, cmp: Comparator) {
    exists i | 0 <= i < |ps| && FirstOfName(ps, i) && !IsPrivate(ps[i].name) ::
      Core(ps[i].value, e, k, cmp, true, false)
  }

  lemma SearchedPropertiesAppendHidden(ps: seq<Prop>, p: Prop, e: Value, k: nat, cmp: Comparator)
    requires p.value.Func? || IsPrivate(p.name)
    ensures SomePropertyMatches(ps + [p], e, k, cmp) == SomePropertyMatches(ps, e, k, cmp)
  {
    var qs := ps + [p];
    assert forall i | 0 <= i < |ps| :: qs[i] == ps[i] && FirstOfName(qs, i) == FirstOfName(ps, i);
    assert qs[|ps|] == p;
    assert p.value.Func? ==> !Core(p.value, e, k, cmp, true, false);
  }

  /** Built-in comparators never accept an object compared as a whole with a value
      that is not a record. */
  lemma WholeObjectNotLeaf(ps: seq<Prop>, e: Value, k: nat, cmp: Comparator)
    requires !cmp.Custom? && !e.Obj?
    ensures !Core(Obj(ps), e, k, cmp, false, false)
  {
  }

  lemma {:induction false} LookupAppendOther(ps: seq<Prop>, p: Prop, name: string)
    requires p.name != name
    ensures Lookup(ps + [p], name) == Lookup(ps, name)
    decreases |ps|
  {
    if ps != [] {
      assert (ps + [p])[1..] == ps[1..] + [p];
      LookupAppendOther(ps[1..], p, name);
    }
  }

  /** A function-valued property of an item, named by no key of the record, does
      not change whether the item matches the record (built-in comparators). */
  lemma FunctionPropertyIgnoredByRecord(ps: seq<Prop>, p: Prop, eps: seq<Prop>, cmp: Comparator)
    requires p.value.Func? && !cmp.Custom?
    requires forall j | 0 <= j < |eps| :: eps[j].name != p.name
    ensures Match(Obj(ps + [p]), Obj(eps), cmp, false, false) == Match(Obj(ps), Obj(eps), cmp, false, false)
  {
    forall j | 0 <= j < |eps| && FirstOfName(eps, j) && Constrains(eps[j].value)
      ensures (if eps[j].name == "$" then Match(Obj(ps + [p]), eps[j].value, cmp, true, true)
               else Match(Lookup(ps + [p], eps[j].name), eps[j].value, cmp, false, false))
           == (if eps[j].name == "$" then Match(Obj(ps), eps[j].value, cmp, true, true)
               else Match(Lookup(ps, eps[j].name), eps[j].value, cmp, false, false))
    {
      var v := eps[j].value;
      if eps[j].name == "$" {
        var k := if v.Str? then LeadingBangs(v.s) else 0;
        HiddenPropertyIgnoredBySearch(ps, p, v, k, cmp, k == 0);
      } else {
        LookupAppendOther(ps, p, eps[j].name);
      }
    }
  }

  /** A function-valued entry of a record expression imposes nothing. */
  lemma FunctionEntryIgnored(ps: seq<Prop>, eps: seq<Prop>, p: Prop, cmp: Comparator)
    requires p.value.Func?
    ensures Match(Obj(ps), Obj(eps + [p]), cmp, false, false) == Match(Obj(ps), Obj(eps), cmp, false, false)
  {
    var e := eps + [p];
    assert forall j | 0 <= j < |eps| :: e[j] == eps[j] && FirstOfName(e, j) == FirstOfName(eps, j);
    assert !Constrains(e[|eps|].value);
  }
}

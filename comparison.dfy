/** The three comparison policies the filter applies where an actual value meets an
    expected leaf: the default case-insensitive substring test, strict equality
    (comparator `true`) and a caller-supplied function `(actual, expected) -> bool`. */
module Comparison {
  import opened Text
  import opened Values

  datatype Comparator =
    | Default
    | Strict
    | Custom(f: (Value, Value) -> bool)

  /** The default comparator. Objects never match, so an object's own rendering
      `[object Object]` is never searched; a missing property matches only the
      empty text (a choice of this model: the tests leave that case open); otherwise the lower-cased text of `expected` must occur in the
      lower-cased text of `actual`. */
  predicate Substring(actual: Value, expected: Value) {
    if IsObject(actual) || IsObject(expected) then false
    else if actual.Undefined? then TextOf(expected) == ""
    else Contains(Lower(TextOf(actual)), Lower(TextOf(expected)))
  }

  /** Comparator `true`: exact equality of the two values, where the case of a
      string matters. An object never equals a value that is not one, which is the
      only way an object reaches this comparison. */
  predicate Equal(actual: Value, expected: Value) {
    !IsObject(actual) && !IsObject(expected) && actual == expected
  }

  /** Compare one actual value with an expected one under the chosen policy. */
  predicate CompareLeaf(cmp: Comparator, actual: Value, expected: Value) {
    match cmp
    case Default => Substring(actual, expected)
    case Strict => Equal(actual, expected)
    case Custom(f) => f(actual, expected)
  }

  /** Under the default comparator a boolean matches a boolean exactly, and a
      missing property never matches a boolean. */
  lemma BooleanExact(a: bool, b: bool)
    ensures Substring(Bool(a), Bool(b)) <==> a == b
    ensures !Substring(Undefined, Bool(b))
  {
    var t, f := "true", "false";
    assert Lower(t) == t;
    assert Lower(f) == f;
    ContainsSelf(t);
    ContainsSelf(f);
    NotContainsLonger(t, f);
    NotContainsChar(f, t, 0);
  }

  /** The default comparator is case-insensitive on both sides. */
  lemma CaseInsensitive(a: string, e: string)
    ensures Substring(Str(a), Str(e)) <==> Substring(Str(Lower(a)), Str(Lower(e)))
  {
    LowerIdempotent(a);
    LowerIdempotent(e);
  }

  /** A number matches a text when the text, lower-cased, occurs in its decimal
      rendering. */
  lemma NumberByDecimalText(n: int, e: string)
    ensures Substring(Num(n), Str(e)) <==> Contains(IntToString(n), Lower(e))
  {
    LowerOfDecimal(n);
  }

  /** The empty text matches every value that is not an object. */
  lemma EmptyTextMatchesLeaves(a: Value)
    requires !IsObject(a)
    ensures Substring(a, Str(""))
  {
    if !a.Undefined? {
      ContainsEmpty(Lower(TextOf(a)));
    }
  }

  /** Whatever strict equality accepts, the default comparator accepts too, for
      every expected value but `undefined` (the filter never compares against it). */
  lemma StrictImpliesSubstring(a: Value, e: Value)
    requires e != Undefined
    ensures Equal(a, e) ==> Substring(a, e)
  {
    if Equal(a, e) {
      ContainsSelf(Lower(TextOf(a)));
    }
  }
}

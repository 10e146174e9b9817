/** Replays of the filter's specification examples: for each, the items and the
    expression of the example, and the result it expects. */
module Scenarios {
  import opened Text
  import opened Values
  import opened Comparison
  import opened Matching
  import opened Selection
  import opened Filtering
  import opened ReplayKit
  import opened ScenarioTexts

  // ---------------------------------------------------------------------------
  // Filter by string (lines 11-29)

  /** A text is searched for case-insensitively in strings, in the properties of
      objects, in the elements of arrays and in the decimal text of numbers. */
  lemma SearchByString(a: Value, b: Value, c: Value, d: Value)
    requires a == Str("MIsKO") && b == Obj([Prop("name", Str("shyam"), false)])
    requires c == Arr([Str("adam")]) && d == Num(1234)
    ensures Filter([a, b, c, d], Search(Str("iSk")), Default) == [a]
    ensures Filter([a, b, c, d], Search(Str("isk")), Default) == [a]
    ensures Filter([a, b, c, d], Search(Str("yam")), Default) == [b]
    ensures Filter([a, b, c, d], Search(Str("da")), Default) == [c]
    ensures Filter([a, b, c, d], Search(Str("34")), Default) == [d]
  {
    SearchByStringIsk(a, b, c, d);
    SearchByStringLowerIsk(a, b, c, d);
    SearchByStringYam(a, b, c, d);
    SearchByStringDa(a, b, c, d);
    SearchByString34(a, b, c, d);
  }

  /** `''` and `undefined` keep every item; a text found nowhere keeps none. */
  lemma SearchByStringAllOrNone(a: Value, b: Value, c: Value, d: Value)
    requires a == Str("MIsKO") && b == Obj([Prop("name", Str("shyam"), false)])
    requires c == Arr([Str("adam")]) && d == Num(1234)
    ensures Filter([a, b, c, d], Search(Str("")), Default) == [a, b, c, d]
    ensures Filter([a, b, c, d], Absent, Default) == [a, b, c, d]
    ensures Filter([a, b, c, d], Search(Str("I don't exist")), Default) == []
  {
    SearchByStringEmpty(a, b, c, d);
    FilterAbsent([a, b, c, d], Default);
    SearchByStringMissing(a, b, c, d);
  }

  lemma SearchByStringEmpty(a: Value, b: Value, c: Value, d: Value)
    requires a == Str("MIsKO") && b == Obj([Prop("name", Str("shyam"), false)])
    requires c == Arr([Str("adam")]) && d == Num(1234)
    ensures Filter([a, b, c, d], Search(Str("")), Default) == [a, b, c, d]
  {
    var e := Str("");
    EmptyTextMatchesLeaves(Str("MIsKO"));
    EmptyTextMatchesLeaves(Str("shyam"));
    EmptyTextMatchesLeaves(Str("adam"));
    EmptyTextMatchesLeaves(Str(IntToString(1234)));
    MixedItems("MIsKO", "shyam", "adam", 1234, e);
    SearchByStringEmptyDecided(a, b, c, d);
  }

  /** The decisions of `SearchByStringEmpty` put together, away from the items' contents. */
  lemma SearchByStringEmptyDecided(a: Value, b: Value, c: Value, d: Value)
    requires Match(a, Str(""), Default, true, false)
    requires Match(b, Str(""), Default, true, false)
    requires Match(c, Str(""), Default, true, false)
    requires Match(d, Str(""), Default, true, false)
    ensures Filter([a, b, c, d], Search(Str("")), Default) == [a, b, c, d]
  {
    SearchOfFour(a, b, c, d, Str(""), Default, true, true, true, true);
  }

  lemma SearchByStringMissing(a: Value, b: Value, c: Value, d: Value)
    requires a == Str("MIsKO") && b == Obj([Prop("name", Str("shyam"), false)])
    requires c == Arr([Str("adam")]) && d == Num(1234)
    ensures Filter([a, b, c, d], Search(Str("I don't exist")), Default) == []
  {
    var e := Str("I don't exist");
    SearchByStringMissingTexts();
    NumberText();
    MixedItems("MIsKO", "shyam", "adam", 1234, e);
    SearchOfFour(a, b, c, d, e, Default, false, false, false, false);
  }

  lemma SearchByStringMissingTexts()
    ensures !Substring(Str("MIsKO"), Str("I don't exist"))
    ensures !Substring(Str("shyam"), Str("I don't exist"))
    ensures !Substring(Str("adam"), Str("I don't exist"))
    ensures !Substring(Str("1234"), Str("I don't exist"))
  {
    MIsKOLacksIDonTExist();
    ShyamLacksIDonTExist();
    AdamLacksIDonTExist();
    Number1234LacksIDonTExist();
  }

  lemma SearchByStringIsk(a: Value, b: Value, c: Value, d: Value)
    requires a == Str("MIsKO") && b == Obj([Prop("name", Str("shyam"), false)])
    requires c == Arr([Str("adam")]) && d == Num(1234)
    ensures Filter([a, b, c, d], Search(Str("iSk")), Default) == [a]
  {
    var e := Str("iSk");
    SearchByStringIskTexts();
    NumberText();
    MixedItems("MIsKO", "shyam", "adam", 1234, e);
    SearchOfFour(a, b, c, d, e, Default, true, false, false, false);
  }

  lemma SearchByStringIskTexts()
    ensures Substring(Str("MIsKO"), Str("iSk"))
    ensures !Substring(Str("shyam"), Str("iSk"))
    ensures !Substring(Str("adam"), Str("iSk"))
    ensures !Substring(Str("1234"), Str("iSk"))
  {
    MIsKOHasISk();
    ShyamLacksISk();
    AdamLacksISk();
    Number1234LacksISk();
  }

  lemma SearchByStringLowerIsk(a: Value, b: Value, c: Value, d: Value)
    requires a == Str("MIsKO") && b == Obj([Prop("name", Str("shyam"), false)])
    requires c == Arr([Str("adam")]) && d == Num(1234)
    ensures Filter([a, b, c, d], Search(Str("isk")), Default) == [a]
  {
    var e := Str("isk");
    SearchByStringLowerIskTexts();
    NumberText();
    MixedItems("MIsKO", "shyam", "adam", 1234, e);
    SearchOfFour(a, b, c, d, e, Default, true, false, false, false);
  }

  lemma SearchByStringLowerIskTexts()
    ensures Substring(Str("MIsKO"), Str("isk"))
    ensures !Substring(Str("shyam"), Str("isk"))
    ensures !Substring(Str("adam"), Str("isk"))
    ensures !Substring(Str("1234"), Str("isk"))
  {
    MIsKOHasIsk();
    ShyamLacksIsk();
    AdamLacksIsk();
    Number1234LacksIsk();
  }

  lemma SearchByStringYam(a: Value, b: Value, c: Value, d: Value)
    requires a == Str("MIsKO") && b == Obj([Prop("name", Str("shyam"), false)])
    requires c == Arr([Str("adam")]) && d == Num(1234)
    ensures Filter([a, b, c, d], Search(Str("yam")), Default) == [b]
  {
    var e := Str("yam");
    SearchByStringYamTexts();
    NumberText();
    MixedItems("MIsKO", "shyam", "adam", 1234, e);
    SearchOfFour(a, b, c, d, e, Default, false, true, false, false);
  }

  lemma SearchByStringYamTexts()
    ensures !Substring(Str("MIsKO"), Str("yam"))
    ensures Substring(Str("shyam"), Str("yam"))
    ensures !Substring(Str("adam"), Str("yam"))
    ensures !Substring(Str("1234"), Str("yam"))
  {
    MIsKOLacksYam();
    ShyamHasYam();
    AdamLacksYam();
    Number1234LacksYam();
  }

  lemma SearchByStringDa(a: Value, b: Value, c: Value, d: Value)
    requires a == Str("MIsKO") && b == Obj([Prop("name", Str("shyam"), false)])
    requires c == Arr([Str("adam")]) && d == Num(1234)
    ensures Filter([a, b, c, d], Search(Str("da")), Default) == [c]
  {
    var e := Str("da");
    SearchByStringDaTexts();
    NumberText();
    MixedItems("MIsKO", "shyam", "adam", 1234, e);
    SearchOfFour(a, b, c, d, e, Default, false, false, true, false);
  }

  lemma SearchByStringDaTexts()
    ensures !Substring(Str("MIsKO"), Str("da"))
    ensures !Substring(Str("shyam"), Str("da"))
    ensures Substring(Str("adam"), Str("da"))
    ensures !Substring(Str("1234"), Str("da"))
  {
    MIsKOLacksDa();
    ShyamLacksDa();
    AdamHasDa();
    Number1234LacksDa();
  }

  lemma SearchByString34(a: Value, b: Value, c: Value, d: Value)
    requires a == Str("MIsKO") && b == Obj([Prop("name", Str("shyam"), false)])
    requires c == Arr([Str("adam")]) && d == Num(1234)
    ensures Filter([a, b, c, d], Search(Str("34")), Default) == [d]
  {
    var e := Str("34");
    SearchByString34Texts();
    NumberText();
    MixedItems("MIsKO", "shyam", "adam", 1234, e);
    SearchOfFour(a, b, c, d, e, Default, false, false, false, true);
  }

  lemma SearchByString34Texts()
    ensures !Substring(Str("MIsKO"), Str("34"))
    ensures !Substring(Str("shyam"), Str("34"))
    ensures !Substring(Str("adam"), Str("34"))
    ensures Substring(Str("1234"), Str("34"))
  {
    MIsKOLacks34();
    ShyamLacks34();
    AdamLacks34();
    Number1234Has34();
  }

  lemma NumberText()
    ensures TextOf(Num(1234)) == "1234"
  {
    assert NatToString(1) == "1";
    assert NatToString(12) == "1" + "2";
    assert NatToString(123) == "12" + "3";
    assert NatToString(1234) == "123" + "4";
  }

  /** How a text is searched for in each kind of item of the string test. */
  lemma MixedItems(x: string, y: string, z: string, n: int, e: Value)
    requires PlainLeaf(e)
    ensures Match(Str(x), e, Default, true, false) == Substring(Str(x), e)
    ensures Match(Obj([Prop("name", Str(y), false)]), e, Default, true, false) == Substring(Str(y), e)
    ensures Match(Arr([Str(z)]), e, Default, true, false) == Substring(Str(z), e)
    ensures Match(Num(n), e, Default, true, false) == Substring(Str(IntToString(n)), e)
  {
    LeafComparison(Str(x), e, Default, true, false);
    LeafComparison(Str(y), e, Default, true, false);
    SearchOne("name", Str(y), false, e, Default);
    LeafComparison(Str(z), e, Default, true, false);
    SearchArray([Str(z)], e, Default);
    assert [Str(z)][0] == Str(z);
    LeafComparison(Num(n), e, Default, true, false);
  }

  // ---------------------------------------------------------------------------
  // Deep objects searched by string (lines 31-37)

  /** Searching a nested object by text reaches properties of nested objects. */
  lemma SearchDeepObject(a: Value, b: Value, c: Value)
    requires a == Obj([Prop("person", Obj([Prop("name", Str("Annet"), false), Prop("email", Str("annet@example.com"), false)]), false)])
    requires b == Obj([Prop("person", Obj([Prop("name", Str("Billy"), false), Prop("email", Str("me@billy.com"), false)]), false)])
    requires c == Obj([Prop("person", Obj([Prop("name", Str("Joan"), false),
                                           Prop("email", Obj([Prop("home", Str("me@joan.com"), false),
                                                              Prop("work", Str("joan@example.net"), false)]), false)]), false)])
    ensures Filter([a, b, c], Search(Str("me@joan")), Default) == [c]
    ensures Filter([a, b, c], Search(Str("joan@example")), Default) == [c]
  {
    SearchDeepObjectWork(a, b, c);
    var e := Str("me@joan");
    AnnetNotJoan();
    BillyNotJoan();
    JoanHome();
    PersonSearch("Joan", c.props[0].value.props[1].value, e);
    SearchDeepObjectHomeDecided(a, b, c);
  }

  /** The decisions of `SearchDeepObject` put together, away from the items' contents. */
  lemma SearchDeepObjectHomeDecided(a: Value, b: Value, c: Value)
    requires !Match(a, Str("me@joan"), Default, true, false)
    requires !Match(b, Str("me@joan"), Default, true, false)
    requires Match(c, Str("me@joan"), Default, true, false)
    ensures Filter([a, b, c], Search(Str("me@joan")), Default) == [c]
  {
    SearchOfThree(a, b, c, Str("me@joan"), Default, false, false, true);
  }

  lemma SearchDeepObjectWork(a: Value, b: Value, c: Value)
    requires a == Obj([Prop("person", Obj([Prop("name", Str("Annet"), false), Prop("email", Str("annet@example.com"), false)]), false)])
    requires b == Obj([Prop("person", Obj([Prop("name", Str("Billy"), false), Prop("email", Str("me@billy.com"), false)]), false)])
    requires c == Obj([Prop("person", Obj([Prop("name", Str("Joan"), false),
                                           Prop("email", Obj([Prop("home", Str("me@joan.com"), false),
                                                              Prop("work", Str("joan@example.net"), false)]), false)]), false)])
    ensures Filter([a, b, c], Search(Str("joan@example")), Default) == [c]
  {
    var e := Str("joan@example");
    WorkNotAnnet();
    WorkNotBilly();
    JoanWork();
    PersonSearch("Joan", c.props[0].value.props[1].value, e);
    SearchDeepObjectWorkDecided(a, b, c);
  }

  /** The decisions of `SearchDeepObjectWork` put together, away from the items' contents. */
  lemma SearchDeepObjectWorkDecided(a: Value, b: Value, c: Value)
    requires !Match(a, Str("joan@example"), Default, true, false)
    requires !Match(b, Str("joan@example"), Default, true, false)
    requires Match(c, Str("joan@example"), Default, true, false)
    ensures Filter([a, b, c], Search(Str("joan@example")), Default) == [c]
  {
    SearchOfThree(a, b, c, Str("joan@example"), Default, false, false, true);
  }

  lemma WorkNotAnnet()
    ensures !Match(Obj([Prop("person", Obj([Prop("name", Str("Annet"), false), Prop("email", Str("annet@example.com"), false)]), false)]),
                   Str("joan@example"), Default, true, false)
  {
    PersonSearch("Annet", Str("annet@example.com"), Str("joan@example"));
    WorkNotAnnetTexts();
    LeafComparison(Str("annet@example.com"), Str("joan@example"), Default, true, false);
  }

  lemma WorkNotAnnetTexts()
    ensures !Substring(Str("Annet"), Str("joan@example"))
    ensures !Substring(Str("annet@example.com"), Str("joan@example"))
  {
    AnnetLacksJoanExample();
    AnnetExampleComLacksJoanExample();
  }

  lemma WorkNotBilly()
    ensures !Match(Obj([Prop("person", Obj([Prop("name", Str("Billy"), false), Prop("email", Str("me@billy.com"), false)]), false)]),
                   Str("joan@example"), Default, true, false)
  {
    PersonSearch("Billy", Str("me@billy.com"), Str("joan@example"));
    WorkNotBillyTexts();
    LeafComparison(Str("me@billy.com"), Str("joan@example"), Default, true, false);
  }

  lemma WorkNotBillyTexts()
    ensures !Substring(Str("Billy"), Str("joan@example"))
    ensures !Substring(Str("me@billy.com"), Str("joan@example"))
  {
    BillyLacksJoanExample();
    MeBillyComLacksJoanExample();
  }

  lemma JoanWork()
    ensures Match(Obj([Prop("home", Str("me@joan.com"), false), Prop("work", Str("joan@example.net"), false)]),
                  Str("joan@example"), Default, true, false)
  {
    var e := Str("joan@example");
    JoanWorkTexts();
    LeafComparison(Str("joan@example.net"), e, Default, true, false);
    SearchTwo("home", Str("me@joan.com"), "work", Str("joan@example.net"), e, Default);
  }

  lemma JoanWorkTexts()
    ensures Substring(Str("joan@example.net"), Str("joan@example"))
  {
    TextFound("joan@example.net", "joan@example", 0);
  }

  lemma AnnetNotJoan()
    ensures !Match(Obj([Prop("person", Obj([Prop("name", Str("Annet"), false), Prop("email", Str("annet@example.com"), false)]), false)]),
                   Str("me@joan"), Default, true, false)
  {
    PersonSearch("Annet", Str("annet@example.com"), Str("me@joan"));
    AnnetNotJoanTexts();
    LeafComparison(Str("annet@example.com"), Str("me@joan"), Default, true, false);
  }

  lemma AnnetNotJoanTexts()
    ensures !Substring(Str("Annet"), Str("me@joan"))
    ensures !Substring(Str("annet@example.com"), Str("me@joan"))
  {
    AnnetLacksMeJoan();
    AnnetExampleComLacksMeJoan();
  }

  lemma BillyNotJoan()
    ensures !Match(Obj([Prop("person", Obj([Prop("name", Str("Billy"), false), Prop("email", Str("me@billy.com"), false)]), false)]),
                   Str("me@joan"), Default, true, false)
  {
    PersonSearch("Billy", Str("me@billy.com"), Str("me@joan"));
    BillyNotJoanTexts();
    LeafComparison(Str("me@billy.com"), Str("me@joan"), Default, true, false);
  }

  lemma BillyNotJoanTexts()
    ensures !Substring(Str("Billy"), Str("me@joan"))
    ensures !Substring(Str("me@billy.com"), Str("me@joan"))
  {
    BillyLacksMeJoan();
    MeBillyComLacksMeJoan();
  }

  lemma PersonSearch(name: string, email: Value, e: Value)
    requires PlainLeaf(e)
    ensures Match(Obj([Prop("person", Obj([Prop("name", Str(name), false), Prop("email", email, false)]), false)]), e, Default, true, false)
         == (CompareLeaf(Default, Str(name), e) || Match(email, e, Default, true, false))
  {
    LeafComparison(Str(name), e, Default, true, false);
    SearchTwo("name", Str(name), "email", email, e, Default);
    SearchOne("person", Obj([Prop("name", Str(name), false), Prop("email", email, false)]), false, e, Default);
  }

  lemma JoanHome()
    ensures Match(Obj([Prop("home", Str("me@joan.com"), false), Prop("work", Str("joan@example.net"), false)]),
                  Str("me@joan"), Default, true, false)
  {
    var e := Str("me@joan");
    JoanHomeTexts();
    LeafComparison(Str("me@joan.com"), e, Default, true, false);
    SearchTwo("home", Str("me@joan.com"), "work", Str("joan@example.net"), e, Default);
  }

  lemma JoanHomeTexts()
    ensures Substring(Str("me@joan.com"), Str("me@joan"))
  {
    MeJoanComHasMeJoan();
  }
  // ---------------------------------------------------------------------------
  // Function predicates (lines 58-72)

  /** JavaScript's truthiness of a value (NaN is not modelled). */
  function Truthy(v: Value): bool {
    match v
    case Str(s) => s != ""
    case Num(n) => n != 0
    case Bool(b) => b
    case Undefined => false
    case _ => true
  }

  /** The callback `function(i) { return i.done; }`. */
  function IsDone(v: Value, index: nat, all: seq<Value>): bool {
    v.Obj? && Truthy(Lookup(v.props, "done"))
  }

  lemma PredicateOnItem(a: Value, b: Value)
    requires a == Obj([Prop("name", Str("a"), false)])
    requires b == Obj([Prop("name", Str("abc"), false), Prop("done", Bool(true), false)])
    ensures Filter([a, b], Predicate(IsDone), Default) == [b]
  {
    assert FirstOfName(b.props, 1);
    FilterOfTwo(a, b, Predicate(IsDone), Default, false, true);
  }

  lemma PredicateByIndex()
    ensures Filter([Num(0), Num(1), Num(2), Num(3)],
                   Predicate((v: Value, i: nat, all: seq<Value>) => i % 2 == 0), Default)
            == [Num(0), Num(2)]
  {
  }

  // ---------------------------------------------------------------------------
  // Properties whose names start with `$` are not read (lines 39-44)

  lemma PrivatePropertyNotSearched(a: Value)
    requires a == Obj([Prop("$name", Str("misko"), false)])
    ensures Filter([a], Search(Str("misko")), Default) == []
  {
    SearchObject(a.props, Str("misko"), Default);
    SearchOfOne(a, Str("misko"), Default, false);
  }

  // ---------------------------------------------------------------------------
  // Filter on a specific property (lines 47-55)

  lemma SpecificProperty(a: Value, b: Value)
    requires a == Obj([Prop("ignore", Str("a"), false), Prop("name", Str("a"), false)])
    requires b == Obj([Prop("ignore", Str("a"), false), Prop("name", Str("abc"), false)])
    ensures Filter([a, b], Record([]), Default) == [a, b]
    ensures Filter([a, b], Record([Prop("name", Str("a"), false)]), Default) == [a, b]
    ensures Filter([a, b], Record([Prop("name", Str("b"), false)]), Default) == [b]
  {
    FilterEmptyRecord([a, b], [], Default);
    SpecificPropertyTexts();
    forall x | x in ["a", "abc"]
      ensures Match(Str(x), Str("a"), Default, false, false) == Substring(Str(x), Str("a"))
      ensures Match(Str(x), Str("b"), Default, false, false) == Substring(Str(x), Str("b"))
    {
      LeafComparison(Str(x), Str("a"), Default, false, false);
      LeafComparison(Str(x), Str("b"), Default, false, false);
    }
    KeyAt(a.props, 1, Str("a"), false, Default);
    KeyAt(b.props, 1, Str("a"), false, Default);
    KeyAt(a.props, 1, Str("b"), false, Default);
    KeyAt(b.props, 1, Str("b"), false, Default);
    SpecificNameADecided(a, b);
    SpecificNameBDecided(a, b);
  }

  /** The decisions of `SpecificProperty` put together, away from the items' contents. */
  lemma SpecificNameADecided(a: Value, b: Value)
    requires Match(a, Obj([Prop("name", Str("a"), false)]), Default, false, false)
    requires Match(b, Obj([Prop("name", Str("a"), false)]), Default, false, false)
    ensures Filter([a, b], Record([Prop("name", Str("a"), false)]), Default) == [a, b]
  {
    RecordOfTwo(a, b, [Prop("name", Str("a"), false)], Default, true, true);
  }

  /** The decisions of `SpecificProperty` put together, away from the items' contents. */
  lemma SpecificNameBDecided(a: Value, b: Value)
    requires !Match(a, Obj([Prop("name", Str("b"), false)]), Default, false, false)
    requires Match(b, Obj([Prop("name", Str("b"), false)]), Default, false, false)
    ensures Filter([a, b], Record([Prop("name", Str("b"), false)]), Default) == [b]
  {
    RecordOfTwo(a, b, [Prop("name", Str("b"), false)], Default, false, true);
  }

  lemma SpecificPropertyTexts()
    ensures Substring(Str("a"), Str("a"))
    ensures Substring(Str("abc"), Str("a"))
    ensures !Substring(Str("a"), Str("b"))
    ensures Substring(Str("abc"), Str("b"))
  {
    AHasA();
    AbcHasA();
    ALacksB();
    AbcHasB();
  }

  // ---------------------------------------------------------------------------
  // Object expressions (lines 75-93)

  /** A record of two text keys against an object of two text properties of the
      same names. */
  lemma TwoTextKeys(n1: string, n2: string, x: string, y: string, p: string, q: string)
    requires n1 != n2 && n1 != "$" && n2 != "$"
    requires PlainLeaf(Str(p)) && PlainLeaf(Str(q))
    ensures Match(Obj([Prop(n1, Str(x), false), Prop(n2, Str(y), false)]),
                  Obj([Prop(n1, Str(p), false), Prop(n2, Str(q), false)]), Default, false, false)
         == (Substring(Str(x), Str(p)) && Substring(Str(y), Str(q)))
  {
    var ps := [Prop(n1, Str(x), false), Prop(n2, Str(y), false)];
    TwoKeys(ps, Prop(n1, Str(p), false), Prop(n2, Str(q), false), Default);
    KeyAt(ps, 0, Str(p), false, Default);
    KeyAt(ps, 1, Str(q), false, Default);
    LeafComparison(Str(x), Str(p), Default, false, false);
    LeafComparison(Str(y), Str(q), Default, false, false);
  }

  lemma ObjectPredicate(a: Value, b: Value)
    requires a == Obj([Prop("first", Str("misko"), false), Prop("last", Str("hevery"), false)])
    requires b == Obj([Prop("first", Str("adam"), false), Prop("last", Str("abrons"), false)])
    ensures Filter([a, b], Record([Prop("first", Str(""), false), Prop("last", Str(""), false)]), Default) == [a, b]
    ensures Filter([a, b], Record([Prop("first", Str(""), false), Prop("last", Str("hevery"), false)]), Default) == [a]
    ensures Filter([a, b], Record([Prop("first", Str("adam"), false), Prop("last", Str("hevery"), false)]), Default) == []
    ensures Filter([a, b], Record([Prop("first", Str("misko"), false), Prop("last", Str("hevery"), false)]), Default) == [a]
  {
    ObjectPredicateEmpty(a, b);
    ObjectPredicateLast(a, b);
    ObjectPredicateBoth(a, b);
  }

  lemma ObjectPredicateEmpty(a: Value, b: Value)
    requires a == Obj([Prop("first", Str("misko"), false), Prop("last", Str("hevery"), false)])
    requires b == Obj([Prop("first", Str("adam"), false), Prop("last", Str("abrons"), false)])
    ensures Filter([a, b], Record([Prop("first", Str(""), false), Prop("last", Str(""), false)]), Default) == [a, b]
    ensures Filter([a, b], Record([Prop("first", Str(""), false), Prop("last", Str("hevery"), false)]), Default) == [a]
  {
    EmptyTextMatchesLeaves(Str("misko"));
    EmptyTextMatchesLeaves(Str("adam"));
    EmptyTextMatchesLeaves(Str("hevery"));
    EmptyTextMatchesLeaves(Str("abrons"));
    ObjectPredicateEmptyTexts();
    TwoTextKeys("first", "last", "misko", "hevery", "", "");
    TwoTextKeys("first", "last", "adam", "abrons", "", "");
    TwoTextKeys("first", "last", "misko", "hevery", "", "hevery");
    TwoTextKeys("first", "last", "adam", "abrons", "", "hevery");
    ObjectPredicateBlankDecided(a, b);
    ObjectPredicateHeveryDecided(a, b);
  }

  /** The decisions of `ObjectPredicateEmpty` put together, away from the items' contents. */
  lemma ObjectPredicateBlankDecided(a: Value, b: Value)
    requires Match(a, Obj([Prop("first", Str(""), false), Prop("last", Str(""), false)]), Default, false, false)
    requires Match(b, Obj([Prop("first", Str(""), false), Prop("last", Str(""), false)]), Default, false, false)
    ensures Filter([a, b], Record([Prop("first", Str(""), false), Prop("last", Str(""), false)]), Default) == [a, b]
  {
    RecordOfTwo(a, b, [Prop("first", Str(""), false), Prop("last", Str(""), false)], Default, true, true);
  }

  /** The decisions of `ObjectPredicateEmpty` put together, away from the items' contents. */
  lemma ObjectPredicateHeveryDecided(a: Value, b: Value)
    requires Match(a, Obj([Prop("first", Str(""), false), Prop("last", Str("hevery"), false)]), Default, false, false)
    requires !Match(b, Obj([Prop("first", Str(""), false), Prop("last", Str("hevery"), false)]), Default, false, false)
    ensures Filter([a, b], Record([Prop("first", Str(""), false), Prop("last", Str("hevery"), false)]), Default) == [a]
  {
    RecordOfTwo(a, b, [Prop("first", Str(""), false), Prop("last", Str("hevery"), false)], Default, true, false);
  }

  lemma ObjectPredicateEmptyTexts()
    ensures Substring(Str("hevery"), Str("hevery"))
    ensures !Substring(Str("abrons"), Str("hevery"))
  {
    HeveryHasHevery();
    AbronsLacksHevery();
  }

  lemma ObjectPredicateLast(a: Value, b: Value)
    requires a == Obj([Prop("first", Str("misko"), false), Prop("last", Str("hevery"), false)])
    requires b == Obj([Prop("first", Str("adam"), false), Prop("last", Str("abrons"), false)])
    ensures Filter([a, b], Record([Prop("first", Str("adam"), false), Prop("last", Str("hevery"), false)]), Default) == []
  {
    ObjectPredicateLastTexts();
    TwoTextKeys("first", "last", "misko", "hevery", "adam", "hevery");
    TwoTextKeys("first", "last", "adam", "abrons", "adam", "hevery");
    RecordOfTwo(a, b, [Prop("first", Str("adam"), false), Prop("last", Str("hevery"), false)], Default, false, false);
  }

  lemma ObjectPredicateLastTexts()
    ensures !Substring(Str("misko"), Str("adam"))
    ensures !Substring(Str("abrons"), Str("hevery"))
  {
    MiskoLacksAdam();
    AbronsLacksHevery();
  }

  lemma ObjectPredicateBoth(a: Value, b: Value)
    requires a == Obj([Prop("first", Str("misko"), false), Prop("last", Str("hevery"), false)])
    requires b == Obj([Prop("first", Str("adam"), false), Prop("last", Str("abrons"), false)])
    ensures Filter([a, b], Record([Prop("first", Str("misko"), false), Prop("last", Str("hevery"), false)]), Default) == [a]
  {
    ObjectPredicateBothTexts();
    TwoTextKeys("first", "last", "misko", "hevery", "misko", "hevery");
    TwoTextKeys("first", "last", "adam", "abrons", "misko", "hevery");
    RecordOfTwo(a, b, [Prop("first", Str("misko"), false), Prop("last", Str("hevery"), false)], Default, true, false);
  }

  lemma ObjectPredicateBothTexts()
    ensures Substring(Str("misko"), Str("misko"))
    ensures Substring(Str("hevery"), Str("hevery"))
    ensures !Substring(Str("adam"), Str("misko"))
  {
    MiskoHasMisko();
    HeveryHasHevery();
    AdamLacksMisko();
  }

  /** A key with dots is the name of one property, not a path. */
  lemma DottedNames(a: Value, b: Value)
    requires a == Obj([Prop("first.name", Str("misko"), false), Prop("last.name", Str("hevery"), false)])
    requires b == Obj([Prop("first.name", Str("adam"), false), Prop("last.name", Str("abrons"), false)])
    ensures Filter([a, b], Record([Prop("first.name", Str(""), false), Prop("last.name", Str(""), false)]), Default) == [a, b]
    ensures Filter([a, b], Record([Prop("first.name", Str("misko"), false), Prop("last.name", Str(""), false)]), Default) == [a]
  {
    DottedNamesEmpty(a, b);
    DottedNamesFirst(a, b);
  }

  lemma DottedNamesEmpty(a: Value, b: Value)
    requires a == Obj([Prop("first.name", Str("misko"), false), Prop("last.name", Str("hevery"), false)])
    requires b == Obj([Prop("first.name", Str("adam"), false), Prop("last.name", Str("abrons"), false)])
    ensures Filter([a, b], Record([Prop("first.name", Str(""), false), Prop("last.name", Str(""), false)]), Default) == [a, b]
  {
    EmptyTextMatchesLeaves(Str("misko"));
    EmptyTextMatchesLeaves(Str("adam"));
    EmptyTextMatchesLeaves(Str("hevery"));
    EmptyTextMatchesLeaves(Str("abrons"));
    TwoTextKeys("first.name", "last.name", "misko", "hevery", "", "");
    TwoTextKeys("first.name", "last.name", "adam", "abrons", "", "");
    DottedNamesEmptyDecided(a, b);
  }

  /** The decisions of `DottedNamesEmpty` put together, away from the items' contents. */
  lemma DottedNamesEmptyDecided(a: Value, b: Value)
    requires Match(a, Obj([Prop("first.name", Str(""), false), Prop("last.name", Str(""), false)]), Default, false, false)
    requires Match(b, Obj([Prop("first.name", Str(""), false), Prop("last.name", Str(""), false)]), Default, false, false)
    ensures Filter([a, b], Record([Prop("first.name", Str(""), false), Prop("last.name", Str(""), false)]), Default) == [a, b]
  {
    RecordOfTwo(a, b, [Prop("first.name", Str(""), false), Prop("last.name", Str(""), false)], Default, true, true);
  }

  lemma DottedNamesFirst(a: Value, b: Value)
    requires a == Obj([Prop("first.name", Str("misko"), false), Prop("last.name", Str("hevery"), false)])
    requires b == Obj([Prop("first.name", Str("adam"), false), Prop("last.name", Str("abrons"), false)])
    ensures Filter([a, b], Record([Prop("first.name", Str("misko"), false), Prop("last.name", Str(""), false)]), Default) == [a]
  {
    EmptyTextMatchesLeaves(Str("hevery"));
    DottedNamesFirstTexts();
    TwoTextKeys("first.name", "last.name", "misko", "hevery", "misko", "");
    TwoTextKeys("first.name", "last.name", "adam", "abrons", "misko", "");
    RecordOfTwo(a, b, [Prop("first.name", Str("misko"), false), Prop("last.name", Str(""), false)], Default, true, false);
  }

  lemma DottedNamesFirstTexts()
    ensures Substring(Str("misko"), Str("misko"))
    ensures !Substring(Str("adam"), Str("misko"))
  {
    MiskoHasMisko();
    AdamLacksMisko();
  }

  // ---------------------------------------------------------------------------
  // Nested records (lines 96-118)

  /** `{person: {name: p}}` against `{person: {name: x}}`. */
  lemma PersonName(x: string, p: string)
    requires PlainLeaf(Str(p))
    ensures Match(Obj([Prop("person", Obj([Prop("name", Str(x), false)]), false)]),
                  Obj([Prop("person", Obj([Prop("name", Str(p), false)]), false)]), Default, false, false)
         == Substring(Str(x), Str(p))
  {
    var inner := [Prop("name", Str(x), false)];
    KeyAt([Prop("person", Obj(inner), false)], 0, Obj([Prop("name", Str(p), false)]), false, Default);
    KeyAt(inner, 0, Str(p), false, Default);
    LeafComparison(Str(x), Str(p), Default, false, false);
  }

  function Named(x: string): Value {
    Obj([Prop("person", Obj([Prop("name", Str(x), false)]), false)])
  }

  lemma DeepPredicate(a: Value, b: Value, c: Value, d: Value)
    requires a == Named("John") && b == Named("Rita") && c == Named("Billy") && d == Named("Joan")
    ensures Filter([a, b, c, d], Record([Prop("person", Obj([Prop("name", Str("Jo"), false)]), false)]), Default)
         == [a, d]
  {
    DeepPredicateFacts();
    DeepPredicateDecided(a, b, c, d);
  }

  /** The decisions of `DeepPredicate` put together, away from the items' contents. */
  lemma DeepPredicateDecided(a: Value, b: Value, c: Value, d: Value)
    requires Match(a, Obj([Prop("person", Obj([Prop("name", Str("Jo"), false)]), false)]), Default, false, false)
    requires !Match(b, Obj([Prop("person", Obj([Prop("name", Str("Jo"), false)]), false)]), Default, false, false)
    requires !Match(c, Obj([Prop("person", Obj([Prop("name", Str("Jo"), false)]), false)]), Default, false, false)
    requires Match(d, Obj([Prop("person", Obj([Prop("name", Str("Jo"), false)]), false)]), Default, false, false)
    ensures Filter([a, b, c, d], Record([Prop("person", Obj([Prop("name", Str("Jo"), false)]), false)]), Default) == [a, d]
  {
    RecordOfFour(a, b, c, d, [Prop("person", Obj([Prop("name", Str("Jo"), false)]), false)], Default, true, false, false, true);
  }

  lemma DeepPredicateFacts()
    ensures var e := Obj([Prop("person", Obj([Prop("name", Str("Jo"), false)]), false)]);
      Match(Named("John"), e, Default, false, false) && !Match(Named("Rita"), e, Default, false, false)
      && !Match(Named("Billy"), e, Default, false, false) && Match(Named("Joan"), e, Default, false, false)
  {
    DeepPredicateFactsTexts();
    PersonName("John", "Jo");
    PersonName("Rita", "Jo");
    PersonName("Billy", "Jo");
    PersonName("Joan", "Jo");
  }

  lemma DeepPredicateFactsTexts()
    ensures Substring(Str("John"), Str("Jo"))
    ensures !Substring(Str("Rita"), Str("Jo"))
    ensures !Substring(Str("Billy"), Str("Jo"))
    ensures Substring(Str("Joan"), Str("Jo"))
  {
    JohnHasJo();
    RitaLacksJo();
    BillyLacksJo();
    JoanHasJo();
  }

  /** A person with a name and an email value. */
  function Person(name: string, email: Value): Value {
    Obj([Prop("person", Obj([Prop("name", Str(name), false), Prop("email", email, false)]), false)])
  }

  /** `{person: {name: p, email: '!' + q}}`: the name must contain `p` and the
      email must not contain `q`. */
  lemma PersonNotEmail(x: string, y: string, p: string, q: string)
    requires PlainLeaf(Str(p)) && PlainLeaf(Str(q))
    ensures Match(Person(x, Str(y)),
                  Obj([Prop("person", Obj([Prop("name", Str(p), false), Prop("email", Str("!" + q), false)]), false)]),
                  Default, false, false)
         == (Substring(Str(x), Str(p)) && !Substring(Str(y), Str(q)))
  {
    var inner := [Prop("name", Str(x), false), Prop("email", Str(y), false)];
    var ie := Obj([Prop("name", Str(p), false), Prop("email", Str("!" + q), false)]);
    KeyAt([Prop("person", Obj(inner), false)], 0, ie, false, Default);
    TwoKeys(inner, Prop("name", Str(p), false), Prop("email", Str("!" + q), false), Default);
    KeyAt(inner, 0, Str(p), false, Default);
    KeyAt(inner, 1, Str("!" + q), false, Default);
    LeafComparison(Str(x), Str(p), Default, false, false);
    NegationInverts(Str(y), q, Default, false, false);
    LeafComparison(Str(y), Str(q), Default, false, false);
  }

  /** `{person: {name: 'Jo', email: '!example.com'}}`. */
  const JoNotExample: seq<Prop> :=
    [Prop("person", Obj([Prop("name", Str("Jo"), false), Prop("email", Str("!" + "example.com"), false)]), false)]

  lemma DeepNegation(a: Value, b: Value, c: Value, d: Value, e: Value)
    requires a == Person("Annet", Str("annet@example.com")) && b == Person("Billy", Str("me@billy.com"))
    requires c == Person("Joan", Str("joan@example.net")) && d == Person("John", Str("john@example.com"))
    requires e == Person("Rita", Str("rita@example.com"))
    ensures Filter([a, b, c, d, e], Record(JoNotExample), Default) == [c]
  {
    NotJoName(a, "Annet", "annet@example.com");
    NotJoName(b, "Billy", "me@billy.com");
    JoanNotExample(c);
    JohnAtExample(d);
    NotJoName(e, "Rita", "rita@example.com");
    RecordOfFive(a, b, c, d, e, JoNotExample, Default, false, false, true, false, false);
  }

  /** The record on one person: `Jo` in the name and `example.com` not in the email. */
  lemma JoNotExampleOn(a: Value, x: string, y: string, inName: bool, inEmail: bool)
    requires a == Person(x, Str(y))
    requires Substring(Str(x), Str("Jo")) == inName && Substring(Str(y), Str("example.com")) == inEmail
    ensures Match(a, Obj(JoNotExample), Default, false, false) == (inName && !inEmail)
  {
    PersonNotEmail(x, y, "Jo", "example.com");
  }

  /** Annet, Billy and Rita fail on the name. */
  lemma NotJoName(a: Value, x: string, y: string)
    requires a == Person(x, Str(y))
    requires x == "Annet" || x == "Billy" || x == "Rita"
    ensures !Match(a, Obj(JoNotExample), Default, false, false)
  {
    TextMissing(x, "Jo", 0);
    JoNotExampleOn(a, x, y, false, Substring(Str(y), Str("example.com")));
  }

  /** Joan passes on the name, and her email is not at example.com. */
  lemma JoanNotExample(c: Value)
    requires c == Person("Joan", Str("joan@example.net"))
    ensures Match(c, Obj(JoNotExample), Default, false, false)
  {
    JoanNotExampleTexts();
    JoNotExampleOn(c, "Joan", "joan@example.net", true, false);
  }

  lemma JoanNotExampleTexts()
    ensures Substring(Str("Joan"), Str("Jo"))
    ensures !Substring(Str("joan@example.net"), Str("example.com"))
  {
    JoanHasJo();
    JoanExampleNetLacksExampleCom();
  }

  /** John passes on the name, but his email is at example.com. */
  lemma JohnAtExample(d: Value)
    requires d == Person("John", Str("john@example.com"))
    ensures !Match(d, Obj(JoNotExample), Default, false, false)
  {
    JohnExampleComHasExampleCom();
    JoNotExampleOn(d, "John", "john@example.com", Substring(Str("John"), Str("Jo")), true);
  }

  // ---------------------------------------------------------------------------
  // `$` keys (lines 121-167)

  const TomHevery: Value := Obj([Prop("first", Str("tom"), false), Prop("last", Str("hevery"), false)])
  const AdamHevery: Value := Obj([Prop("first", Str("adam"), false), Prop("last", Str("hevery"), false),
                                  Prop("alias", Str("tom"), false), Prop("done", Bool(false), false)])
  const JohnClark: Value := Obj([Prop("first", Str("john"), false), Prop("last", Str("clark"), false),
                                 Prop("middle", Str("tommy"), false)])

  /** `{$: v}` on objects of two, three and four leaf properties. */
  lemma DollarOnTwo(x: string, y: string, v: Value)
    requires Constrains(v) && PlainLeaf(v)
    ensures Match(Obj([Prop("first", Str(x), false), Prop("last", Str(y), false)]),
                  Obj([Prop("$", v, false)]), Default, false, false)
         == (Substring(Str(x), v) || Substring(Str(y), v))
  {
    DollarTwo(Prop("first", Str(x), false), Prop("last", Str(y), false), v, Default);
    LeafComparison(Str(x), v, Default, true, false);
    LeafComparison(Str(y), v, Default, true, false);
  }

  lemma DollarOnThree(x: string, y: string, z: string, v: Value)
    requires Constrains(v) && PlainLeaf(v)
    ensures Match(Obj([Prop("first", Str(x), false), Prop("last", Str(y), false), Prop("middle", Str(z), false)]),
                  Obj([Prop("$", v, false)]), Default, false, false)
         == (Substring(Str(x), v) || Substring(Str(y), v) || Substring(Str(z), v))
  {
    DollarThree(Prop("first", Str(x), false), Prop("last", Str(y), false), Prop("middle", Str(z), false), v, Default);
    LeafComparison(Str(x), v, Default, true, false);
    LeafComparison(Str(y), v, Default, true, false);
    LeafComparison(Str(z), v, Default, true, false);
  }

  lemma DollarOnFour(x: string, y: string, z: string, w: bool, v: Value)
    requires Constrains(v) && PlainLeaf(v)
    ensures Match(Obj([Prop("first", Str(x), false), Prop("last", Str(y), false),
                       Prop("alias", Str(z), false), Prop("done", Bool(w), false)]),
                  Obj([Prop("$", v, false)]), Default, false, false)
         == (Substring(Str(x), v) || Substring(Str(y), v) || Substring(Str(z), v) || Substring(Bool(w), v))
  {
    DollarFour(Prop("first", Str(x), false), Prop("last", Str(y), false),
               Prop("alias", Str(z), false), Prop("done", Bool(w), false), v, Default);
    LeafComparison(Str(x), v, Default, true, false);
    LeafComparison(Str(y), v, Default, true, false);
    LeafComparison(Str(z), v, Default, true, false);
    LeafComparison(Bool(w), v, Default, true, false);
  }

  lemma DollarTom(a: Value, b: Value, c: Value)
    requires a == TomHevery && b == AdamHevery && c == JohnClark
    ensures Filter([a, b, c], Record([Prop("$", Str("tom"), false)]), Default) == [a, b, c]
  {
    DollarOnTwo("tom", "hevery", Str("tom"));
    DollarOnFour("adam", "hevery", "tom", false, Str("tom"));
    DollarOnThree("john", "clark", "tommy", Str("tom"));
    DollarTomTexts();
    DollarTomDecided(a, b, c);
  }

  /** The decisions of `DollarTom` put together, away from the items' contents. */
  lemma DollarTomDecided(a: Value, b: Value, c: Value)
    requires Match(a, Obj([Prop("$", Str("tom"), false)]), Default, false, false)
    requires Match(b, Obj([Prop("$", Str("tom"), false)]), Default, false, false)
    requires Match(c, Obj([Prop("$", Str("tom"), false)]), Default, false, false)
    ensures Filter([a, b, c], Record([Prop("$", Str("tom"), false)]), Default) == [a, b, c]
  {
    RecordOfThree(a, b, c, [Prop("$", Str("tom"), false)], Default, true, true, true);
  }

  lemma DollarTomTexts()
    ensures Substring(Str("tom"), Str("tom"))
    ensures Substring(Str("tommy"), Str("tom"))
  {
    TomHasTom();
    TommyHasTom();
  }

  lemma DollarA(a: Value, b: Value, c: Value)
    requires a == TomHevery && b == AdamHevery && c == JohnClark
    ensures Filter([a, b, c], Record([Prop("$", Str("a"), false)]), Default) == [b, c]
  {
    DollarAOnTomHevery();
    DollarAOnAdamHevery();
    DollarAOnJohnClark();
    RecordOfThree(a, b, c, [Prop("$", Str("a"), false)], Default, false, true, true);
  }

  lemma DollarAOnTomHevery()
    ensures !Match(TomHevery, Obj([Prop("$", Str("a"), false)]), Default, false, false)
  {
    DollarOnTwo("tom", "hevery", Str("a"));
    TomLacksA();
    HeveryLacksA();
  }

  lemma DollarAOnAdamHevery()
    ensures Match(AdamHevery, Obj([Prop("$", Str("a"), false)]), Default, false, false)
  {
    DollarOnFour("adam", "hevery", "tom", false, Str("a"));
    AdamHasA();
  }

  lemma DollarAOnJohnClark()
    ensures Match(JohnClark, Obj([Prop("$", Str("a"), false)]), Default, false, false)
  {
    DollarOnThree("john", "clark", "tommy", Str("a"));
    ClarkHasA();
  }

  lemma DollarFalse(a: Value, b: Value, c: Value)
    requires a == TomHevery && b == AdamHevery && c == JohnClark
    ensures Filter([a, b, c], Record([Prop("$", Bool(false), false)]), Default) == [b]
  {
    DollarFalseOnTomHevery();
    DollarFalseOnAdamHevery();
    DollarFalseOnJohnClark();
    RecordOfThree(a, b, c, [Prop("$", Bool(false), false)], Default, false, true, false);
  }

  lemma DollarFalseOnTomHevery()
    ensures !Match(TomHevery, Obj([Prop("$", Bool(false), false)]), Default, false, false)
  {
    DollarOnTwo("tom", "hevery", Bool(false));
    AsText(Str("tom"), Bool(false));
    AsText(Str("hevery"), Bool(false));
    DollarFalseOnTomHeveryTexts();
  }

  lemma DollarFalseOnTomHeveryTexts()
    ensures !Substring(Str("tom"), Str("false"))
    ensures !Substring(Str("hevery"), Str("false"))
  {
    TomLacksFalse();
    HeveryLacksFalse();
  }

  lemma DollarFalseOnAdamHevery()
    ensures Match(AdamHevery, Obj([Prop("$", Bool(false), false)]), Default, false, false)
  {
    DollarOnFour("adam", "hevery", "tom", false, Bool(false));
    BooleanExact(false, false);
  }

  lemma DollarFalseOnJohnClark()
    ensures !Match(JohnClark, Obj([Prop("$", Bool(false), false)]), Default, false, false)
  {
    DollarOnThree("john", "clark", "tommy", Bool(false));
    AsText(Str("john"), Bool(false));
    AsText(Str("clark"), Bool(false));
    AsText(Str("tommy"), Bool(false));
    DollarFalseOnJohnClarkTexts();
  }

  lemma DollarFalseOnJohnClarkTexts()
    ensures !Substring(Str("john"), Str("false"))
    ensures !Substring(Str("clark"), Str("false"))
    ensures !Substring(Str("tommy"), Str("false"))
  {
    JohnLacksFalse();
    ClarkLacksFalse();
    TommyLacksFalse();
  }

  lemma DollarTen(a: Value, b: Value, c: Value)
    requires a == TomHevery && b == AdamHevery && c == JohnClark
    ensures Filter([a, b, c], Record([Prop("$", Num(10), false)]), Default) == []
  {
    DollarTenOnTomHevery();
    DollarTenOnAdamHevery();
    DollarTenOnJohnClark();
    RecordOfThree(a, b, c, [Prop("$", Num(10), false)], Default, false, false, false);
  }

  /** Against `10`, a leaf is searched for the text `10`. */
  lemma TenAsText(a: Value)
    requires !IsObject(a) && !a.Undefined?
    ensures Substring(a, Num(10)) == Substring(Str(TextOf(a)), Str("10"))
  {
    assert TextOf(Num(10)) == "10";
    AsText(a, Num(10));
  }

  lemma DollarTenOnTomHevery()
    ensures !Match(TomHevery, Obj([Prop("$", Num(10), false)]), Default, false, false)
  {
    DollarOnTwo("tom", "hevery", Num(10));
    TenAsText(Str("tom"));
    TenAsText(Str("hevery"));
    DollarTenOnTomHeveryTexts();
  }

  lemma DollarTenOnTomHeveryTexts()
    ensures !Substring(Str("tom"), Str("10"))
    ensures !Substring(Str("hevery"), Str("10"))
  {
    TomLacks10();
    HeveryLacks10();
  }

  lemma DollarTenOnAdamHevery()
    ensures !Match(AdamHevery, Obj([Prop("$", Num(10), false)]), Default, false, false)
  {
    DollarOnFour("adam", "hevery", "tom", false, Num(10));
    TenAsText(Str("adam"));
    TenAsText(Str("hevery"));
    TenAsText(Str("tom"));
    TenAsText(Bool(false));
    DollarTenOnAdamHeveryTexts();
  }

  lemma DollarTenOnAdamHeveryTexts()
    ensures !Substring(Str("adam"), Str("10"))
    ensures !Substring(Str("hevery"), Str("10"))
    ensures !Substring(Str("tom"), Str("10"))
    ensures !Substring(Str("false"), Str("10"))
  {
    AdamLacks10();
    HeveryLacks10();
    TomLacks10();
    FalseLacks10();
  }

  lemma DollarTenOnJohnClark()
    ensures !Match(JohnClark, Obj([Prop("$", Num(10), false)]), Default, false, false)
  {
    DollarOnThree("john", "clark", "tommy", Num(10));
    TenAsText(Str("john"));
    TenAsText(Str("clark"));
    TenAsText(Str("tommy"));
    DollarTenOnJohnClarkTexts();
  }

  lemma DollarTenOnJohnClarkTexts()
    ensures !Substring(Str("john"), Str("10"))
    ensures !Substring(Str("clark"), Str("10"))
    ensures !Substring(Str("tommy"), Str("10"))
  {
    JohnLacks10();
    ClarkLacks10();
    TommyLacks10();
  }

  lemma DollarHevery(a: Value, b: Value, c: Value)
    requires a == TomHevery && b == AdamHevery && c == JohnClark
    ensures Filter([a, b, c], Record([Prop("$", Str("hevery"), false)]), Default) == [a, b]
  {
    DollarHeveryOnTomHevery();
    DollarHeveryOnAdamHevery();
    DollarHeveryOnJohnClark();
    RecordOfThree(a, b, c, [Prop("$", Str("hevery"), false)], Default, true, true, false);
  }

  lemma DollarHeveryOnTomHevery()
    ensures Match(TomHevery, Obj([Prop("$", Str("hevery"), false)]), Default, false, false)
  {
    DollarOnTwo("tom", "hevery", Str("hevery"));
    HeveryHasHevery();
  }

  lemma DollarHeveryOnAdamHevery()
    ensures Match(AdamHevery, Obj([Prop("$", Str("hevery"), false)]), Default, false, false)
  {
    DollarOnFour("adam", "hevery", "tom", false, Str("hevery"));
    HeveryHasHevery();
  }

  lemma DollarHeveryOnJohnClark()
    ensures !Match(JohnClark, Obj([Prop("$", Str("hevery"), false)]), Default, false, false)
  {
    DollarOnThree("john", "clark", "tommy", Str("hevery"));
    DollarHeveryOnJohnClarkTexts();
  }

  lemma DollarHeveryOnJohnClarkTexts()
    ensures !Substring(Str("john"), Str("hevery"))
    ensures !Substring(Str("clark"), Str("hevery"))
    ensures !Substring(Str("tommy"), Str("hevery"))
  {
    JohnLacksHevery();
    ClarkLacksHevery();
    TommyLacksHevery();
  }

  /** `{person: {$: q}}`: the text is searched in the name and in the email,
      at the level of `person` and below. */
  lemma PersonDollar(x: string, email: Value, q: string)
    requires PlainLeaf(Str(q))
    ensures Match(Person(x, email), Obj([Prop("person", Obj([Prop("$", Str(q), false)]), false)]), Default, false, false)
         == (Substring(Str(x), Str(q)) || Match(email, Str(q), Default, true, false))
  {
    var inner := [Prop("name", Str(x), false), Prop("email", email, false)];
    KeyAt([Prop("person", Obj(inner), false)], 0, Obj([Prop("$", Str(q), false)]), false, Default);
    DollarTwo(inner[0], inner[1], Str(q), Default);
    LeafComparison(Str(x), Str(q), Default, true, false);
  }

  const NetExpression: seq<Prop> := [Prop("person", Obj([Prop("$", Str("net"), false)]), false)]

  lemma NestedDollar(a: Value, b: Value, c: Value, d: Value, e: Value)
    requires a == Person("Annet", Str("annet@example.com")) && b == Person("Billy", Str("me@billy.com"))
    requires c == Person("Joan", Str("joan@example.net")) && d == Person("John", Str("john@example.com"))
    requires e == Person("Rita", Str("rita@example.com"))
    ensures Filter([a, b, c, d, e], Record(NetExpression), Default) == [a, c]
  {
    NetAnnet(a);
    NetBilly(b);
    NetJoan(c);
    NetJohn(d);
    NetRita(e);
    NetOfFive(a, b, c, d, e);
  }

  lemma NetOfFive(a: Value, b: Value, c: Value, d: Value, e: Value)
    requires Match(a, Obj(NetExpression), Default, false, false) && !Match(b, Obj(NetExpression), Default, false, false)
    requires Match(c, Obj(NetExpression), Default, false, false) && !Match(d, Obj(NetExpression), Default, false, false)
    requires !Match(e, Obj(NetExpression), Default, false, false)
    ensures Filter([a, b, c, d, e], Record(NetExpression), Default) == [a, c]
  {
    RecordOfFive(a, b, c, d, e, NetExpression, Default, true, false, true, false, false);
  }

  /** `{person: {$: 'net'}}` on a person whose email is a text: `net` in the
      name or in the email. */
  lemma NetPerson(a: Value, x: string, email: string, inName: bool, inEmail: bool)
    requires a == Person(x, Str(email))
    requires Substring(Str(x), Str("net")) == inName && Substring(Str(email), Str("net")) == inEmail
    ensures Match(a, Obj(NetExpression), Default, false, false) == (inName || inEmail)
  {
    PersonDollar(x, Str(email), "net");
    LeafComparison(Str(email), Str("net"), Default, true, false);
  }

  lemma NetAnnet(a: Value)
    requires a == Person("Annet", Str("annet@example.com"))
    ensures Match(a, Obj(NetExpression), Default, false, false)
  {
    AnnetHasNet();
    NetPerson(a, "Annet", "annet@example.com", true, Substring(Str("annet@example.com"), Str("net")));
  }

  lemma NetBilly(b: Value)
    requires b == Person("Billy", Str("me@billy.com"))
    ensures !Match(b, Obj(NetExpression), Default, false, false)
  {
    NetBillyTexts();
    NetPerson(b, "Billy", "me@billy.com", false, false);
  }

  lemma NetBillyTexts()
    ensures !Substring(Str("Billy"), Str("net"))
    ensures !Substring(Str("me@billy.com"), Str("net"))
  {
    BillyLacksNet();
    MeBillyComLacksNet();
  }

  lemma NetJoan(c: Value)
    requires c == Person("Joan", Str("joan@example.net"))
    ensures Match(c, Obj(NetExpression), Default, false, false)
  {
    JoanExampleNetHasNet();
    NetPerson(c, "Joan", "joan@example.net", Substring(Str("Joan"), Str("net")), true);
  }

  lemma NetJohn(d: Value)
    requires d == Person("John", Str("john@example.com"))
    ensures !Match(d, Obj(NetExpression), Default, false, false)
  {
    JohnRecordLacksNet();
    NetPerson(d, "John", "john@example.com", false, false);
  }

  lemma JohnRecordLacksNet()
    ensures !Substring(Str("John"), Str("net")) && !Substring(Str("john@example.com"), Str("net"))
  {
    JohnLacksNet();
    JohnExampleComLacksNet();
  }

  lemma NetRita(e: Value)
    requires e == Person("Rita", Str("rita@example.com"))
    ensures !Match(e, Obj(NetExpression), Default, false, false)
  {
    NetRitaTexts();
    NetPerson(e, "Rita", "rita@example.com", false, false);
  }

  lemma NetRitaTexts()
    ensures !Substring(Str("Rita"), Str("net"))
    ensures !Substring(Str("rita@example.com"), Str("net"))
  {
    RitaLacksNet();
    RitaExampleComLacksNet();
  }

  /** Joan's email is itself an object: the `$` search goes below it. */
  function JoanTwoEmails(): Value {
    Person("Joan", Obj([Prop("home", Str("me@joan.com"), false), Prop("work", Str("joan@example.net"), false)]))
  }

  lemma DeeperDollar(a: Value, b: Value, c: Value)
    requires a == Person("Annet", Str("annet@example.com")) && b == Person("Billy", Str("me@billy.com"))
    requires c == JoanTwoEmails()
    ensures Filter([a, b, c], Record(NetExpression), Default) == [a, c]
  {
    NetAnnet(a);
    NetBilly(b);
    NetJoanWork(c);
    RecordOfThree(a, b, c, NetExpression, Default, true, false, true);
  }

  lemma NetJoanWork(c: Value)
    requires c == JoanTwoEmails()
    ensures Match(c, Obj(NetExpression), Default, false, false)
  {
    var email := Obj([Prop("home", Str("me@joan.com"), false), Prop("work", Str("joan@example.net"), false)]);
    PersonDollar("Joan", email, "net");
    SearchTwo("home", Str("me@joan.com"), "work", Str("joan@example.net"), Str("net"), Default);
    LeafComparison(Str("joan@example.net"), Str("net"), Default, true, false);
    NetJoanWorkTexts();
  }

  lemma NetJoanWorkTexts()
    ensures Substring(Str("joan@example.net"), Str("net"))
  {
    JoanExampleNetHasNet();
  }

  /** A person under a supervisor. */
  function Supervised(name: string, email: string): Value {
    Obj([Prop("supervisor", Str("me"), false),
         Prop("person", Obj([Prop("name", Str(name), false), Prop("email", Str(email), false)]), false)])
  }

  const MeTwoLevels: seq<Prop> := [Prop("$", Obj([Prop("$", Str("me"), false)]), false)]

  /** `{$: {$: q}}` needs an object property one level down whose values hold
      `q`; the supervisor's text at the top level is not searched. */
  lemma SupervisedDollar(x: string, y: string, q: string)
    requires PlainLeaf(Str(q))
    ensures Match(Obj([Prop("supervisor", Str("me"), false),
                       Prop("person", Obj([Prop("name", Str(x), false), Prop("email", Str(y), false)]), false)]),
                  Obj([Prop("$", Obj([Prop("$", Str(q), false)]), false)]), Default, false, false)
         == (Substring(Str(x), Str(q)) || Substring(Str(y), Str(q)))
  {
    var inner := [Prop("name", Str(x), false), Prop("email", Str(y), false)];
    var p := Obj(inner);
    var e1 := Obj([Prop("$", Str(q), false)]);
    DollarTwo(Prop("supervisor", Str("me"), false), Prop("person", p, false), e1, Default);
    assert !Match(Str("me"), e1, Default, true, false) by {
      assert !Core(Str("me"), e1, 0, Default, true, false);
    }
    assert Match(p, e1, Default, true, false) == Match(p, Str(q), Default, true, true) by {
      assert !Core(Str(x), e1, 0, Default, true, false);
      assert !Core(Str(y), e1, 0, Default, true, false);
      assert FirstOfName(inner, 0) && FirstOfName(inner, 1);
      assert Core(p, e1, 0, Default, true, false) == Core(p, e1, 0, Default, false, false);
      SingleKey(inner, "$", Str(q), false, Default);
    }
    assert Match(p, Str(q), Default, true, true) == (Substring(Str(x), Str(q)) || Substring(Str(y), Str(q))) by {
      LeafComparison(Str(x), Str(q), Default, true, false);
      LeafComparison(Str(y), Str(q), Default, true, false);
      assert FirstOfName(inner, 0) && FirstOfName(inner, 1);
    }
  }

  lemma NestingOfDollar(a: Value, b: Value, c: Value, d: Value, e: Value)
    requires a == Supervised("Annet", "annet@example.com") && b == Supervised("Billy", "me@billy.com")
    requires c == Supervised("Joan", "joan@example.net") && d == Supervised("John", "john@example.com")
    requires e == Supervised("Rita", "rita@example.com")
    ensures Filter([a, b, c, d, e], Record(MeTwoLevels), Default) == [b]
  {
    MeAnnet();
    MeBilly();
    MeJoan();
    MeJohn();
    MeRita();
    RecordOfFive(a, b, c, d, e, MeTwoLevels, Default, false, true, false, false, false);
  }

  lemma MeAnnet()
    ensures !Match(Supervised("Annet", "annet@example.com"), Obj(MeTwoLevels), Default, false, false)
  {
    SupervisedDollar("Annet", "annet@example.com", "me");
    MeAnnetTexts();
  }

  lemma MeAnnetTexts()
    ensures !Substring(Str("Annet"), Str("me"))
    ensures !Substring(Str("annet@example.com"), Str("me"))
  {
    AnnetLacksMe();
    AnnetExampleComLacksMe();
  }

  lemma MeBilly()
    ensures Match(Supervised("Billy", "me@billy.com"), Obj(MeTwoLevels), Default, false, false)
  {
    SupervisedDollar("Billy", "me@billy.com", "me");
    MeBillyComHasMe();
  }

  lemma MeJoan()
    ensures !Match(Supervised("Joan", "joan@example.net"), Obj(MeTwoLevels), Default, false, false)
  {
    SupervisedDollar("Joan", "joan@example.net", "me");
    MeJoanTexts();
  }

  lemma MeJoanTexts()
    ensures !Substring(Str("Joan"), Str("me"))
    ensures !Substring(Str("joan@example.net"), Str("me"))
  {
    JoanLacksMe();
    JoanExampleNetLacksMe();
  }

  lemma MeJohn()
    ensures !Match(Supervised("John", "john@example.com"), Obj(MeTwoLevels), Default, false, false)
  {
    SupervisedDollar("John", "john@example.com", "me");
    JohnLacksMe();
    JohnExampleComLacksMe();
  }

  lemma MeRita()
    ensures !Match(Supervised("Rita", "rita@example.com"), Obj(MeTwoLevels), Default, false, false)
  {
    SupervisedDollar("Rita", "rita@example.com", "me");
    RitaLacksMe();
    RitaExampleComLacksMe();
  }

  // ---------------------------------------------------------------------------
  // Boolean properties (lines 170-179)

  lemma BooleanProperties(a: Value, b: Value, c: Value, w: bool)
    requires a == Obj([Prop("name", Str("tom"), false), Prop("current", Bool(true), false)])
    requires b == Obj([Prop("name", Str("demi"), false), Prop("current", Bool(false), false)])
    requires c == Obj([Prop("name", Str("sofia"), false)])
    ensures Filter([a, b, c], Record([Prop("current", Bool(w), false)]), Default) == if w then [a] else [b]
  {
    var e := Bool(w);
    BooleanExact(true, w);
    BooleanExact(false, w);
    LeafComparison(Bool(true), e, Default, false, false);
    LeafComparison(Bool(false), e, Default, false, false);
    LeafComparison(Undefined, e, Default, false, false);
    KeyAt(a.props, 1, e, false, Default);
    KeyAt(b.props, 1, e, false, Default);
    KeyMissing(c.props, "current", e, false, Default);
    RecordOfThree(a, b, c, [Prop("current", e, false)], Default, w, !w, false);
  }

  // ---------------------------------------------------------------------------
  // Negation (lines 182-187)

  lemma NegatedText(a: Value, b: Value)
    requires a == Str("misko") && b == Str("adam")
    ensures Filter([a, b], Search(Str("!isk")), Default) == [b]
  {
    NegatedIsk(a, true);
    NegatedIsk(b, false);
    SearchOfTwo(a, b, Str("!isk"), Default, false, true);
  }

  /** `'!isk'` drops `misko`, which holds `isk`, and keeps `adam`. */
  lemma NegatedIsk(a: Value, holds: bool)
    requires a == (if holds then Str("misko") else Str("adam"))
    ensures Match(a, Str("!isk"), Default, true, false) == !holds
  {
    assert "!isk" == "!" + "isk";
    NegationInverts(a, "isk", Default, true, false);
    LeafComparison(a, Str("isk"), Default, true, false);
    if holds {
      MiskoHasIsk();
    } else {
      AdamLacksIsk();
    }
  }

  // ---------------------------------------------------------------------------
  // Function-valued and inherited properties (lines 190-302)

  /** The item of these examples: a `text` property first, then others. */
  lemma TextKey(ps: seq<Prop>, x: string, p: string, cmp: Comparator)
    requires |ps| > 0 && ps[0] == Prop("text", Str(x), false) && PlainLeaf(Str(p))
    ensures Match(Obj(ps), Obj([Prop("text", Str(p), false)]), cmp, false, false) == CompareLeaf(cmp, Str(x), Str(p))
  {
    KeyAt(ps, 0, Str(p), false, cmp);
    LeafComparison(Str(x), Str(p), cmp, false, false);
  }

  /** Of the four texts of these examples only `hello` matches `hello`, with
      either comparator. */
  lemma HelloLeaves(cmp: Comparator)
    requires cmp == Default || cmp == Strict
    ensures CompareLeaf(cmp, Str("hello"), Str("hello"))
    ensures !CompareLeaf(cmp, Str("goodbye"), Str("hello"))
    ensures !CompareLeaf(cmp, Str("kittens"), Str("hello"))
    ensures !CompareLeaf(cmp, Str("puppies"), Str("hello"))
  {
    if cmp == Default {
      HelloHasHello();
      GoodbyeLacksHello();
      KittensLacksHello();
      PuppiesLacksHello();
    }
  }

  lemma FunctionsInItems(cmp: Comparator, a: Value, b: Value, c: Value, d: Value)
    requires cmp == Default || cmp == Strict
    requires a == Obj([Prop("text", Str("hello"), false), Prop("func", Func, false)])
    requires b == Obj([Prop("text", Str("goodbye"), false)]) && c == Obj([Prop("text", Str("kittens"), false)])
    requires d == Obj([Prop("text", Str("puppies"), false)])
    ensures Filter([a, b, c, d], Record([Prop("text", Str("hello"), false)]), cmp) == [a]
  {
    HelloLeaves(cmp);
    TextKey(a.props, "hello", "hello", cmp);
    TextKey(b.props, "goodbye", "hello", cmp);
    TextKey(c.props, "kittens", "hello", cmp);
    TextKey(d.props, "puppies", "hello", cmp);
    RecordOfFour(a, b, c, d, [Prop("text", Str("hello"), false)], cmp, true, false, false, false);
  }

  lemma InheritedFunctionsInItems(cmp: Comparator, a: Value, b: Value, c: Value, d: Value)
    requires cmp == Default || cmp == Strict
    requires a == Obj([Prop("text", Str("hello"), false), Prop("func", Func, true)])
    requires b == Obj([Prop("text", Str("goodbye"), false), Prop("func", Func, true)])
    requires c == Obj([Prop("text", Str("kittens"), false), Prop("func", Func, true)])
    requires d == Obj([Prop("text", Str("puppies"), false), Prop("func", Func, true)])
    ensures Filter([a, b, c, d], Record([Prop("text", Str("hello"), false)]), cmp) == [a]
  {
    HelloLeaves(cmp);
    TextKey(a.props, "hello", "hello", cmp);
    TextKey(b.props, "goodbye", "hello", cmp);
    TextKey(c.props, "kittens", "hello", cmp);
    TextKey(d.props, "puppies", "hello", cmp);
    RecordOfFour(a, b, c, d, [Prop("text", Str("hello"), false)], cmp, true, false, false, false);
  }

  /** A function entry of the expression, own or inherited, is skipped. */
  lemma FunctionKeySkipped(x: string, inh: bool, cmp: Comparator)
    ensures Match(Obj([Prop("text", Str(x), false)]),
                  Obj([Prop("text", Str("hello"), false), Prop("func", Func, inh)]), cmp, false, false)
         == CompareLeaf(cmp, Str(x), Str("hello"))
  {
    assert [Prop("text", Str("hello"), false)] + [Prop("func", Func, inh)]
        == [Prop("text", Str("hello"), false), Prop("func", Func, inh)];
    FunctionEntryIgnored([Prop("text", Str(x), false)], [Prop("text", Str("hello"), false)], Prop("func", Func, inh), cmp);
    TextKey([Prop("text", Str(x), false)], x, "hello", cmp);
  }

  lemma FunctionsInExpression(cmp: Comparator, inh: bool, a: Value, b: Value, c: Value, d: Value)
    requires cmp == Default || cmp == Strict
    requires a == Obj([Prop("text", Str("hello"), false)]) && b == Obj([Prop("text", Str("goodbye"), false)])
    requires c == Obj([Prop("text", Str("kittens"), false)]) && d == Obj([Prop("text", Str("puppies"), false)])
    ensures Filter([a, b, c, d], Record([Prop("text", Str("hello"), false), Prop("func", Func, inh)]), cmp) == [a]
  {
    HelloLeaves(cmp);
    FunctionKeySkipped("hello", inh, cmp);
    FunctionKeySkipped("goodbye", inh, cmp);
    FunctionKeySkipped("kittens", inh, cmp);
    FunctionKeySkipped("puppies", inh, cmp);
    RecordOfFour(a, b, c, d, [Prop("text", Str("hello"), false), Prop("func", Func, inh)], cmp, true, false, false, false);
  }

  /** An item whose `doubleL` is inherited, against `{text: p, doubleL: q}`. */
  lemma InheritedItemKey(x: string, p: string, q: string, cmp: Comparator)
    requires PlainLeaf(Str(p)) && PlainLeaf(Str(q))
    ensures Match(Obj([Prop("text", Str(x), false), Prop("doubleL", Str("maybe"), true)]),
                  Obj([Prop("text", Str(p), false), Prop("doubleL", Str(q), false)]), cmp, false, false)
         == (CompareLeaf(cmp, Str(x), Str(p)) && CompareLeaf(cmp, Str("maybe"), Str(q)))
  {
    var ps := [Prop("text", Str(x), false), Prop("doubleL", Str("maybe"), true)];
    TwoKeys(ps, Prop("text", Str(p), false), Prop("doubleL", Str(q), false), cmp);
    TextKey(ps, x, p, cmp);
    KeyAt(ps, 1, Str(q), false, cmp);
    LeafComparison(Str("maybe"), Str(q), cmp, false, false);
  }

  lemma InheritedPropertiesInItems(cmp: Comparator, a: Value, b: Value, c: Value, d: Value)
    requires cmp == Default || cmp == Strict
    requires a == Obj([Prop("text", Str("hello"), false), Prop("doubleL", Str("maybe"), true)])
    requires b == Obj([Prop("text", Str("goodbye"), false), Prop("doubleL", Str("maybe"), true)])
    requires c == Obj([Prop("text", Str("kittens"), false), Prop("doubleL", Str("maybe"), true)])
    requires d == Obj([Prop("text", Str("puppies"), false), Prop("doubleL", Str("maybe"), true)])
    ensures Filter([a, b, c, d], Record([Prop("text", Str("hello"), false), Prop("doubleL", Str("perhaps"), false)]), cmp) == []
    ensures Filter([a, b, c, d], Record([Prop("text", Str("hello"), false), Prop("doubleL", Str("maybe"), false)]), cmp) == [a]
  {
    InheritedPerhaps(cmp, a, b, c, d);
    InheritedMaybe(cmp, a, b, c, d);
  }

  lemma InheritedPerhaps(cmp: Comparator, a: Value, b: Value, c: Value, d: Value)
    requires cmp == Default || cmp == Strict
    requires a == Obj([Prop("text", Str("hello"), false), Prop("doubleL", Str("maybe"), true)])
    requires b == Obj([Prop("text", Str("goodbye"), false), Prop("doubleL", Str("maybe"), true)])
    requires c == Obj([Prop("text", Str("kittens"), false), Prop("doubleL", Str("maybe"), true)])
    requires d == Obj([Prop("text", Str("puppies"), false), Prop("doubleL", Str("maybe"), true)])
    ensures Filter([a, b, c, d], Record([Prop("text", Str("hello"), false), Prop("doubleL", Str("perhaps"), false)]), cmp) == []
  {
    if cmp == Default {
      MaybeLacksPerhaps();
    }
    InheritedItemKey("hello", "hello", "perhaps", cmp);
    InheritedItemKey("goodbye", "hello", "perhaps", cmp);
    InheritedItemKey("kittens", "hello", "perhaps", cmp);
    InheritedItemKey("puppies", "hello", "perhaps", cmp);
    RecordOfFour(a, b, c, d, [Prop("text", Str("hello"), false), Prop("doubleL", Str("perhaps"), false)], cmp,
                 false, false, false, false);
  }

  lemma InheritedMaybe(cmp: Comparator, a: Value, b: Value, c: Value, d: Value)
    requires cmp == Default || cmp == Strict
    requires a == Obj([Prop("text", Str("hello"), false), Prop("doubleL", Str("maybe"), true)])
    requires b == Obj([Prop("text", Str("goodbye"), false), Prop("doubleL", Str("maybe"), true)])
    requires c == Obj([Prop("text", Str("kittens"), false), Prop("doubleL", Str("maybe"), true)])
    requires d == Obj([Prop("text", Str("puppies"), false), Prop("doubleL", Str("maybe"), true)])
    ensures Filter([a, b, c, d], Record([Prop("text", Str("hello"), false), Prop("doubleL", Str("maybe"), false)]), cmp) == [a]
  {
    HelloLeaves(cmp);
    MaybeLeaf(cmp);
    InheritedItemKey("hello", "hello", "maybe", cmp);
    InheritedItemKey("goodbye", "hello", "maybe", cmp);
    InheritedItemKey("kittens", "hello", "maybe", cmp);
    InheritedItemKey("puppies", "hello", "maybe", cmp);
    RecordOfFour(a, b, c, d, [Prop("text", Str("hello"), false), Prop("doubleL", Str("maybe"), false)], cmp,
                 true, false, false, false);
  }

  lemma MaybeLeaf(cmp: Comparator)
    requires cmp == Default || cmp == Strict
    ensures CompareLeaf(cmp, Str("maybe"), Str("maybe"))
  {
    if cmp == Default {
      MaybeHasMaybe();
    }
  }

  /** An expression `{text: p}` that inherits `doubleL: true`. */
  function DoubleLExpression(p: string): seq<Prop> {
    [Prop("text", Str(p), false), Prop("doubleL", Bool(true), true)]
  }

  /** The inherited `doubleL` takes part: an item without it never matches... */
  lemma InheritedKeyMissing(x: string, p: string, cmp: Comparator)
    requires cmp == Default || cmp == Strict
    ensures !Match(Obj([Prop("text", Str(x), false)]), Obj(DoubleLExpression(p)), cmp, false, false)
  {
    var ps := [Prop("text", Str(x), false)];
    TwoKeys(ps, Prop("text", Str(p), false), Prop("doubleL", Bool(true), true), cmp);
    KeyMissing(ps, "doubleL", Bool(true), true, cmp);
    LeafComparison(Undefined, Bool(true), cmp, false, false);
    BooleanExact(true, true);
  }

  /** ...and the item that has it matches on its text. */
  lemma InheritedKeyPresent(x: string, p: string, cmp: Comparator)
    requires (cmp == Default || cmp == Strict) && PlainLeaf(Str(p))
    ensures Match(Obj([Prop("text", Str(x), false), Prop("doubleL", Bool(true), false)]), Obj(DoubleLExpression(p)), cmp, false, false)
         == CompareLeaf(cmp, Str(x), Str(p))
  {
    var ps := [Prop("text", Str(x), false), Prop("doubleL", Bool(true), false)];
    TwoKeys(ps, Prop("text", Str(p), false), Prop("doubleL", Bool(true), true), cmp);
    TextKey(ps, x, p, cmp);
    KeyAt(ps, 1, Bool(true), true, cmp);
    LeafComparison(Bool(true), Bool(true), cmp, false, false);
    BooleanExact(true, true);
  }

  lemma InheritedPropertiesInExpression(a: Value, b: Value, c: Value, d: Value)
    requires a == Obj([Prop("text", Str("hello"), false), Prop("doubleL", Bool(true), false)])
    requires b == Obj([Prop("text", Str("goodbye"), false)]) && c == Obj([Prop("text", Str("kittens"), false)])
    requires d == Obj([Prop("text", Str("puppies"), false)])
    ensures Filter([a, b, c, d], Record(DoubleLExpression("e")), Default) == [a]
    ensures Filter([a, b, c, d], Record(DoubleLExpression("hello")), Strict) == [a]
    ensures Filter([a, b, c, d], Record(DoubleLExpression("hello")), Default) == [a]
  {
    InheritedExpressionE(a, b, c, d);
    InheritedExpressionHello(Strict, a, b, c, d);
    InheritedExpressionHello(Default, a, b, c, d);
  }

  lemma InheritedExpressionE(a: Value, b: Value, c: Value, d: Value)
    requires a == Obj([Prop("text", Str("hello"), false), Prop("doubleL", Bool(true), false)])
    requires b == Obj([Prop("text", Str("goodbye"), false)]) && c == Obj([Prop("text", Str("kittens"), false)])
    requires d == Obj([Prop("text", Str("puppies"), false)])
    ensures Filter([a, b, c, d], Record(DoubleLExpression("e")), Default) == [a]
  {
    InheritedExpressionETexts();
    InheritedKeyPresent("hello", "e", Default);
    InheritedKeyMissing("goodbye", "e", Default);
    InheritedKeyMissing("kittens", "e", Default);
    InheritedKeyMissing("puppies", "e", Default);
    RecordOfFour(a, b, c, d, DoubleLExpression("e"), Default, true, false, false, false);
  }

  lemma InheritedExpressionETexts()
    ensures Substring(Str("hello"), Str("e"))
  {
    TextFound("hello", "e", 1);
  }

  lemma InheritedExpressionHello(cmp: Comparator, a: Value, b: Value, c: Value, d: Value)
    requires cmp == Default || cmp == Strict
    requires a == Obj([Prop("text", Str("hello"), false), Prop("doubleL", Bool(true), false)])
    requires b == Obj([Prop("text", Str("goodbye"), false)]) && c == Obj([Prop("text", Str("kittens"), false)])
    requires d == Obj([Prop("text", Str("puppies"), false)])
    ensures Filter([a, b, c, d], Record(DoubleLExpression("hello")), cmp) == [a]
  {
    HelloLeaves(cmp);
    InheritedKeyPresent("hello", "hello", cmp);
    InheritedKeyMissing("goodbye", "hello", cmp);
    InheritedKeyMissing("kittens", "hello", cmp);
    InheritedKeyMissing("puppies", "hello", cmp);
    RecordOfFour(a, b, c, d, DoubleLExpression("hello"), cmp, true, false, false, false);
  }

  // ---------------------------------------------------------------------------
  // A property added to every object's prototype (lines 305-330). The items have
  // no prototype; an expression object inherits `someProp: 'oo'`, which is an
  // inherited entry of the expression here.

  function ProtoItem(x: string): Value {
    Obj([Prop("someProp", Str(x), false)])
  }

  /** `{}` with the inherited `someProp: 'oo'`. */
  lemma ProtoEmptyRecord(a: Value, x: string)
    requires a == ProtoItem(x)
    ensures Match(a, Obj([Prop("someProp", Str("oo"), true)]), Default, false, false)
         == Substring(Str(x), Str("oo"))
  {
    KeyAt([Prop("someProp", Str(x), false)], 0, Str("oo"), true, Default);
    LeafComparison(Str(x), Str("oo"), Default, false, false);
  }

  /** `{$: 'll'}` with the inherited `someProp: 'oo'`. */
  lemma ProtoDollar(a: Value, x: string)
    requires a == ProtoItem(x)
    ensures Match(a, Obj([Prop("$", Str("ll"), false), Prop("someProp", Str("oo"), true)]), Default, false, false)
         == (Substring(Str(x), Str("ll")) && Substring(Str(x), Str("oo")))
  {
    var ps := [Prop("someProp", Str(x), false)];
    TwoKeys(ps, Prop("$", Str("ll"), false), Prop("someProp", Str("oo"), true), Default);
    DollarSearchesProperties(ps, Str("ll"), false, Default);
    assert FirstOfName(ps, 0);
    LeafComparison(Str(x), Str("ll"), Default, true, false);
    ProtoEmptyRecord(a, x);
  }

  lemma PrototypeProperty(a: Value, b: Value, c: Value, d: Value)
    requires a == ProtoItem("hello") && b == ProtoItem("goodbye") && c == ProtoItem("kittens") && d == ProtoItem("puppies")
    ensures Filter([a, b, c, d], Record([Prop("someProp", Str("oo"), true)]), Default) == [b]
    ensures Filter([a, b, c, d], Record([Prop("$", Str("ll"), false), Prop("someProp", Str("oo"), true)]), Default) == []
    ensures Filter([a, b, c, d], Search(Str("ll")), Default) == [a]
  {
    ProtoInheritedOnly(a, b, c, d);
    ProtoInheritedAndDollar(a, b, c, d);
    ProtoSearch(a, b, c, d);
  }

  lemma ProtoInheritedOnly(a: Value, b: Value, c: Value, d: Value)
    requires a == ProtoItem("hello") && b == ProtoItem("goodbye") && c == ProtoItem("kittens") && d == ProtoItem("puppies")
    ensures Filter([a, b, c, d], Record([Prop("someProp", Str("oo"), true)]), Default) == [b]
  {
    ProtoTextsOo();
    ProtoEmptyRecord(a, "hello");
    ProtoEmptyRecord(b, "goodbye");
    ProtoEmptyRecord(c, "kittens");
    ProtoEmptyRecord(d, "puppies");
    RecordOfFour(a, b, c, d, [Prop("someProp", Str("oo"), true)], Default, false, true, false, false);
  }

  lemma ProtoInheritedAndDollar(a: Value, b: Value, c: Value, d: Value)
    requires a == ProtoItem("hello") && b == ProtoItem("goodbye") && c == ProtoItem("kittens") && d == ProtoItem("puppies")
    ensures Filter([a, b, c, d], Record([Prop("$", Str("ll"), false), Prop("someProp", Str("oo"), true)]), Default) == []
  {
    ProtoTextsOo();
    ProtoTextsLl();
    ProtoDollar(a, "hello");
    ProtoDollar(b, "goodbye");
    ProtoDollar(c, "kittens");
    ProtoDollar(d, "puppies");
    RecordOfFour(a, b, c, d, [Prop("$", Str("ll"), false), Prop("someProp", Str("oo"), true)], Default,
                 false, false, false, false);
  }

  lemma ProtoTextsOo()
    ensures !Substring(Str("hello"), Str("oo")) && Substring(Str("goodbye"), Str("oo"))
    ensures !Substring(Str("kittens"), Str("oo")) && !Substring(Str("puppies"), Str("oo"))
  {
    HelloLacksOo();
    GoodbyeHasOo();
    KittensLacksOo();
    PuppiesLacksOo();
  }

  lemma ProtoTextsLl()
    ensures Substring(Str("hello"), Str("ll")) && !Substring(Str("goodbye"), Str("ll"))
    ensures !Substring(Str("kittens"), Str("ll")) && !Substring(Str("puppies"), Str("ll"))
  {
    HelloHasLl();
    GoodbyeLacksLl();
    KittensLacksLl();
    PuppiesLacksLl();
  }

  /** A text expression reads only the items' own properties. */
  lemma ProtoSearch(a: Value, b: Value, c: Value, d: Value)
    requires a == ProtoItem("hello") && b == ProtoItem("goodbye") && c == ProtoItem("kittens") && d == ProtoItem("puppies")
    ensures Filter([a, b, c, d], Search(Str("ll")), Default) == [a]
  {
    ProtoTextsLl();
    ProtoSearchOn(a, "hello", "ll");
    ProtoSearchOn(b, "goodbye", "ll");
    ProtoSearchOn(c, "kittens", "ll");
    ProtoSearchOn(d, "puppies", "ll");
    SearchOfFour(a, b, c, d, Str("ll"), Default, true, false, false, false);
  }

  /** A text search of one of these items is a search of its own text. */
  lemma ProtoSearchOn(a: Value, x: string, q: string)
    requires a == ProtoItem(x) && PlainLeaf(Str(q))
    ensures Match(a, Str(q), Default, true, false) == Substring(Str(x), Str(q))
  {
    SearchOne("someProp", Str(x), false, Str(q), Default);
    LeafComparison(Str(x), Str(q), Default, true, false);
  }

  // ---------------------------------------------------------------------------
  // An object's own text is never searched (lines 335-339)

  lemma ObjectTextNotSearched(a: Value)
    requires a == Obj([Prop("test", Obj([]), false)])
    ensures Filter([a], Search(Str("[object")), Default) == []
  {
    var e := Str("[object");
    SearchOne("test", Obj([]), false, e, Default);
    SearchObject([], e, Default);
    SearchOfOne(a, e, Default, false);
  }

  // ---------------------------------------------------------------------------
  // Comparator `true` (lines 342-369)

  lemma StrictText(a: Value, b: Value, c: Value)
    requires a == Str("misko") && b == Str("adam") && c == Str("adamson")
    ensures Filter([a, b, c], Search(Str("adam")), Strict) == [b]
    ensures Filter([a, b, c], Search(Str("adam")), Default) == [b, c]
  {
    StrictTextStrict(a, b, c);
    StrictTextDefault(a, b, c);
  }

  lemma StrictTextStrict(a: Value, b: Value, c: Value)
    requires a == Str("misko") && b == Str("adam") && c == Str("adamson")
    ensures Filter([a, b, c], Search(Str("adam")), Strict) == [b]
  {
    LeafComparison(a, Str("adam"), Strict, true, false);
    LeafComparison(b, Str("adam"), Strict, true, false);
    LeafComparison(c, Str("adam"), Strict, true, false);
    SearchOfThree(a, b, c, Str("adam"), Strict, false, true, false);
  }

  lemma StrictTextDefault(a: Value, b: Value, c: Value)
    requires a == Str("misko") && b == Str("adam") && c == Str("adamson")
    ensures Filter([a, b, c], Search(Str("adam")), Default) == [b, c]
  {
    StrictTextDefaultTexts();
    LeafComparison(a, Str("adam"), Default, true, false);
    LeafComparison(b, Str("adam"), Default, true, false);
    LeafComparison(c, Str("adam"), Default, true, false);
    SearchOfThree(a, b, c, Str("adam"), Default, false, true, true);
  }

  lemma StrictTextDefaultTexts()
    ensures !Substring(Str("misko"), Str("adam"))
    ensures Substring(Str("adam"), Str("adam"))
    ensures Substring(Str("adamson"), Str("adam"))
  {
    MiskoLacksAdam();
    AdamHasAdam();
    AdamsonHasAdam();
  }

  /** An item `{key: k, nonkey: n}`. */
  function Keyed(k: Value, n: int): Value {
    Obj([Prop("key", k, false), Prop("nonkey", Num(n), false)])
  }

  /** `{key: e}` compares `e` with the item's key alone. */
  lemma KeyedRecord(a: Value, k: Value, n: int, e: Value, cmp: Comparator)
    requires a == Keyed(k, n) && !IsObject(k) && !k.Func? && PlainLeaf(e) && Constrains(e)
    ensures Match(a, Obj([Prop("key", e, false)]), cmp, false, false) == CompareLeaf(cmp, k, e)
  {
    KeyAt(Keyed(k, n).props, 0, e, false, cmp);
    LeafComparison(k, e, cmp, false, false);
  }

  lemma StrictRecordText(a: Value, b: Value, c: Value, d: Value, e: Value)
    requires a == Keyed(Str("value1"), 1) && b == Keyed(Str("value2"), 2) && c == Keyed(Str("value12"), 3)
    requires d == Keyed(Str("value1"), 4) && e == Keyed(Str("Value1"), 5)
    ensures Filter([a, b, c, d, e], Record([Prop("key", Str("value1"), false)]), Strict) == [a, d]
  {
    StrictKeyText(a, "value1", 1, true);
    StrictKeyText(b, "value2", 2, false);
    StrictKeyText(c, "value12", 3, false);
    StrictKeyText(d, "value1", 4, true);
    StrictKeyText(e, "Value1", 5, false);
    StrictRecordTextDecided(a, b, c, d, e);
  }

  /** The decisions of `StrictRecordText` put together, away from the items' contents. */
  lemma StrictRecordTextDecided(a: Value, b: Value, c: Value, d: Value, e: Value)
    requires Match(a, Obj([Prop("key", Str("value1"), false)]), Strict, false, false)
    requires !Match(b, Obj([Prop("key", Str("value1"), false)]), Strict, false, false)
    requires !Match(c, Obj([Prop("key", Str("value1"), false)]), Strict, false, false)
    requires Match(d, Obj([Prop("key", Str("value1"), false)]), Strict, false, false)
    requires !Match(e, Obj([Prop("key", Str("value1"), false)]), Strict, false, false)
    ensures Filter([a, b, c, d, e], Record([Prop("key", Str("value1"), false)]), Strict) == [a, d]
  {
    RecordOfFive(a, b, c, d, e, [Prop("key", Str("value1"), false)], Strict, true, false, false, true, false);
  }

  /** With comparator `true` the key must be exactly `value1`, case included. */
  lemma StrictKeyText(a: Value, x: string, n: int, same: bool)
    requires a == Keyed(Str(x), n) && same == (x == "value1")
    ensures Match(a, Obj([Prop("key", Str("value1"), false)]), Strict, false, false) == same
  {
    KeyedRecord(a, Str(x), n, Str("value1"), Strict);
  }

  lemma StrictRecordNumber(a: Value, b: Value, c: Value, d: Value)
    requires a == Keyed(Num(1), 1) && b == Keyed(Num(2), 2) && c == Keyed(Num(12), 3) && d == Keyed(Num(1), 4)
    ensures Filter([a, b, c, d], Record([Prop("key", Num(1), false)]), Strict) == [a, d]
  {
    KeyedRecord(a, Num(1), 1, Num(1), Strict);
    KeyedRecord(b, Num(2), 2, Num(1), Strict);
    KeyedRecord(c, Num(12), 3, Num(1), Strict);
    KeyedRecord(d, Num(1), 4, Num(1), Strict);
    StrictRecordNumberDecided(a, b, c, d);
  }

  /** The decisions of `StrictRecordNumber` put together, away from the items' contents. */
  lemma StrictRecordNumberDecided(a: Value, b: Value, c: Value, d: Value)
    requires Match(a, Obj([Prop("key", Num(1), false)]), Strict, false, false)
    requires !Match(b, Obj([Prop("key", Num(1), false)]), Strict, false, false)
    requires !Match(c, Obj([Prop("key", Num(1), false)]), Strict, false, false)
    requires Match(d, Obj([Prop("key", Num(1), false)]), Strict, false, false)
    ensures Filter([a, b, c, d], Record([Prop("key", Num(1), false)]), Strict) == [a, d]
  {
    RecordOfFour(a, b, c, d, [Prop("key", Num(1), false)], Strict, true, false, false, true);
  }

  /** A number searched with comparator `true` must equal a property value. */
  lemma KeyedSearch(k: int, n: int, e: Value, cmp: Comparator)
    requires !cmp.Custom? && PlainLeaf(e)
    ensures Match(Keyed(Num(k), n), e, cmp, true, false) == (CompareLeaf(cmp, Num(k), e) || CompareLeaf(cmp, Num(n), e))
  {
    SearchTwo("key", Num(k), "nonkey", Num(n), e, cmp);
    LeafComparison(Num(k), e, cmp, true, false);
    LeafComparison(Num(n), e, cmp, true, false);
  }

  lemma StrictNumberSearch(a: Value, b: Value, c: Value, d: Value)
    requires a == Keyed(Num(1), 1) && b == Keyed(Num(2), 2) && c == Keyed(Num(12), 3) && d == Keyed(Num(1), 4)
    ensures Filter([a, b, c, d], Search(Num(12)), Strict) == [c]
  {
    KeyedSearch(1, 1, Num(12), Strict);
    KeyedSearch(2, 2, Num(12), Strict);
    KeyedSearch(12, 3, Num(12), Strict);
    KeyedSearch(1, 4, Num(12), Strict);
    SearchOfFour(a, b, c, d, Num(12), Strict, false, false, true, false);
  }

  // ---------------------------------------------------------------------------
  // A comparator function (lines 372-387)

  /** The comparator `(actual, expected) => actual > expected`, on numbers. */
  function Greater(actual: Value, expected: Value): bool {
    actual.Num? && expected.Num? && actual.n > expected.n
  }

  /** A number searched with a comparator function: each property value is
      compared, and so is the object as a whole, which `Greater` rejects. */
  lemma KeyedGreaterSearch(a: Value, k: int, n: int, e: int)
    requires a == Keyed(Num(k), n)
    ensures Match(a, Num(e), Custom(Greater), true, false) == (k > e || n > e)
  {
    var ps := Keyed(Num(k), n).props;
    assert FirstOfName(ps, 0) && FirstOfName(ps, 1);
    assert Core(Num(k), Num(e), 0, Custom(Greater), true, false) == (k > e);
    assert Core(Num(n), Num(e), 0, Custom(Greater), true, false) == (n > e);
    assert !Core(Keyed(Num(k), n), Num(e), 0, Custom(Greater), false, false);
  }

  lemma GreaterComparator(a: Value, b: Value, c: Value, d: Value)
    requires a == Keyed(Num(1), 1) && b == Keyed(Num(2), 2) && c == Keyed(Num(12), 3) && d == Keyed(Num(1), 14)
    ensures Filter([a, b, c, d], Record([Prop("key", Num(10), false)]), Custom(Greater)) == [c]
    ensures Filter([a, b, c, d], Search(Num(10)), Custom(Greater)) == [c, d]
  {
    GreaterRecord(a, b, c, d);
    GreaterSearch(a, b, c, d);
  }

  lemma GreaterRecord(a: Value, b: Value, c: Value, d: Value)
    requires a == Keyed(Num(1), 1) && b == Keyed(Num(2), 2) && c == Keyed(Num(12), 3) && d == Keyed(Num(1), 14)
    ensures Filter([a, b, c, d], Record([Prop("key", Num(10), false)]), Custom(Greater)) == [c]
  {
    KeyedGreater(a, 1, 1);
    KeyedGreater(b, 2, 2);
    KeyedGreater(c, 12, 3);
    KeyedGreater(d, 1, 14);
    GreaterRecordDecided(a, b, c, d);
  }

  /** `{key: 10}` under `Greater` keeps an item whose key exceeds 10. */
  lemma KeyedGreater(a: Value, k: int, n: int)
    requires a == Keyed(Num(k), n)
    ensures Match(a, Obj([Prop("key", Num(10), false)]), Custom(Greater), false, false) == (k > 10)
  {
    KeyedRecord(a, Num(k), n, Num(10), Custom(Greater));
  }

  /** The decisions of `GreaterRecord` put together, away from the items' contents. */
  lemma GreaterRecordDecided(a: Value, b: Value, c: Value, d: Value)
    requires !Match(a, Obj([Prop("key", Num(10), false)]), Custom(Greater), false, false)
    requires !Match(b, Obj([Prop("key", Num(10), false)]), Custom(Greater), false, false)
    requires Match(c, Obj([Prop("key", Num(10), false)]), Custom(Greater), false, false)
    requires !Match(d, Obj([Prop("key", Num(10), false)]), Custom(Greater), false, false)
    ensures Filter([a, b, c, d], Record([Prop("key", Num(10), false)]), Custom(Greater)) == [c]
  {
    RecordOfFour(a, b, c, d, [Prop("key", Num(10), false)], Custom(Greater), false, false, true, false);
  }

  lemma GreaterSearch(a: Value, b: Value, c: Value, d: Value)
    requires a == Keyed(Num(1), 1) && b == Keyed(Num(2), 2) && c == Keyed(Num(12), 3) && d == Keyed(Num(1), 14)
    ensures Filter([a, b, c, d], Search(Num(10)), Custom(Greater)) == [c, d]
  {
    KeyedGreaterSearch(a, 1, 1, 10);
    KeyedGreaterSearch(b, 2, 2, 10);
    KeyedGreaterSearch(c, 12, 3, 10);
    KeyedGreaterSearch(d, 1, 14, 10);
    SearchOfFour(a, b, c, d, Num(10), Custom(Greater), false, false, true, true);
  }

  // ---------------------------------------------------------------------------
  // Comparators with nested records (lines 390-428)

  function Account(id: int, email: string, role: string): Value {
    Obj([Prop("id", Num(id), false),
         Prop("details", Obj([Prop("email", Str(email), false), Prop("role", Str(role), false)]), false)])
  }

  function Details(p: string, q: string): Prop {
    Prop("details", Obj([Prop("email", Str(p), false), Prop("role", Str(q), false)]), false)
  }

  /** The comparator that accepts a text starting with the expected text. */
  function Prefix(actual: Value, expected: Value): bool {
    actual.Str? && expected.Str? && |expected.s| <= |actual.s| && actual.s[..|expected.s|] == expected.s
  }

  /** `{details: {email: p, role: q}}`: the comparator decides on the email and
      on the role, one level down. */
  lemma DetailsKey(a: Value, id: int, email: string, role: string, p: string, q: string, cmp: Comparator)
    requires a == Account(id, email, role) && PlainLeaf(Str(p)) && PlainLeaf(Str(q))
    ensures Match(a, Obj([Details(p, q)]), cmp, false, false)
         == (CompareLeaf(cmp, Str(email), Str(p)) && CompareLeaf(cmp, Str(role), Str(q)))
  {
    var inner := [Prop("email", Str(email), false), Prop("role", Str(role), false)];
    var ps := Account(id, email, role).props;
    assert FirstOfName(ps, 1);
    KeyAt(ps, 1, Details(p, q).value, false, cmp);
    TwoKeys(inner, Prop("email", Str(p), false), Prop("role", Str(q), false), cmp);
    KeyAt(inner, 0, Str(p), false, cmp);
    KeyAt(inner, 1, Str(q), false, cmp);
    LeafComparison(Str(email), Str(p), cmp, false, false);
    LeafComparison(Str(role), Str(q), cmp, false, false);
  }

  /** `{id: j, details: {email: p, role: q}}` under the default comparator. */
  lemma IdAndDetailsKey(a: Value, id: int, email: string, role: string, j: int, p: string, q: string)
    requires a == Account(id, email, role) && PlainLeaf(Str(p)) && PlainLeaf(Str(q))
    ensures Match(a, Obj([Prop("id", Num(j), false), Details(p, q)]), Default, false, false)
         == (Substring(Num(id), Num(j)) && Substring(Str(email), Str(p)) && Substring(Str(role), Str(q)))
  {
    var ps := Account(id, email, role).props;
    TwoKeys(ps, Prop("id", Num(j), false), Details(p, q), Default);
    KeyAt(ps, 0, Num(j), false, Default);
    LeafComparison(Num(id), Num(j), Default, false, false);
    DetailsKey(a, id, email, role, p, q, Default);
  }

  lemma DeepDefault(a: Value, b: Value, c: Value)
    requires a == Account(0, "admin@example.com", "admin")
    requires b == Account(1, "user1@example.com", "user") && c == Account(2, "user2@example.com", "user")
    ensures Filter([a, b, c], Record([Details("user@example.com", "adm")]), Default) == []
    ensures Filter([a, b, c], Record([Details("admin@example.com", "adm")]), Default) == [a]
    ensures Filter([a, b, c], Record([Details("user", "us")]), Default) == [b, c]
  {
    DeepDefaultUserAdm(a, b, c);
    DeepDefaultAdminAdm(a, b, c);
    DeepDefaultUserUs(a, b, c);
  }

  lemma DeepDefaultUserAdm(a: Value, b: Value, c: Value)
    requires a == Account(0, "admin@example.com", "admin")
    requires b == Account(1, "user1@example.com", "user") && c == Account(2, "user2@example.com", "user")
    ensures Filter([a, b, c], Record([Details("user@example.com", "adm")]), Default) == []
  {
    DeepDefaultUserAdmTexts();
    DetailsKey(a, 0, "admin@example.com", "admin", "user@example.com", "adm", Default);
    DetailsKey(b, 1, "user1@example.com", "user", "user@example.com", "adm", Default);
    DetailsKey(c, 2, "user2@example.com", "user", "user@example.com", "adm", Default);
    RecordOfThree(a, b, c, [Details("user@example.com", "adm")], Default, false, false, false);
  }

  lemma DeepDefaultUserAdmTexts()
    ensures !Substring(Str("admin@example.com"), Str("user@example.com"))
    ensures !Substring(Str("user"), Str("adm"))
  {
    AdminExampleComLacksUserExampleCom();
    UserLacksAdm();
  }

  lemma DeepDefaultAdminAdm(a: Value, b: Value, c: Value)
    requires a == Account(0, "admin@example.com", "admin")
    requires b == Account(1, "user1@example.com", "user") && c == Account(2, "user2@example.com", "user")
    ensures Filter([a, b, c], Record([Details("admin@example.com", "adm")]), Default) == [a]
  {
    AdminAdmMatches(a);
    UsersAdmFail(b, c);
    RecordOfThree(a, b, c, [Details("admin@example.com", "adm")], Default, true, false, false);
  }

  lemma AdminAdmMatches(a: Value)
    requires a == Account(0, "admin@example.com", "admin")
    ensures Match(a, Obj([Details("admin@example.com", "adm")]), Default, false, false)
  {
    AdmTexts();
    DetailsKey(a, 0, "admin@example.com", "admin", "admin@example.com", "adm", Default);
  }

  lemma UsersAdmFail(b: Value, c: Value)
    requires b == Account(1, "user1@example.com", "user") && c == Account(2, "user2@example.com", "user")
    ensures !Match(b, Obj([Details("admin@example.com", "adm")]), Default, false, false)
    ensures !Match(c, Obj([Details("admin@example.com", "adm")]), Default, false, false)
  {
    AdmTexts();
    DetailsKey(b, 1, "user1@example.com", "user", "admin@example.com", "adm", Default);
    DetailsKey(c, 2, "user2@example.com", "user", "admin@example.com", "adm", Default);
  }

  lemma AdmTexts()
    ensures Substring(Str("admin@example.com"), Str("admin@example.com"))
    ensures Substring(Str("admin"), Str("adm")) && !Substring(Str("user"), Str("adm"))
  {
    AdminExampleComHasAdminExampleCom();
    AdminHasAdm();
    UserLacksAdm();
  }

  lemma DeepDefaultUserUs(a: Value, b: Value, c: Value)
    requires a == Account(0, "admin@example.com", "admin")
    requires b == Account(1, "user1@example.com", "user") && c == Account(2, "user2@example.com", "user")
    ensures Filter([a, b, c], Record([Details("user", "us")]), Default) == [b, c]
  {
    UserUsTexts();
    DetailsKey(a, 0, "admin@example.com", "admin", "user", "us", Default);
    DetailsKey(b, 1, "user1@example.com", "user", "user", "us", Default);
    DetailsKey(c, 2, "user2@example.com", "user", "user", "us", Default);
    DeepDefaultUserUsDecided(a, b, c);
  }

  /** The decisions of `DeepDefaultUserUs` put together, away from the items' contents. */
  lemma DeepDefaultUserUsDecided(a: Value, b: Value, c: Value)
    requires !Match(a, Obj([Details("user", "us")]), Default, false, false)
    requires Match(b, Obj([Details("user", "us")]), Default, false, false)
    requires Match(c, Obj([Details("user", "us")]), Default, false, false)
    ensures Filter([a, b, c], Record([Details("user", "us")]), Default) == [b, c]
  {
    RecordOfThree(a, b, c, [Details("user", "us")], Default, false, true, true);
  }

  lemma UserUsTexts()
    ensures !Substring(Str("admin@example.com"), Str("user"))
    ensures Substring(Str("user1@example.com"), Str("user")) && Substring(Str("user2@example.com"), Str("user"))
    ensures Substring(Str("user"), Str("us"))
  {
    AdminWithoutUser();
    UsersWithUser();
    UserHasUs();
  }

  lemma AdminWithoutUser()
    ensures !Substring(Str("admin@example.com"), Str("user"))
  {
    TextMissing("admin@example.com", "user", 0);
  }

  lemma UsersWithUser()
    ensures Substring(Str("user1@example.com"), Str("user")) && Substring(Str("user2@example.com"), Str("user"))
  {
    User1ExampleComHasUser();
    User2ExampleComHasUser();
  }

  /** The decimal texts of the ids. */
  lemma IdTexts()
    ensures Substring(Num(1), Num(1))
    ensures !Substring(Num(1), Num(0)) && !Substring(Num(2), Num(0)) && !Substring(Num(2), Num(1))
  {
    assert TextOf(Num(0)) == "0" && TextOf(Num(1)) == "1" && TextOf(Num(2)) == "2";
    AsText(Num(1), Num(1));
    AsText(Num(1), Num(0));
    AsText(Num(2), Num(0));
    AsText(Num(2), Num(1));
    Number1Has1();
    Number1Lacks0();
    Number2Lacks0();
    Number2Lacks1();
  }

  lemma DeepDefaultWithId(a: Value, b: Value, c: Value)
    requires a == Account(0, "admin@example.com", "admin")
    requires b == Account(1, "user1@example.com", "user") && c == Account(2, "user2@example.com", "user")
    ensures Filter([a, b, c], Record([Prop("id", Num(0), false), Details("user", "us")]), Default) == []
    ensures Filter([a, b, c], Record([Prop("id", Num(1), false), Details("user", "us")]), Default) == [b]
  {
    DeepDefaultIdZero(a, b, c);
    DeepDefaultIdOne(a, b, c);
  }

  lemma DeepDefaultIdZero(a: Value, b: Value, c: Value)
    requires a == Account(0, "admin@example.com", "admin")
    requires b == Account(1, "user1@example.com", "user") && c == Account(2, "user2@example.com", "user")
    ensures Filter([a, b, c], Record([Prop("id", Num(0), false), Details("user", "us")]), Default) == []
  {
    UserUsTexts();
    IdTexts();
    IdAndDetailsKey(a, 0, "admin@example.com", "admin", 0, "user", "us");
    IdAndDetailsKey(b, 1, "user1@example.com", "user", 0, "user", "us");
    IdAndDetailsKey(c, 2, "user2@example.com", "user", 0, "user", "us");
    RecordOfThree(a, b, c, [Prop("id", Num(0), false), Details("user", "us")], Default, false, false, false);
  }

  lemma DeepDefaultIdOne(a: Value, b: Value, c: Value)
    requires a == Account(0, "admin@example.com", "admin")
    requires b == Account(1, "user1@example.com", "user") && c == Account(2, "user2@example.com", "user")
    ensures Filter([a, b, c], Record([Prop("id", Num(1), false), Details("user", "us")]), Default) == [b]
  {
    UserUsTexts();
    IdTexts();
    IdAndDetailsKey(a, 0, "admin@example.com", "admin", 1, "user", "us");
    IdAndDetailsKey(b, 1, "user1@example.com", "user", 1, "user", "us");
    IdAndDetailsKey(c, 2, "user2@example.com", "user", 1, "user", "us");
    RecordOfThree(a, b, c, [Prop("id", Num(1), false), Details("user", "us")], Default, false, true, false);
  }

  lemma DeepStrict(a: Value, b: Value, c: Value)
    requires a == Account(0, "admin@example.com", "admin")
    requires b == Account(1, "user1@example.com", "user") && c == Account(2, "user2@example.com", "user")
    ensures Filter([a, b, c], Record([Details("admin@example.com", "adm")]), Strict) == []
    ensures Filter([a, b, c], Record([Details("admin@example.com", "admin")]), Strict) == [a]
  {
    DeepStrictAdm(a, b, c);
    DeepStrictAdmin(a, b, c);
  }

  /** With comparator `true` the users' emails and the role `admin` against
      `adm` are unequal. */
  lemma AdminUnequal(cmp: Comparator)
    requires cmp == Strict
    ensures !CompareLeaf(cmp, Str("user1@example.com"), Str("admin@example.com"))
    ensures !CompareLeaf(cmp, Str("user2@example.com"), Str("admin@example.com"))
    ensures !CompareLeaf(cmp, Str("admin"), Str("adm"))
  {
    assert "user1@example.com"[0] != "admin@example.com"[0];
    assert "user2@example.com"[0] != "admin@example.com"[0];
    assert |"admin"| != |"adm"|;
  }

  lemma DeepStrictAdm(a: Value, b: Value, c: Value)
    requires a == Account(0, "admin@example.com", "admin")
    requires b == Account(1, "user1@example.com", "user") && c == Account(2, "user2@example.com", "user")
    ensures Filter([a, b, c], Record([Details("admin@example.com", "adm")]), Strict) == []
  {
    AdminUnequal(Strict);
    DetailsKey(a, 0, "admin@example.com", "admin", "admin@example.com", "adm", Strict);
    DetailsKey(b, 1, "user1@example.com", "user", "admin@example.com", "adm", Strict);
    DetailsKey(c, 2, "user2@example.com", "user", "admin@example.com", "adm", Strict);
    RecordOfThree(a, b, c, [Details("admin@example.com", "adm")], Strict, false, false, false);
  }

  lemma DeepStrictAdmin(a: Value, b: Value, c: Value)
    requires a == Account(0, "admin@example.com", "admin")
    requires b == Account(1, "user1@example.com", "user") && c == Account(2, "user2@example.com", "user")
    ensures Filter([a, b, c], Record([Details("admin@example.com", "admin")]), Strict) == [a]
  {
    AdminUnequal(Strict);
    DetailsKey(a, 0, "admin@example.com", "admin", "admin@example.com", "admin", Strict);
    DetailsKey(b, 1, "user1@example.com", "user", "admin@example.com", "admin", Strict);
    DetailsKey(c, 2, "user2@example.com", "user", "admin@example.com", "admin", Strict);
    RecordOfThree(a, b, c, [Details("admin@example.com", "admin")], Strict, true, false, false);
  }

  lemma DeepPrefix(a: Value, b: Value, c: Value)
    requires a == Account(0, "admin@example.com", "admin")
    requires b == Account(1, "user1@example.com", "user") && c == Account(2, "user2@example.com", "user")
    ensures Filter([a, b, c], Record([Details("admin@example.com", "min")]), Custom(Prefix)) == []
    ensures Filter([a, b, c], Record([Details("admin@example.com", "adm")]), Custom(Prefix)) == [a]
  {
    DeepPrefixMin(a, b, c);
    DeepPrefixAdm(a, b, c);
  }

  /** What `Prefix` says about the texts of this example. */
  lemma PrefixTexts()
    ensures Prefix(Str("admin@example.com"), Str("admin@example.com"))
    ensures !Prefix(Str("user1@example.com"), Str("admin@example.com"))
    ensures !Prefix(Str("user2@example.com"), Str("admin@example.com"))
    ensures Prefix(Str("admin"), Str("adm")) && !Prefix(Str("admin"), Str("min"))
  {
    assert "admin@example.com"[..|"admin@example.com"|] == "admin@example.com";
    assert "user1@example.com"[..17][0] != "admin@example.com"[0];
    assert "user2@example.com"[..17][0] != "admin@example.com"[0];
    assert "admin"[..3] == "adm";
  }

  lemma DeepPrefixMin(a: Value, b: Value, c: Value)
    requires a == Account(0, "admin@example.com", "admin")
    requires b == Account(1, "user1@example.com", "user") && c == Account(2, "user2@example.com", "user")
    ensures Filter([a, b, c], Record([Details("admin@example.com", "min")]), Custom(Prefix)) == []
  {
    PrefixTexts();
    DetailsKey(a, 0, "admin@example.com", "admin", "admin@example.com", "min", Custom(Prefix));
    DetailsKey(b, 1, "user1@example.com", "user", "admin@example.com", "min", Custom(Prefix));
    DetailsKey(c, 2, "user2@example.com", "user", "admin@example.com", "min", Custom(Prefix));
    RecordOfThree(a, b, c, [Details("admin@example.com", "min")], Custom(Prefix), false, false, false);
  }

  lemma DeepPrefixAdm(a: Value, b: Value, c: Value)
    requires a == Account(0, "admin@example.com", "admin")
    requires b == Account(1, "user1@example.com", "user") && c == Account(2, "user2@example.com", "user")
    ensures Filter([a, b, c], Record([Details("admin@example.com", "adm")]), Custom(Prefix)) == [a]
  {
    PrefixTexts();
    DetailsKey(a, 0, "admin@example.com", "admin", "admin@example.com", "adm", Custom(Prefix));
    DetailsKey(b, 1, "user1@example.com", "user", "admin@example.com", "adm", Custom(Prefix));
    DetailsKey(c, 2, "user2@example.com", "user", "admin@example.com", "adm", Custom(Prefix));
    RecordOfThree(a, b, c, [Details("admin@example.com", "adm")], Custom(Prefix), true, false, false);
  }
}

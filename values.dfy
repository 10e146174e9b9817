/** The JavaScript values the filter is applied to, and the two ways it reads an
    object: by enumerating its properties (`for key in obj`) and by looking one up
    by name (`obj[key]`). */
module Values {
  import opened Text

  /** A JavaScript value. Numbers are the whole numbers the filter is used with;
      `Func` is a function value, whose body the filter never looks at. */
  datatype Value =
    | Str(s: string)
    | Num(n: int)
    | Bool(b: bool)
    | Obj(props: seq<Prop>)
    | Arr(elems: seq<Value>)
    | Func
    | Undefined

  /** One enumerable property. An object lists its own properties first and then
      those it inherits from its prototype chain; `inherited` records which. */
  datatype Prop = Prop(name: string, value: Value, inherited: bool)

  /** `typeof v === 'object'` for a non-null value: records and arrays. */
  predicate IsObject(v: Value) {
    v.Obj? || v.Arr?
  }

  /** A property whose name starts with `$` is private to the framework. */
  predicate IsPrivate(name: string) {
    |name| > 0 && name[0] == '$'
  }

  /** Entry `i` is the one `for key in` visits for its name: no entry before it
      (an own property, or a nearer prototype) carries the same name. */
  predicate FirstOfName(ps: seq<Prop>, i: int)
    requires 0 <= i < |ps|
  {
    forall j | 0 <= j < i :: ps[j].name != ps[i].name
  }

  /** Position of the first entry named `name`, or -1 when there is none. */
  function IndexOf(ps: seq<Prop>, name: string): (r: int)
    ensures -1 <= r < |ps|
    ensures r == -1 <==> forall j | 0 <= j < |ps| :: ps[j].name != name
    ensures r >= 0 ==> ps[r].name == name && FirstOfName(ps, r)
    decreases |ps|
  {
    if ps == [] then -1
    else if ps[0].name == name then 0
    else
      var k := IndexOf(ps[1..], name);
      if k == -1 then -1 else k + 1
  }

  /** `obj[name]`: the value of the visible property of that name, own or
      inherited, and `undefined` when there is none. A dotted name is one name. */
  function Lookup(ps: seq<Prop>, name: string): (r: Value)
    ensures (forall j | 0 <= j < |ps| :: ps[j].name != name) ==> r == Undefined
    ensures forall i | 0 <= i < |ps| && ps[i].name == name && FirstOfName(ps, i) :: r == ps[i].value
  {
    var k := IndexOf(ps, name);
    if k == -1 then Undefined else ps[k].value
  }

  /** The string a value that is not an object converts to (`'' + v`); a
      function's source text is not modelled, only its leading keyword. */
  function TextOf(v: Value): string
    requires !IsObject(v)
  {
    match v
    case Str(s) => s
    case Num(n) => IntToString(n)
    case Bool(b) => if b then "true" else "false"
    case Undefined => "undefined"
    case Func => "function"
  }
}

/**
 * The in-memory box tree of an ISO Base Media File (MP4) as the query and
 * export layer of mp4.js sees it: every box is a JavaScript object whose
 * enumerable properties are an ordered list of named values, one of which is
 * its four-character `type`, and whose `boxes` property is the ordered list of
 * its child boxes.
 */
module BoxTree {

  datatype Option<+T> = None | Some(value: T)

  /** A JavaScript value as far as the query and export layer inspects it. */
  datatype Value =
    | Undefined               // a property that is absent, or holds `undefined`
    | Num(x: real)            // a number
    | Text(s: string)         // a string, such as a box type
    | Table(entries: seq<Entry>)  // an array of table entries (`stts`, `stsc`, ...)
    | Func                    // a function-valued property (a method)

  /**
   * One element of a table-valued property: the five properties that the
   * export reads from it. An `stts` entry has `count` and `delta` and leaves
   * the others Undefined; an `stsc` entry has the last three.
   */
  datatype Entry = Entry(
    count: Value,
    delta: Value,
    firstChunk: Value,
    samplesPerChunk: Value,
    sampleDescriptionIndex: Value)

  /** One enumerable property of a box, in enumeration order. */
  datatype Field = Field(name: string, value: Value)

  /** A box: its properties other than `boxes`, and its child boxes in document order. */
  datatype Box = Box(fields: seq<Field>, boxes: seq<Box>)

  /** `fields[i]` is the first property called `name`. */
  predicate FirstNamed(fields: seq<Field>, name: string, i: int) {
    0 <= i < |fields| && fields[i].name == name && forall j :: 0 <= j < i ==> fields[j].name != name
  }

  /** Some property of `fields` is `name` with value `v`. */
  predicate Present(fields: seq<Field>, name: string, v: Value) {
    exists i :: 0 <= i < |fields| && fields[i] == Field(name, v)
  }

  /** No property of `fields` is called `name`. */
  predicate Absent(fields: seq<Field>, name: string) {
    forall i :: 0 <= i < |fields| ==> fields[i].name != name
  }

  /** Property access `obj[name]`: the first property with that name, or `undefined`. */
  function Get(fields: seq<Field>, name: string): Value {
    if fields == [] then Undefined
    else if fields[0].name == name then fields[0].value
    else Get(fields[1..], name)
  }

  /**
   * Property access reads the first property with that name: its value when
   * there is one, `undefined` when there is none, and a defined result is
   * always the value of some property with that name.
   */
  lemma {:induction false} GetFindsFirst(fields: seq<Field>, name: string)
    ensures Get(fields, name) != Undefined ==> Present(fields, name, Get(fields, name))
    ensures Absent(fields, name) ==> Get(fields, name) == Undefined
    ensures forall i :: FirstNamed(fields, name, i) ==> Get(fields, name) == fields[i].value
  {
    if fields != [] {
      GetFindsFirst(fields[1..], name);
      if fields[0].name != name {
        if Get(fields, name) != Undefined {
          var k :| 0 <= k < |fields[1..]| && fields[1..][k] == Field(name, Get(fields, name));
          assert fields[k + 1] == Field(name, Get(fields, name));
        }
        forall i | FirstNamed(fields, name, i)
          ensures Get(fields, name) == fields[i].value
        {
          assert FirstNamed(fields[1..], name, i - 1);
        }
      } else {
        assert fields[0] == Field(name, Get(fields, name));
      }
    }
  }

  /** `box.type` */
  function TypeOf(b: Box): Value {
    Get(b.fields, "type")
  }

  /** `box.type === t` for a string `t` */
  predicate HasType(b: Box, t: string) {
    TypeOf(b) == Text(t)
  }

  /** `box.type === 'trak'` */
  predicate IsTrak(b: Box) {
    HasType(b, "trak")
  }

  /**
   * The type test reads the box's `type` property, which names one type
   * only: a `trak` is never taken for the `moov`, `mvhd` or `tkhd` searched.
   */
  lemma TypeTest(b: Box, t: string)
    ensures HasType(b, t) ==> Present(b.fields, "type", Text(t))
    ensures HasType(b, t) ==> forall u :: HasType(b, u) ==> u == t
    ensures IsTrak(b) ==> !HasType(b, "moov") && !HasType(b, "mvhd") && !HasType(b, "tkhd")
  {
    GetFindsFirst(b.fields, "type");
  }

  /** `tkhd.volume` */
  function Volume(b: Box): Value {
    Get(b.fields, "volume")
  }

  /**
   * `v === n` and `v == n` for a number `n`. The two agree on every value
   * this model has except a numeric string, which loose equality would convert.
   */
  predicate IsNumber(v: Value, n: real)
    ensures IsNumber(v, n) <==> v == Num(n)
    ensures IsNumber(v, n) ==> (Truthy(v) <==> n != 0.0)
  {
    v.Num? && v.x == n
  }

  /** JavaScript truthiness: `undefined`, `0` and `""` are falsy; arrays and functions are truthy. */
  predicate Truthy(v: Value)
    ensures v.Table? || v.Func? ==> Truthy(v)
    ensures v == Undefined || v == Num(0.0) || v == Text("") ==> !Truthy(v)
  {
    match v
    case Undefined => false
    case Num(x) => x != 0.0
    case Text(s) => s != ""
    case Table(_) => true
    case Func => true
  }

  /** The root box that the MP4 constructor creates: `new Box()` with `type` set to `isom`. */
  function RootBox(): (b: Box)
    ensures HasType(b, "isom") && b.boxes == []
  {
    Box([Field("type", Text("isom"))], [])
  }
}

/** The dynamic value domain the hub compares, translates and ships: what
    `bson.deserialize` produces on the server and what application code hands
    to the client. Numbers are integers (no NaN, no fractions). */
module Values {

  datatype Value =
    | Undefined
    | Null
    | Bool(b: bool)
    | Num(n: int)
    | Str(s: string)
    /** A JavaScript array. */
    | Arr(elems: seq<Value>)
    /** A plain object (`isPlainObject` holds): own keys in enumeration order. */
    | Obj(fields: seq<Field>)
    /** Any other object (an `ObjectID`, a `Date`, a class instance), known
        only by what `String(x)` renders it as. */
    | Opaque(rendering: string)

  datatype Field = Field(key: string, val: Value)

  /** The result of JavaScript's `typeof`. No value of this domain yields
      `"array"`: arrays, `null` and every other object are `"object"`. */
  datatype Kind = KUndefined | KBoolean | KNumber | KString | KObject

  function TypeOf(v: Value): Kind {
    match v
    case Undefined => KUndefined
    case Bool(_) => KBoolean
    case Num(_) => KNumber
    case Str(_) => KString
    case _ => KObject
  }

  /** `isPlainObject(v)` */
  predicate IsPlainObject(v: Value) {
    v.Obj?
  }

  /** JavaScript truthiness, as used by `if (!x)` and `x || y`. */
  predicate Truthy(v: Value) {
    match v
    case Undefined => false
    case Null => false
    case Bool(b) => b
    case Num(n) => n != 0
    case Str(s) => s != ""
    case _ => true
  }

  /** `x || y` */
  function Or(x: Value, y: Value): Value {
    if Truthy(x) then x else y
  }

  /** `obj[k]` on a plain object's own fields: a missing key reads as
      `undefined`. */
  function Lookup(fields: seq<Field>, k: string): (r: Value)
    ensures (forall i | 0 <= i < |fields| :: fields[i].key != k) ==> r == Undefined
  {
    if |fields| == 0 then Undefined
    else if fields[0].key == k then fields[0].val
    else Lookup(fields[1..], k)
  }

  predicate HasKey(fields: seq<Field>, k: string) {
    exists i | 0 <= i < |fields| :: fields[i].key == k
  }

  predicate DistinctKeys(fields: seq<Field>) {
    forall i, j | 0 <= i < j < |fields| :: fields[i].key != fields[j].key
  }

  /** Every plain object inside `v` (also inside arrays) has distinct keys,
      as every JavaScript object does. */
  predicate WellFormed(v: Value) {
    match v
    case Arr(es) => forall i | 0 <= i < |es| :: WellFormed(es[i])
    case Obj(fs) => DistinctKeys(fs) && forall i | 0 <= i < |fs| :: WellFormed(fs[i].val)
    case _ => true
  }

  /** `String(v)`. Arrays join their elements with `","`, rendering `null`
      and `undefined` elements as the empty string; every plain object renders
      as `"[object Object]"`. */
  function Render(v: Value): string {
    match v
    case Undefined => "undefined"
    case Null => "null"
    case Bool(b) => if b then "true" else "false"
    case Num(n) => IntToDecimal(n)
    case Str(s) => s
    case Arr(es) => Join(seq(|es|, i requires 0 <= i < |es| => if es[i].Null? || es[i].Undefined? then "" else Render(es[i])))
    case Obj(_) => ObjectTag
    case Opaque(r) => r
  }

  const ObjectTag: string := "[object Object]"

  /** `parts.join(",")` */
  function Join(parts: seq<string>): string {
    if |parts| == 0 then ""
    else if |parts| == 1 then parts[0]
    else parts[0] + "," + Join(parts[1..])
  }

  function DigitChar(d: nat): char
    requires d < 10
  {
    ['0', '1', '2', '3', '4', '5', '6', '7', '8', '9'][d]
  }

  function NatToDecimal(n: nat): string
    decreases n
  {
    if n < 10 then [DigitChar(n)] else NatToDecimal(n / 10) + [DigitChar(n % 10)]
  }

  /** The decimal rendering JavaScript gives an integer-valued number. */
  function IntToDecimal(n: int): string {
    if n < 0 then "-" + NatToDecimal(-n) else NatToDecimal(n)
  }

  /** `Object.keys(v)` paired with `v[key]`: the own enumerable entries of a
      plain object, the indices of an array, the code points of a string (not
      its UTF-16 units, as in JavaScript); no entries for any other value. */
  function OwnEntries(v: Value): (r: seq<Field>)
    ensures v.Obj? ==> r == v.fields
    ensures v.Arr? ==> |r| == |v.elems|
    ensures v.Str? ==> |r| == |v.s|
    ensures !(v.Obj? || v.Arr? || v.Str?) ==> r == []
  {
    match v
    case Obj(fs) => fs
    case Arr(es) => seq(|es|, i requires 0 <= i < |es| => Field(NatToDecimal(i), es[i]))
    case Str(s) => seq(|s|, i requires 0 <= i < |s| => Field(NatToDecimal(i), Str([s[i]])))
    case _ => []
  }
}

/** JavaScript values, as the route handlers and the hook handle them:
    JSON payloads, property reads, truthiness, `typeof`, string length
    in UTF-16 code units and ASCII lower-casing. */
module Js {

  datatype Option<+T> = None | Some(value: T)

  /** A JSON-compatible JavaScript value. `Undefined` also stands for a
      property that an object does not have. Numbers are integers here. */
  datatype Value =
    | Undefined
    | Null
    | Bool(b: bool)
    | Num(n: int)
    | Str(s: string)
    | Arr(items: seq<Value>)
    | Obj(fields: map<string, Value>)

  /** `typeof v === "object"`: true of objects, arrays and of `null`; false
      of exactly the values whose `typeof` is "undefined", "boolean",
      "number" or "string". */
  function IsObjectType(v: Value): (b: bool)
    ensures b <==> !(v.Undefined? || v.Bool? || v.Num? || v.Str?)
  {
    v.Obj? || v.Arr? || v.Null?
  }

  /** JavaScript truthiness, `!!v`: false of exactly the falsy values
      `undefined`, `null`, `false`, `0` and `""`. */
  function Truthy(v: Value): (b: bool)
    ensures !b <==> v in {Undefined, Null, Bool(false), Num(0), Str("")}
  {
    match v
    case Undefined => false
    case Null => false
    case Bool(b) => b
    case Num(n) => n != 0
    case Str(s) => s != ""
    case Arr(_) => true
    case Obj(_) => true
  }

  /** The property read `v.key` for one of the named claims the handlers read,
      on a value that is neither `null` nor `undefined`; a missing property
      reads as `undefined`. */
  function Prop(v: Value, key: string): (r: Value)
    ensures !v.Obj? ==> r == Undefined
    ensures v.Obj? && key !in v.fields ==> r == Undefined
  {
    if v.Obj? && key in v.fields then v.fields[key] else Undefined
  }

  /** `${x}` in a template literal, for a value that is a string or `undefined`. */
  function TemplateText(x: Option<string>): string {
    match x
    case Some(s) => s
    case None => "undefined"
  }

  /** Number of UTF-16 code units of `s`, which is what a JavaScript string's
      `length` counts: characters outside the Basic Multilingual Plane count twice. */
  function Utf16Length(s: string): (n: nat)
    ensures |s| <= n <= 2 * |s|
    ensures (forall i :: 0 <= i < |s| ==> s[i] as int <= 0xFFFF) ==> n == |s|
  {
    if s == [] then 0
    else (if s[0] as int > 0xFFFF then 2 else 1) + Utf16Length(s[1..])
  }

  function LowerChar(c: char): (d: char)
    ensures 'A' <= c <= 'Z' ==> d as int == c as int + 32
    ensures !('A' <= c <= 'Z') ==> d == c
  {
    if 'A' <= c <= 'Z' then (c as int + 32) as char else c
  }

  /** `s.toLowerCase()` for the ASCII letters; every other character is kept. */
  function ToLowerCase(s: string): (r: string)
    ensures |r| == |s|
    ensures forall i :: 0 <= i < |s| ==> r[i] == LowerChar(s[i])
  {
    if s == [] then [] else [LowerChar(s[0])] + ToLowerCase(s[1..])
  }
}

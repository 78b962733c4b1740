/**
 * The scalar JavaScript values a profile field can hold once the backend's
 * JSON has been read, with the three ways the page turns them into text:
 * truthiness (for `a || b` and `&&` guards), `String(v)` (template
 * literals and `new Error(v)`), and a JSX child (React prints strings and
 * numbers and prints nothing for booleans, `null` and `undefined`).
 */
module JsValue {
  import opened JsText

  datatype Value =
    | Undefined
    | Null
    | Bool(b: bool)
    | Num(n: int)
    | Str(s: string)

  /** JavaScript's ToBoolean: `undefined`, `null`, `false`, `0` and `""` are falsy. */
  predicate Truthy(v: Value) {
    match v
    case Undefined => false
    case Null => false
    case Bool(b) => b
    case Num(n) => n != 0
    case Str(s) => s != ""
  }

  /** `a || b`: the left operand when it is truthy, the right one otherwise. */
  function Or(a: Value, b: Value): (r: Value)
    ensures Truthy(a) ==> r == a
    ensures !Truthy(a) ==> r == b
    ensures Truthy(r) <==> Truthy(a) || Truthy(b)
  {
    if Truthy(a) then a else b
  }

  /** `String(v)`: empty only for the empty string. */
  function ToText(v: Value): (r: string)
    ensures r == "" <==> v == Str("")
  {
    match v
    case Undefined => "undefined"
    case Null => "null"
    case Bool(b) => if b then "true" else "false"
    case Num(n) => IntText(n)
    case Str(s) => s
  }

  /**
   * The text React renders for `{v}` in JSX: a string or number prints as
   * `String(v)`, and booleans, `null` and `undefined` print nothing.
   */
  function RenderText(v: Value): (r: string)
    ensures v.Str? || v.Num? ==> r == ToText(v)
    ensures !(v.Str? || v.Num?) ==> r == ""
  {
    match v
    case Str(s) => s
    case Num(n) => IntText(n)
    case _ => ""
  }

  /** A truthy value never has empty text, so `new Error(v).message || …` keeps it. */
  lemma TruthyTextNonEmpty(v: Value)
    requires Truthy(v)
    ensures ToText(v) != ""
  {
  }

  /**
   * `v || fallback` rendered in JSX: the value's own text when it is truthy,
   * the fallback text otherwise (so `0` and `""` show the fallback).
   */
  function RenderOr(v: Value, fallback: string): (r: string)
    ensures !Truthy(v) ==> r == fallback
    ensures Truthy(v) && (v.Str? || v.Num?) ==> r == ToText(v)
    ensures v == Bool(true) ==> r == ""
  {
    RenderText(Or(v, Str(fallback)))
  }
}

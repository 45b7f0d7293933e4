/**
 * The few JavaScript value semantics the services rely on: loosely typed
 * request fields, truthiness, the truncating remainder operator and the
 * whitespace class `\s` of regular expressions.
 */
module Js {

  /** A request field as JavaScript sees it (non-integer numbers, booleans and objects are not modelled). */
  datatype JsValue = Undefined | Num(n: int) | Str(s: string)

  /** JavaScript truthiness: undefined, 0 and "" are falsy. */
  predicate Truthy(v: JsValue)
  {
    match v
    case Undefined => false
    case Num(n) => n != 0
    case Str(s) => s != ""
  }

  /** `a % n` for a positive `n`: the sign of the result follows the dividend. */
  function Rem(a: int, n: int): (r: int)
    requires n > 0
    ensures a >= 0 ==> r == a % n
    ensures -n < r < n
    ensures a >= 0 ==> r >= 0
    ensures a <= 0 ==> r <= 0
  {
    if a >= 0 then a % n else -((-a) % n)
  }

  /** The characters the regular-expression class `\s` matches. */
  predicate IsWhitespace(c: char)
  {
    c == ' ' || c == '\t' || c == '\n' || c == '\r' || c == '\U{0B}' || c == '\U{0C}'
    || c == '\U{A0}' || c == '\U{1680}' || ('\U{2000}' <= c <= '\U{200A}')
    || c == '\U{2028}' || c == '\U{2029}' || c == '\U{202F}' || c == '\U{205F}'
    || c == '\U{3000}' || c == '\U{FEFF}'
  }

  predicate IsHexDigit(c: char)
  {
    ('0' <= c <= '9') || ('a' <= c <= 'f') || ('A' <= c <= 'F')
  }

  /** `mongoose.Types.ObjectId.isValid` on a string: 24 hexadecimal digits. */
  predicate IsObjectIdString(s: string)
  {
    |s| == 24 && forall i :: 0 <= i < |s| ==> IsHexDigit(s[i])
  }
}

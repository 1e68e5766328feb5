/** Optional values and results with an error, used by every module of the model. */
module Wrappers {
  datatype Option<+T> = None | Some(value: T)

  datatype Result<+T, +E> = Ok(value: T) | Err(error: E)
}

/**
  The slice of JavaScript's value semantics that the two commands rely on:
  `null` versus `undefined`, the `??` operator, truthiness, object spread
  and the string tests their regular expressions perform.
 */
module Js {

  /** A JavaScript value. Numbers are integers in this model. */
  datatype Value =
    | Undefined
    | Null
    | Bool(b: bool)
    | Num(n: int)
    | Str(s: string)
    | Arr(elems: seq<Value>)
    | Obj(fields: map<string, Value>)

  /** The values that `??` skips. */
  predicate IsNullish(v: Value) {
    v.Undefined? || v.Null?
  }

  /** ToBoolean (section 7.1.2 of ECMA-262). */
  predicate Truthy(v: Value) {
    match v
    case Undefined => false
    case Null => false
    case Bool(b) => b
    case Num(n) => n != 0
    case Str(s) => s != ""
    case Arr(_) => true
    case Obj(_) => true
  }

  /** `a ?? b` */
  function Coalesce(a: Value, b: Value): Value {
    if IsNullish(a) then b else a
  }

  /** Property read `m[k]`: `undefined` when the key is absent. */
  function Get(m: map<string, Value>, k: string): Value {
    if k in m then m[k] else Undefined
  }

  function DigitChar(d: nat): char
    requires d < 10
  {
    "0123456789"[d]
  }

  /** The property key of an array or string index: its decimal spelling. */
  function IndexKey(n: nat): string
  {
    if n < 10 then [DigitChar(n)] else IndexKey(n / 10) + [DigitChar(n % 10)]
  }

  /** Own enumerable properties of an indexed value: one key per index. */
  function IndexedProperties(elems: seq<Value>): map<string, Value>
  {
    if elems == [] then map[]
    else IndexedProperties(elems[..|elems| - 1])[IndexKey(|elems| - 1) := elems[|elems| - 1]]
  }

  /**
    The own enumerable properties that object spread `{...v}` copies. A
    string spreads into one property per character, other primitives into
    none. `null` and `undefined` are the caller's concern: destructuring
    them throws.
   */
  function OwnProperties(v: Value): map<string, Value>
  {
    match v
    case Obj(fields) => fields
    case Arr(elems) => IndexedProperties(elems)
    case Str(s) => IndexedProperties(seq(|s|, i requires 0 <= i < |s| => Str([s[i]])))
    case _ => map[]
  }

  predicate StartsWith(s: string, prefix: string) {
    prefix <= s
  }

  predicate EndsWith(s: string, suffix: string) {
    |suffix| <= |s| && s[|s| - |suffix|..] == suffix
  }

  function LowerChar(c: char): char {
    if 'A' <= c <= 'Z' then (c as int + 32) as char else c
  }

  /**
    The case folding a regular expression with the `i` flag and without
    `u` applies before comparing with an ASCII pattern: only ASCII letters
    fold onto ASCII letters.
   */
  function LowerAscii(s: string): string {
    seq(|s|, i requires 0 <= i < |s| => LowerChar(s[i]))
  }
}

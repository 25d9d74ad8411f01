/** The JavaScript values the route handlers receive in a request body, the
    truthiness test `!x` they apply to them, and `String.prototype.toUpperCase`
    on strings; on any other value it throws a TypeError, which the handlers
    in `Rutas` test for with `v.Str?`. */
module Js {

  datatype Option<+T> = None | Some(value: T)

  /** A request-body field as the handlers see it once the JSON is parsed.
      A boolean, an array or an object behaves in every handler like a number:
      truthy or falsy, and without a `toUpperCase` method. */
  datatype Value = Undefined | Null | Num(n: int) | Str(s: string)

  /** `!v` is false exactly for these values. */
  predicate Truthy(v: Value) {
    match v
    case Undefined => false
    case Null => false
    case Num(n) => n != 0
    case Str(s) => s != ""
  }

  /** Truthiness of a numeric id field that may be missing or null. */
  predicate TruthyId(v: Option<int>) {
    v.Some? && v.value != 0
  }

  predicate IsLower(c: char) {
    'a' <= c <= 'z' || ('\U{E0}' <= c <= '\U{FE}' && c != '\U{F7}')
  }

  /** Upper-case mapping of one character: the ASCII letters and the Latin-1
      letters whose capital is also in Latin-1 (a-z, U+00E0..U+00FE without U+00F7). */
  function UpperChar(c: char): (u: char)
    ensures IsLower(c) ==> u as int == c as int - 32
    ensures !IsLower(c) ==> u == c
    ensures !IsLower(u)
  {
    if IsLower(c) then (c as int - 32) as char else c
  }

  /** A string that upper-casing leaves unchanged. */
  predicate IsUpper(s: string) {
    forall i :: 0 <= i < |s| ==> !IsLower(s[i])
  }

  /** `s.toUpperCase()`, character by character. */
  function ToUpper(s: string): (r: string)
    ensures |r| == |s|
    ensures forall i :: 0 <= i < |s| ==> r[i] == UpperChar(s[i])
    ensures IsUpper(r)
  {
    seq(|s|, i requires 0 <= i < |s| => UpperChar(s[i]))
  }

  /** An upper-case string is a fixed point of upper-casing. */
  lemma UpperFixed(s: string)
    requires IsUpper(s)
    ensures ToUpper(s) == s
  {
  }

  /** Upper-casing is idempotent. */
  lemma ToUpperIdempotent(s: string)
    ensures ToUpper(ToUpper(s)) == ToUpper(s)
  {
    UpperFixed(ToUpper(s));
  }

  /** Two strings that differ only in the case of their letters upper-case alike. */
  lemma ToUpperIgnoresCase(s: string, t: string)
    requires |s| == |t|
    requires forall i :: 0 <= i < |s| ==> s[i] == t[i] || UpperChar(s[i]) == t[i] || s[i] == UpperChar(t[i])
    ensures ToUpper(s) == ToUpper(t)
  {
    assert forall i :: 0 <= i < |s| ==> ToUpper(s)[i] == ToUpper(t)[i];
  }
}

/** The slice of JavaScript value semantics that the extension scripts rely on:
    JSON payloads, truthiness, property reads with and without optional
    chaining, `||` and `??` fallbacks, and the ASCII part of the string methods
    they call (`toUpperCase`, `toLowerCase`, `includes`, `startsWith`). */
module Js {

  datatype Option<+T> = None | Some(value: T)

  /** How a JavaScript expression completes: with a value, or by throwing an
      error whose `message` is kept. */
  datatype Completion<+T> = Normal(value: T) | Abrupt(message: string)

  /** A JSON value, as `response.json()` produces it and as extension storage
      hands it back. Numbers are integers in this model. */
  datatype Json =
    | JNull
    | JBool(b: bool)
    | JNum(n: int)
    | JStr(s: string)
    | JArr(items: seq<Json>)
    | JObj(fields: map<string, Json>)

  /** The outcome of one request to the remote classifier: a parsed JSON body,
      or the message of the error that `fetch`, the HTTP status check or
      `response.json()` threw. */
  datatype Reply = Ok(body: Json) | Fail(message: string)

  const EmptyObject: Json := JObj(map[])

  /** The message V8 gives when a property is read from `v`, which is
      `undefined` or `null`. */
  function ReadOfNullish(v: Option<Json>): (m: string)
    ensures m == "Cannot read properties of null" <==> v == Some(JNull)
  {
    if v == Some(JNull) then "Cannot read properties of null" else "Cannot read properties of undefined"
  }

  /** The message V8 gives when `toUpperCase` is called on a non-string. */
  const NotAFunction: string := "toUpperCase is not a function"

  /** JavaScript truthiness; `None` stands for `undefined`. */
  predicate Truthy(v: Option<Json>) {
    match v
    case None => false
    case Some(JNull) => false
    case Some(JBool(b)) => b
    case Some(JNum(n)) => n != 0
    case Some(JStr(s)) => s != ""
    case Some(_) => true
  }

  /** `undefined` or `null`: what `??` skips and what `x.k` throws on. */
  predicate Nullish(v: Option<Json>) {
    v.None? || v == Some(JNull)
  }

  /** `a || b` */
  function Or(a: Option<Json>, b: Option<Json>): Option<Json> {
    if Truthy(a) then a else b
  }

  /** `a ?? b` */
  function Coalesce(a: Option<Json>, b: Option<Json>): Option<Json> {
    if Nullish(a) then b else a
  }

  /** `x?.key`, and `x.key` once `x` is known not to be nullish: only an
      object has the JSON fields read here, so any other receiver, or a
      missing key, reads as `undefined`. */
  function Prop(x: Option<Json>, key: string): Option<Json> {
    if x.Some? && x.value.JObj? && key in x.value.fields then Some(x.value.fields[key]) else None
  }

  /** `Array.isArray(x)` */
  predicate IsArray(x: Option<Json>) {
    x.Some? && x.value.JArr?
  }

  /** `a[i]`: `undefined` past the end of an array and on anything else. */
  function At(a: Json, i: nat): Option<Json> {
    if a.JArr? && i < |a.items| then Some(a.items[i]) else None
  }

  /** `x.length > 0` for a value that is already known to be truthy: arrays
      and strings have a length; an object only through a numeric `length`
      field; on everything else `length` is `undefined` and the test fails. */
  predicate LengthPositive(x: Json) {
    match x
    case JArr(xs) => |xs| > 0
    case JStr(s) => |s| > 0
    case JObj(m) => "length" in m && m["length"].JNum? && m["length"].n > 0
    case _ => false
  }

  function UpperChar(c: char): char {
    if 'a' <= c <= 'z' then (c as int - 32) as char else c
  }

  function LowerChar(c: char): char {
    if 'A' <= c <= 'Z' then (c as int + 32) as char else c
  }

  /** `s.toUpperCase()`, on the ASCII letters. */
  function Upper(s: string): string {
    seq(|s|, i requires 0 <= i < |s| => UpperChar(s[i]))
  }

  /** `s.toLowerCase()`, on the ASCII letters. */
  function Lower(s: string): string {
    seq(|s|, i requires 0 <= i < |s| => LowerChar(s[i]))
  }

  /** `s.startsWith(prefix)` */
  predicate StartsWith(s: string, prefix: string) {
    |prefix| <= |s| && s[..|prefix|] == prefix
  }

  /** `s.includes(sub)`: `sub` occurs somewhere in `s`. */
  predicate Contains(s: string, sub: string)
    decreases |s|
  {
    |sub| <= |s| && (s[..|sub|] == sub || Contains(s[1..], sub))
  }

  /** Upper-casing twice is upper-casing once, so a comparison against
      upper-case literals after `toUpperCase` ignores the input's case. */
  lemma UpperIdempotent(s: string)
    ensures Upper(Upper(s)) == Upper(s)
  {
  }

  /** A string with no lower-case ASCII letter is its own upper case. */
  lemma UpperKeeps(s: string)
    requires forall i :: 0 <= i < |s| ==> !('a' <= s[i] <= 'z')
    ensures Upper(s) == s
  {
  }

  /** `includes` finds an occurrence at every offset where one starts. */
  lemma {:induction false} ContainsAt(s: string, sub: string, i: nat)
    requires i + |sub| <= |s| && s[i..i + |sub|] == sub
    ensures Contains(s, sub)
    decreases i
  {
    if i > 0 {
      assert s[1..][i - 1..i - 1 + |sub|] == s[i..i + |sub|];
      ContainsAt(s[1..], sub, i - 1);
    } else {
      assert s[..|sub|] == s[i..i + |sub|];
    }
  }
}

/** Shared vocabulary: optional values, record identifiers and the loosely typed
    values that arrive in a request body. */
module Common {

  /** A document identifier (an ObjectId in the store). */
  type Id = nat

  datatype Option<T> = None | Some(value: T)

  /** The outcome of a handler: a value, or the error it passes to `next`. */
  datatype Result<T, E> = Ok(value: T) | Err(error: E)

  /** A value as it can appear in a parsed JSON request body. */
  datatype Value = Int(i: int) | Dec(r: real) | Text(s: string) | Ref(id: Id) | Null

  /** JavaScript truthiness of a body value: `0`, `0.0`, `""` and `null` are falsy. */
  predicate Truthy(v: Value)
  {
    match v
    case Int(i) => i != 0
    case Dec(r) => r != 0.0
    case Text(s) => s != ""
    case Ref(_) => true
    case Null => false
  }

  /** Lower-casing of one character, for the ASCII range. */
  function LowerChar(c: char): (d: char)
    ensures 'A' <= c <= 'Z' ==> 'a' <= d <= 'z' && d as int == c as int + 32
    ensures !('A' <= c <= 'Z') ==> d == c
  {
    if 'A' <= c <= 'Z' then (c as int - 'A' as int + 'a' as int) as char else c
  }

  /** `String.prototype.toLowerCase`, restricted to ASCII letters. */
  function Lower(s: string): (r: string)
    ensures |r| == |s|
    ensures forall i :: 0 <= i < |s| ==> r[i] == LowerChar(s[i])
  {
    if s == [] then [] else [LowerChar(s[0])] + Lower(s[1..])
  }

  /** Lower-casing twice is lower-casing once: an email the schema stored
      lower-cased is found again under its own lower-cased form. */
  lemma LowerIdempotent(s: string)
    ensures Lower(Lower(s)) == Lower(s)
  {
    var l := Lower(s);
    assert forall i :: 0 <= i < |l| ==> LowerChar(l[i]) == l[i];
  }
}

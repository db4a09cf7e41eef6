/** The small part of JavaScript's value semantics that the scanner page relies
    on: values that may be `undefined`, truthiness of strings, the `a || b`
    default, `Array.prototype.join` and `String.prototype.includes`. */
module Js {

  datatype Option<+T> = None | Some(value: T)

  datatype Result<+T, +E> = Ok(value: T) | Err(error: E)

  /** A JSON field that is either absent (`undefined`) or a string. */
  type JsString = Option<string>

  /** JavaScript truthiness of a possibly-absent string: present and non-empty. */
  predicate Truthy(s: JsString) {
    s.Some? && s.value != ""
  }

  /** `s || fallback`: the string itself when it is truthy, else the fallback. */
  function Or(s: JsString, fallback: string): (r: string)
    ensures Truthy(s) ==> r == s.value
    ensures !Truthy(s) ==> r == fallback
    ensures fallback != "" ==> r != ""
  {
    if Truthy(s) then s.value else fallback
  }

  /** `parts.join(sep)`: the parts in order, with `sep` between neighbours. */
  function Join(parts: seq<string>, sep: string): (r: string)
    ensures |parts| == 0 ==> r == ""
    ensures |parts| == 1 ==> r == parts[0]
    // The result starts with the first part and ends with the last one.
    ensures |parts| > 0 ==> parts[0] <= r
    ensures |parts| > 0 ==> |parts[|parts| - 1]| <= |r| && r[|r| - |parts[|parts| - 1]|..] == parts[|parts| - 1]
  {
    if |parts| == 0 then ""
    else if |parts| == 1 then parts[0]
    else
      var rest := Join(parts[1..], sep);
      var r := parts[0] + sep + rest;
      assert r[|r| - |rest|..] == rest;
      r
  }

  /** `join` builds its result left to right, as the ECMAScript definition of
      `Array.prototype.join` does: joining one more part appends the separator
      and that part to the join of the others. */
  lemma {:induction false} JoinAppend(parts: seq<string>, x: string, sep: string)
    requires |parts| > 0
    ensures Join(parts + [x], sep) == Join(parts, sep) + sep + x
  {
    if |parts| == 1 {
      assert parts + [x] == [parts[0], x];
    } else {
      assert (parts + [x])[1..] == parts[1..] + [x];
      JoinAppend(parts[1..], x, sep);
    }
  }

  /** `named.map(x => x.name)` as `join` sees it: an absent name stays
      `undefined`, which `join` renders as the empty string. */
  function Names(named: seq<JsString>): (r: seq<string>)
    ensures |r| == |named|
    ensures forall i :: 0 <= i < |named| && named[i].Some? ==> r[i] == named[i].value
    ensures forall i :: 0 <= i < |named| && named[i].None? ==> r[i] == ""
  {
    if |named| == 0 then []
    else [if named[0].Some? then named[0].value else ""] + Names(named[1..])
  }

  /** `sub` occurs in `s` starting at index `i`. */
  predicate OccursAt(s: string, sub: string, i: int) {
    0 <= i && i + |sub| <= |s| && s[i..i + |sub|] == sub
  }

  /** `s.includes(sub)`: case-sensitive substring search. */
  function Includes(s: string, sub: string): (r: bool)
    ensures r <==> exists i :: OccursAt(s, sub, i)
    decreases |s|
  {
    if |sub| > |s| then
      false
    else if s[..|sub|] == sub then
      assert OccursAt(s, sub, 0);
      true
    else
      var r := Includes(s[1..], sub);
      assert forall i :: OccursAt(s[1..], sub, i) <==> OccursAt(s, sub, i + 1) by {
        forall i ensures OccursAt(s[1..], sub, i) <==> OccursAt(s, sub, i + 1) {
          if 0 <= i && i + |sub| <= |s| - 1 {
            assert s[1..][i..i + |sub|] == s[i + 1..i + 1 + |sub|];
          }
        }
      }
      assert !OccursAt(s, sub, 0);
      assert forall i :: OccursAt(s, sub, i) ==> i == 0 || OccursAt(s[1..], sub, i - 1);
      r
  }
}

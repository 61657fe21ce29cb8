/** The few JavaScript value semantics the scoring and list code relies on:
    truthiness, the numeric conversions done by `parseFloat`, `parseInt` and
    the relational operators, NaN propagation, ASCII lower-casing and
    `String.prototype.includes`. */
module Js {

  /** A JavaScript value as the rubric code meets it in a record field.
      `Undefined` also stands for the number NaN: both are falsy and both
      convert to NaN under every conversion used here. A `NumericString(n)`
      is a well-formed decimal literal, which `Number()` and `parseFloat()`
      both read as `n`; an `OtherString` is a non-empty string that neither
      reads as a number. */
  datatype Value =
    | Undefined
    | Null
    | Number(n: real)
    | EmptyString
    | NumericString(n: real)
    | OtherString

  /** The values a numeric database column or a JSON number can hold. */
  type NumberOrNull = v: Value | v.Undefined? || v.Null? || v.Number? witness Undefined

  /** The result of a numeric conversion: a finite number or NaN. */
  datatype Num = NaN | Finite(x: real)

  /** `!!v`: zero, NaN, null, undefined and the empty string are falsy. */
  predicate Truthy(v: Value) {
    match v
    case Number(n) => n != 0.0
    case NumericString(_) => true
    case OtherString => true
    case _ => false
  }

  /** `Number(v)`, the conversion a relational operator applies to a
      non-number operand when the other operand is a number. */
  function ToNumber(v: Value): (r: Num)
    ensures (v.Number? || v.NumericString?) ==> r == Finite(v.n)
    ensures (v.Null? || v.EmptyString?) ==> r == Finite(0.0)
    ensures (v.Undefined? || v.OtherString?) ==> r == NaN
  {
    match v
    case Undefined => NaN
    case Null => Finite(0.0)
    case Number(n) => Finite(n)
    case EmptyString => Finite(0.0)
    case NumericString(n) => Finite(n)
    case OtherString => NaN
  }

  /** `parseFloat(v)`: unlike `Number`, it reads null and "" as NaN. */
  function ParseFloat(v: Value): (r: Num)
    ensures r.Finite? <==> (v.Number? || v.NumericString?)
    ensures r.Finite? ==> r.x == v.n
  {
    match v
    case Number(n) => Finite(n)
    case NumericString(n) => Finite(n)
    case _ => NaN
  }

  /** Truncation toward zero, as `parseInt` does to a decimal literal. */
  function Trunc(x: real): (r: int)
    ensures x >= 0.0 ==> r as real <= x < r as real + 1.0
    ensures x < 0.0 ==> r as real - 1.0 < x <= r as real
  {
    if x >= 0.0 then x.Floor else -((-x).Floor)
  }

  /** `parseInt(v)` on the values of the model. */
  function ParseInt(v: Value): (r: Num)
    ensures r.Finite? <==> ParseFloat(v).Finite?
  {
    match ParseFloat(v)
    case NaN => NaN
    case Finite(x) => Finite(Trunc(x) as real)
  }

  /** `a >= b` on numbers: false as soon as either side is NaN. */
  predicate Ge(a: Num, b: Num) {
    a.Finite? && b.Finite? && a.x >= b.x
  }

  /** `a > b` on numbers: false as soon as either side is NaN. */
  predicate Gt(a: Num, b: Num) {
    a.Finite? && b.Finite? && a.x > b.x
  }

  /** `a - d` for a constant `d`. */
  function Minus(a: Num, d: real): (r: Num)
    ensures r.Finite? <==> a.Finite?
  {
    match a
    case NaN => NaN
    case Finite(x) => Finite(x - d)
  }

  /** `a * k` for a constant `k`. */
  function Times(a: Num, k: real): (r: Num)
    ensures r.Finite? <==> a.Finite?
  {
    match a
    case NaN => NaN
    case Finite(x) => Finite(x * k)
  }

  /** A falsy value converts to 0 or to NaN, so it never reaches a positive
      threshold: guarding a comparison with a positive threshold by the
      value's truthiness changes nothing. */
  lemma FalsyBelowPositive(v: Value, t: real)
    requires t > 0.0
    ensures Ge(ToNumber(v), Finite(t)) ==> Truthy(v)
  {
    match v
    case Number(n) =>
    case NumericString(_) =>
    case _ =>
  }

  /** ASCII upper-case letters are lowered; every other character is kept. */
  function LowerChar(c: char): (r: char)
    ensures 'A' <= c <= 'Z' ==> r as int == c as int + 32
    ensures !('A' <= c <= 'Z') ==> r == c
  {
    if 'A' <= c <= 'Z' then (c as int + 32) as char else c
  }

  /** `s.toLowerCase()` restricted to ASCII letters: accented and other
      non-ASCII capitals are kept as they are. */
  function ToLower(s: string): (r: string)
    ensures |r| == |s|
    ensures forall i :: 0 <= i < |s| ==> r[i] == LowerChar(s[i])
  {
    seq(|s|, i requires 0 <= i < |s| => LowerChar(s[i]))
  }

  /** `s.includes(sub)`: `sub` occurs in `s` at some offset. */
  predicate Includes(s: string, sub: string)
    decreases |s|
  {
    sub <= s || (s != [] && Includes(s[1..], sub))
  }

  /** `sub` occurs in `s` starting at offset `i`. */
  predicate OccursAt(s: string, sub: string, i: int) {
    0 <= i <= |s| - |sub| && s[i..i + |sub|] == sub
  }

  /** `Includes` holds exactly when `sub` occurs in `s` at some offset. */
  lemma {:induction false} IncludesAt(s: string, sub: string)
    ensures Includes(s, sub) <==> exists i :: OccursAt(s, sub, i)
  {
    if sub <= s {
      assert OccursAt(s, sub, 0);
    } else if s == [] {
      assert forall i :: !OccursAt(s, sub, i);
    } else {
      IncludesAt(s[1..], sub);
      if exists i :: OccursAt(s, sub, i) {
        var i :| OccursAt(s, sub, i);
        assert i != 0;
        assert OccursAt(s[1..], sub, i - 1);
      }
      if exists j :: OccursAt(s[1..], sub, j) {
        var j :| OccursAt(s[1..], sub, j);
        assert OccursAt(s, sub, j + 1);
      }
    }
  }
}

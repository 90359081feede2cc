/** The slice of JavaScript value semantics that the console's screens rely on:
    JSON field values, truthiness, `toString`, template interpolation, ASCII
    `toLowerCase`, `String.prototype.includes` and `split(c)[0]`. */
module Js {

  /** `null` or a present value (the `selectedX` state of every screen). */
  datatype Option<+T> = None | Some(value: T)

  /** The outcome of evaluating an expression that may throw a TypeError. */
  datatype Eval<+T> = Throws | Returns(value: T) {
    predicate IsFailure() { Throws? }

    function PropagateFailure<U>(): Eval<U>
      requires Throws?
    {
      Throws
    }

    function Extract(): T
      requires Returns?
    {
      value
    }
  }

  /** A field of a JSON record as the console receives it from the backend.
      Numbers are integers: the fields read as numbers are ids. */
  datatype Value = Undefined | Null | Str(s: string) | Num(n: int)

  /** JavaScript truthiness: '', 0, null and undefined are falsy. */
  predicate Truthy(v: Value)
    ensures Truthy(v) <==> v != Undefined && v != Null && v != Str("") && v != Num(0)
  {
    match v
    case Str(s) => s != ""
    case Num(n) => n != 0
    case _ => false
  }

  predicate Nullish(v: Value) {
    v.Undefined? || v.Null?
  }

  /** `a || b` */
  function Or(a: Value, b: Value): (r: Value)
    ensures Truthy(r) <==> Truthy(a) || Truthy(b)
    ensures Truthy(a) ==> r == a
    ensures !Truthy(a) ==> r == b
  {
    if Truthy(a) then a else b
  }

  // ---------------------------------------------------------------- lower case

  function LowerChar(c: char): char {
    if 'A' <= c <= 'Z' then (c as int + 32) as char else c
  }

  /** `s.toLowerCase()`, restricted to the ASCII letters. */
  function Lower(s: string): (r: string)
    ensures |r| == |s|
    ensures forall i :: 0 <= i < |s| ==> r[i] == LowerChar(s[i])
  {
    if s == [] then [] else [LowerChar(s[0])] + Lower(s[1..])
  }

  /** Lower-casing twice is lower-casing once. */
  lemma LowerIdempotent(s: string)
    ensures Lower(Lower(s)) == Lower(s)
  {
    assert forall i :: 0 <= i < |s| ==> Lower(Lower(s))[i] == Lower(s)[i];
  }

  // ---------------------------------------------------------------- includes

  predicate IsPrefix(p: string, s: string) {
    |p| <= |s| && p == s[..|p|]
  }

  /** `s.includes(sub)`, scanning s from the left. A string includes each of
      its prefixes (the empty one among them) and nothing longer than itself. */
  function Includes(s: string, sub: string): (r: bool)
    ensures IsPrefix(sub, s) ==> r
    ensures r ==> |sub| <= |s|
    decreases |s|
  {
    IsPrefix(sub, s) || (s != [] && Includes(s[1..], sub))
  }

  /** The scan agrees with the definition of substring containment: sub occurs
      in s at some position i. */
  lemma {:induction false} IncludesIff(s: string, sub: string)
    ensures Includes(s, sub) <==> exists i :: 0 <= i <= |s| && IsPrefix(sub, s[i..])
    decreases |s|
  {
    if Includes(s, sub) {
      if IsPrefix(sub, s) {
        assert s[0..] == s;
      } else {
        IncludesIff(s[1..], sub);
        var j :| 0 <= j <= |s[1..]| && IsPrefix(sub, s[1..][j..]);
        assert s[1..][j..] == s[j + 1..];
      }
    }
    if exists i :: 0 <= i <= |s| && IsPrefix(sub, s[i..]) {
      var i :| 0 <= i <= |s| && IsPrefix(sub, s[i..]);
      if i == 0 {
        assert s[0..] == s;
      } else {
        assert s[1..][i - 1..] == s[i..];
        IncludesIff(s[1..], sub);
      }
    }
  }

  /** Every string includes the empty string, so an empty filter matches. */
  lemma IncludesEmpty(s: string)
    ensures Includes(s, "")
  {
  }

  /** A string that includes some text includes every prefix of that text: a
      longer filter never matches more. */
  lemma {:induction false} IncludesPrefix(s: string, p: string, sub: string)
    requires IsPrefix(p, sub)
    ensures Includes(s, sub) ==> Includes(s, p)
    decreases |s|
  {
    if Includes(s, sub) && !IsPrefix(sub, s) {
      IncludesPrefix(s[1..], p, sub);
    }
  }

  // ---------------------------------------------------------------- split

  /** `s.split(c)[0]`: the part of s before the first c, or all of s. */
  function BeforeFirst(s: string, c: char): (r: string)
    ensures IsPrefix(r, s)
    ensures c !in r
    ensures |r| < |s| ==> s[|r|] == c
  {
    if s == [] || s[0] == c then [] else [s[0]] + BeforeFirst(s[1..], c)
  }

  // ---------------------------------------------------------------- numbers

  function DigitChar(d: nat): (c: char)
    requires d < 10
    ensures '0' <= c <= '9'
  {
    ('0' as int + d) as char
  }

  predicate AllDigits(s: string) {
    forall i :: 0 <= i < |s| ==> '0' <= s[i] <= '9'
  }

  /** The decimal spelling of a natural number, as `Number.prototype.toString` gives it. */
  function NatToString(n: nat): (r: string)
    ensures r != [] && AllDigits(r)
    ensures |r| > 1 ==> r[0] != '0'
  {
    if n < 10 then [DigitChar(n)] else NatToString(n / 10) + [DigitChar(n % 10)]
  }

  /** Reads a run of decimal digits back as a number. */
  function ParseNat(s: string): nat
    requires AllDigits(s)
  {
    if s == [] then 0 else 10 * ParseNat(s[..|s| - 1]) + (s[|s| - 1] as int - '0' as int)
  }

  /** The decimal spelling loses nothing: reading it back gives the number. */
  lemma {:induction false} ParseNatToString(n: nat)
    ensures ParseNat(NatToString(n)) == n
  {
    var r := NatToString(n);
    if n >= 10 {
      ParseNatToString(n / 10);
      assert r[..|r| - 1] == NatToString(n / 10);
    }
  }

  function IntToString(n: int): (r: string)
    ensures r != []
    ensures n >= 0 ==> AllDigits(r)
    ensures n < 0 ==> r[0] == '-'
  {
    if n < 0 then "-" + NatToString(-n) else NatToString(n)
  }

  // ---------------------------------------------------------------- conversions

  /** `${v}` and `String(v)`: never throws. A string is its own text; a
      non-negative number is spelled in digits that read back as the number. */
  function Interpolate(v: Value): (r: string)
    ensures v.Str? ==> r == v.s
    ensures !v.Str? ==> r != ""
    ensures v.Num? && v.n >= 0 ==> AllDigits(r) && ParseNat(r) == v.n
    ensures v.Num? && v.n < 0 ==> r[0] == '-'
  {
    match v
    case Undefined => "undefined"
    case Null => "null"
    case Str(s) => s
    case Num(n) => if n >= 0 then ParseNatToString(n); IntToString(n) else IntToString(n)
  }

  /** `v.toString()`: a TypeError on null and undefined. */
  function ToText(v: Value): (r: Eval<string>)
    ensures r.Throws? <==> Nullish(v)
    ensures r.Returns? ==> r.value == Interpolate(v)
  {
    if Nullish(v) then Throws else Returns(Interpolate(v))
  }

  /** The text of a truthy value is never empty. */
  lemma TruthyTextNonEmpty(v: Value)
    requires Truthy(v)
    ensures ToText(v).Returns? && ToText(v).value != ""
  {
  }

  /** `v.toLowerCase()`: only strings have it. */
  function ToLowerCase(v: Value): (r: Eval<string>)
    ensures r.Returns? <==> v.Str?
    ensures r.Returns? ==> r.value == Lower(v.s)
  {
    if v.Str? then Returns(Lower(v.s)) else Throws
  }

  /** `v.includes(sub)` where the receiver should be a string. */
  function StrIncludes(v: Value, sub: string): (r: Eval<bool>)
    ensures r.Returns? <==> v.Str?
    ensures r.Returns? ==> r.value == Includes(v.s, sub)
  {
    if v.Str? then Returns(Includes(v.s, sub)) else Throws
  }

  /** `v && v.toLowerCase().includes(filter.toLowerCase())` (and its spelling
      with `? … : false`) as a filter condition on one column: falsy values never
      match, truthy strings match when they contain the filter ignoring case, and
      any other truthy value throws. */
  function MatchesIgnoringCase(v: Value, filter: string): (r: Eval<bool>)
    ensures r.Throws? <==> Truthy(v) && !v.Str?
    ensures r == Returns(true) <==> v.Str? && v.s != "" && Includes(Lower(v.s), Lower(filter))
  {
    if !Truthy(v) then Returns(false)
    else
      var text :- ToLowerCase(v);
      Returns(Includes(text, Lower(filter)))
  }

  /** `v.split(c)[0]` where the receiver should be a string. */
  function SplitHead(v: Value, c: char): (r: Eval<string>)
    ensures r.Returns? <==> v.Str?
    ensures r.Returns? ==> c !in r.value && IsPrefix(r.value, v.s)
    ensures r.Returns? && |r.value| < |v.s| ==> v.s[|r.value|] == c
  {
    if v.Str? then Returns(BeforeFirst(v.s, c)) else Throws
  }
}

/** Small vocabulary shared by every module: optional values, JavaScript
    truthiness of strings, the default string order of `Array.prototype.sort`,
    and `Math.ceil` of an integer quotient. */
module Common {

  /** A value that may be missing: `null` or `undefined` in the source. */
  datatype Option<+T> = None | Some(value: T)

  /** JavaScript truthiness of a value that is a string, `null` or `undefined`:
      absent and the empty string are both falsy. */
  predicate Present(s: Option<string>) {
    s.Some? && s.value != ""
  }

  /** `a < b` on strings: lexicographic order on characters, a proper prefix
      being smaller. */
  predicate StrLess(a: string, b: string)
    decreases |a|
  {
    if |a| == 0 then |b| > 0
    else if |b| == 0 then false
    else if a[0] != b[0] then a[0] < b[0]
    else StrLess(a[1..], b[1..])
  }

  lemma {:induction false} StrLessIrreflexive(a: string)
    ensures !StrLess(a, a)
    decreases |a|
  {
    if |a| > 0 {
      StrLessIrreflexive(a[1..]);
    }
  }

  lemma {:induction false} StrLessAsymmetric(a: string, b: string)
    ensures !(StrLess(a, b) && StrLess(b, a))
    decreases |a|
  {
    if |a| > 0 && |b| > 0 && a[0] == b[0] {
      StrLessAsymmetric(a[1..], b[1..]);
    }
  }

  /** Any two different strings are ordered one way or the other. */
  lemma {:induction false} StrLessTotal(a: string, b: string)
    ensures a == b || StrLess(a, b) || StrLess(b, a)
    decreases |a|
  {
    if |a| > 0 && |b| > 0 && a[0] == b[0] {
      StrLessTotal(a[1..], b[1..]);
      if a[1..] == b[1..] {
        assert a == [a[0]] + a[1..] && b == [b[0]] + b[1..];
      }
    }
  }

  /** `[a, b].sort()` with the default comparator: the two strings in
      ascending order; the sort is stable, so equal strings keep their places. */
  function SortTwo(a: string, b: string): (r: (string, string))
    ensures (r.0 == a && r.1 == b) || (r.0 == b && r.1 == a)
    ensures !StrLess(r.1, r.0)
  {
    StrLessAsymmetric(a, b);
    if StrLess(b, a) then (b, a) else (a, b)
  }

  /** The sorted pair does not depend on the order of the arguments. */
  lemma SortTwoSymmetric(a: string, b: string)
    ensures SortTwo(a, b) == SortTwo(b, a)
  {
    StrLessTotal(a, b);
    StrLessAsymmetric(a, b);
  }

  /** `Math.ceil(a / b)` for a positive divisor (Dafny's `/` rounds down here). */
  function CeilDiv(a: int, b: int): (q: int)
    requires b > 0
    ensures (q - 1) * b < a <= q * b
  {
    if a % b == 0 then a / b else a / b + 1
  }

  function Max(a: int, b: int): (m: int) {
    if a < b then b else a
  }
}

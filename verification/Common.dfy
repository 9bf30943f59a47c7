/**
  What several modules share: optional values, the order and case of strings, and
  sequences without repeats.
*/
module Common {
  datatype Option<T> = None | Some(value: T)

  predicate IsDistinct<T(==)>(xs: seq<T>) {
    forall i, j | 0 <= i < j < |xs| :: xs[i] != xs[j]
  }

  lemma DistinctNext<T>(init: seq<T>, last: T)
    ensures IsDistinct(init + [last]) <==> IsDistinct(init) && last !in init
  {
    var xs := init + [last];
    if IsDistinct(xs) {
      forall i, j | 0 <= i < j < |init| ensures init[i] != init[j] { assert xs[i] != xs[j]; }
      forall i | 0 <= i < |init| ensures init[i] != last { assert xs[i] != xs[|init|]; }
    }
  }

  /** The order of strings, character by character. */
  predicate Less(a: string, b: string) {
    b != "" && (a == "" || a[0] < b[0] || (a[0] == b[0] && Less(a[1..], b[1..])))
  }

  lemma {:induction false} LessIsAsymmetric(a: string, b: string)
    requires Less(a, b)
    ensures !Less(b, a)
  {
    if a != "" && a[0] == b[0] { LessIsAsymmetric(a[1..], b[1..]); }
  }

  function LowerChar(c: char): char {
    if 'A' <= c <= 'Z' then c - 'A' + 'a' else c
  }

  /** ASCII letters in lower case. */
  function Lower(s: string): (r: string)
    ensures |r| == |s| && forall k | 0 <= k < |s| :: r[k] == LowerChar(s[k])
  {
    seq(|s|, k requires 0 <= k < |s| => LowerChar(s[k]))
  }
}

/** Options, order-preserving selection from a sequence, and saturating counters. */
module Base {

  datatype Option<+T> = None | Some(value: T)

  function Last<T>(s: seq<T>): T
    requires s != []
  {
    s[|s| - 1]
  }

  function Front<T>(s: seq<T>): seq<T>
    requires s != []
  {
    s[..|s| - 1]
  }

  /** The elements of `s` that satisfy `p`, in the order of `s`. */
  function Filter<T>(s: seq<T>, p: T -> bool): (r: seq<T>)
    ensures |r| <= |s|
    ensures forall x :: x in r ==> x in s && p(x)
    ensures forall x :: x in s && p(x) ==> x in r
  {
    if s == [] then []
    else if p(Last(s)) then Filter(Front(s), p) + [Last(s)]
    else Filter(Front(s), p)
  }

  lemma {:induction false} FilterConcat<T>(a: seq<T>, b: seq<T>, p: T -> bool)
    ensures Filter(a + b, p) == Filter(a, p) + Filter(b, p)
  {
    if b == [] {
      assert a + b == a;
    } else {
      FilterConcat(a, Front(b), p);
      assert Front(a + b) == a + Front(b) && Last(a + b) == Last(b);
      var left, right := Filter(a, p), Filter(Front(b), p);
      assert left + (right + [Last(b)]) == (left + right) + [Last(b)];
    }
  }

  lemma FilterStep<T>(s: seq<T>, n: nat, p: T -> bool)
    requires n < |s|
    ensures Filter(s[..n + 1], p) == Filter(s[..n], p) + if p(s[n]) then [s[n]] else []
  {
    assert Front(s[..n + 1]) == s[..n] && Last(s[..n + 1]) == s[n];
  }

  /** Two predicates that agree on the elements of `s` select the same subsequence. */
  lemma {:induction false} FilterAgree<T>(s: seq<T>, p: T -> bool, q: T -> bool)
    requires forall x :: x in s ==> p(x) == q(x)
    ensures Filter(s, p) == Filter(s, q)
  {
    if s != [] {
      FilterAgree(Front(s), p, q);
    }
  }

  lemma {:induction false} FilterAll<T>(s: seq<T>, p: T -> bool)
    requires forall x :: x in s ==> p(x)
    ensures Filter(s, p) == s
  {
    if s != [] {
      FilterAll(Front(s), p);
      assert Front(s) + [Last(s)] == s;
    }
  }

  lemma {:induction false} FilterNone<T>(s: seq<T>, p: T -> bool)
    requires forall x :: x in s ==> !p(x)
    ensures Filter(s, p) == []
  {
    if s != [] {
      FilterNone(Front(s), p);
    }
  }

  /** Dropping elements that `p` rejects anyway does not change what `p` selects. */
  lemma {:induction false} FilterThrough<T>(s: seq<T>, keep: T -> bool, p: T -> bool)
    requires forall x :: x in s && p(x) ==> keep(x)
    ensures Filter(Filter(s, keep), p) == Filter(s, p)
  {
    if s != [] {
      FilterThrough(Front(s), keep, p);
      if keep(Last(s)) {
        FilterConcat(Filter(Front(s), keep), [Last(s)], p);
        assert Front([Last(s)]) == [];
        assert Filter([Last(s)], p) == if p(Last(s)) then [Last(s)] else [];
      }
    }
  }

  /** Selection keeps relative order: later places in the result come from later places in `s`. */
  lemma {:induction false} FilterPlaces<T>(s: seq<T>, p: T -> bool) returns (at: seq<nat>)
    ensures |at| == |Filter(s, p)|
    ensures forall k :: 0 <= k < |at| ==> at[k] < |s| && Filter(s, p)[k] == s[at[k]]
    ensures forall k, l :: 0 <= k < l < |at| ==> at[k] < at[l]
  {
    if s == [] {
      at := [];
    } else {
      at := FilterPlaces(Front(s), p);
      if p(Last(s)) {
        at := at + [|s| - 1];
      }
    }
  }

  predicate NoDuplicates<T(==)>(s: seq<T>) {
    forall i, j :: 0 <= i < j < |s| ==> s[i] != s[j]
  }

  // ---- Concatenation of parts ----------------------------------------------------------------

  function Concat<T>(parts: seq<seq<T>>): seq<T> {
    if parts == [] then [] else Concat(Front(parts)) + Last(parts)
  }

  lemma {:induction false} ConcatExactly<T>(parts: seq<seq<T>>, x: T)
    ensures x in Concat(parts) <==> exists i :: 0 <= i < |parts| && x in parts[i]
  {
    if parts != [] {
      ConcatExactly(Front(parts), x);
    }
  }

  /** An element that occurs at most once, and only in part `at`, occurs at most once. */
  lemma {:induction false} ConcatOnce<T>(parts: seq<seq<T>>, x: T, at: nat)
    requires forall i :: 0 <= i < |parts| ==> multiset(parts[i])[x] <= if i == at then 1 else 0
    ensures multiset(Concat(parts))[x] <= if at < |parts| then 1 else 0
  {
    if parts != [] {
      ConcatOnce(Front(parts), x, at);
    }
  }

  lemma Associative<T>(a: seq<T>, b: seq<T>, c: seq<T>)
    ensures (a + b) + c == a + (b + c)
  {
  }

  lemma ConcatAppend<T>(parts: seq<seq<T>>, last: seq<T>)
    ensures Concat(parts + [last]) == Concat(parts) + last
  {
    assert Front(parts + [last]) == parts;
  }

  function Min(a: int, b: int): int {
    if a <= b then a else b
  }

  const MAX_USIZE: nat := 0xFFFF_FFFF_FFFF_FFFF
  const MAX_U64: nat := 0xFFFF_FFFF_FFFF_FFFF
  const MAX_U32: nat := 0xFFFF_FFFF

  function SaturatingAdd(a: nat, b: nat, max: nat): (r: nat)
    requires a <= max
    ensures r <= max && (r == a + b || (r == max && a + b > max))
  {
    if a + b > max then max else a + b
  }

  function SaturatingSub(a: nat, b: nat): nat {
    if a < b then 0 else a - b
  }

  /** A number in decimal digits. */
  function Digits(n: nat): string {
    if n < 10 then ["0123456789"[n]] else Digits(n / 10) + ["0123456789"[n % 10]]
  }

  /** The number decimal digits spell. */
  function NumberOf(digits: string): nat {
    if digits == "" then 0
    else 10 * NumberOf(Front(digits)) + if '0' <= Last(digits) <= '9' then Last(digits) as int - '0' as int else 0
  }

  /** Digits spell their number, without leading zeros. */
  lemma {:induction false} DigitsSpell(n: nat)
    ensures Digits(n) != "" && NumberOf(Digits(n)) == n
    ensures forall c :: c in Digits(n) ==> '0' <= c <= '9'
    ensures n > 0 ==> Digits(n)[0] != '0'
  {
    var digit := "0123456789"[n % 10];
    assert digit as int == '0' as int + n % 10;
    if n >= 10 {
      DigitsSpell(n / 10);
      assert Front(Digits(n)) == Digits(n / 10) && Last(Digits(n)) == digit;
    } else {
      assert Digits(n) == [digit] && Front([digit]) == "";
    }
  }

  newtype Byte = b: int | 0 <= b < 256

  /** `part` occurs in `s` at place `i`. */
  predicate OccursAt(s: string, part: string, i: nat) {
    i + |part| <= |s| && s[i..i + |part|] == part
  }
}

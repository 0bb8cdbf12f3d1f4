/** Counting and summing over sequences, in the order a Python loop visits them. */
module Counting {

  /** The number of elements of `s` that satisfy `p`. */
  ghost function Count<T>(s: seq<T>, p: T -> bool): nat {
    if s == [] then 0
    else Count(s[..|s| - 1], p) + Bit(p(s[|s| - 1]))
  }

  /** A Python bool added to a counter. */
  function Bit(b: bool): nat {
    if b then 1 else 0
  }

  /** One more iteration of a loop over `s`. */
  lemma CountStep<T>(s: seq<T>, i: nat, p: T -> bool)
    requires i < |s|
    ensures Count(s[..i + 1], p) == Count(s[..i], p) + Bit(p(s[i]))
  {
    assert s[..i + 1][..i] == s[..i];
  }

  lemma CountOne<T>(x: T, p: T -> bool)
    ensures Count([x], p) == Bit(p(x))
  {
    assert [x][..0] == [];
  }

  lemma {:induction false} CountSame<T>(s: seq<T>, p: T -> bool, q: T -> bool)
    requires forall x :: x in s ==> p(x) == q(x)
    ensures Count(s, p) == Count(s, q)
  {
    if s != [] {
      CountSame(s[..|s| - 1], p, q);
    }
  }

  /** Counting is monotone in the predicate. */
  lemma {:induction false} CountMonotone<T>(s: seq<T>, p: T -> bool, q: T -> bool)
    requires forall x :: x in s && p(x) ==> q(x)
    ensures Count(s, p) <= Count(s, q)
  {
    if s != [] {
      CountMonotone(s[..|s| - 1], p, q);
    }
  }

  /** If every element weighs the same on both sides, so does the whole sequence. */
  lemma {:induction false} CountBalance<T>(s: seq<T>, a: T -> bool, b: T -> bool, c: T -> bool, d: T -> bool)
    requires forall x :: x in s ==> Bit(a(x)) + Bit(b(x)) == Bit(c(x)) + Bit(d(x))
    ensures Count(s, a) + Count(s, b) == Count(s, c) + Count(s, d)
  {
    if s != [] {
      CountBalance(s[..|s| - 1], a, b, c, d);
    }
  }

  lemma {:induction false} CountTrue<T>(s: seq<T>, p: T -> bool)
    requires forall x :: x in s ==> p(x)
    ensures Count(s, p) == |s|
  {
    if s != [] {
      CountTrue(s[..|s| - 1], p);
    }
  }

  /** `p` splits into its part inside `q` and its part outside. */
  lemma CountSplit<T>(s: seq<T>, p: T -> bool, inside: T -> bool, outside: T -> bool)
    requires forall x :: x in s ==> p(x) == (inside(x) || outside(x)) && !(inside(x) && outside(x))
    ensures Count(s, p) == Count(s, inside) + Count(s, outside)
  {
    CountBalance(s, p, _ => false, inside, outside);
    CountNone(s, _ => false);
  }

  lemma {:induction false} CountNone<T>(s: seq<T>, p: T -> bool)
    requires forall x :: x in s ==> !p(x)
    ensures Count(s, p) == 0
  {
    if s != [] {
      CountNone(s[..|s| - 1], p);
    }
  }

  lemma {:induction false} CountOr<T>(s: seq<T>, p: T -> bool, q: T -> bool, r: T -> bool)
    requires forall x :: x in s && p(x) ==> q(x) || r(x)
    ensures Count(s, p) <= Count(s, q) + Count(s, r)
  {
    if s != [] {
      CountOr(s[..|s| - 1], p, q, r);
    }
  }
}

/** Weighted sums over sequences: the accounting used by the goroutine systems. Weighing every
    element by one counts; weighing by `Is(k)` counts the occurrences of k. */
module Sums {

  function Sum<T>(f: T -> nat, s: seq<T>): nat {
    if s == [] then 0 else f(s[0]) + Sum(f, s[1..])
  }

  function One(): nat -> nat {
    _ => 1
  }

  function Is(k: nat): nat -> nat {
    x => if x == k then 1 else 0
  }

  /** The weight of the numbers below n. */
  function Total(g: nat -> nat, n: nat): nat {
    if n == 0 then 0 else Total(g, n - 1) + g(n - 1)
  }

  lemma {:induction false} SumUpdate<T>(f: T -> nat, s: seq<T>, i: nat, x: T)
    requires i < |s|
    ensures Sum(f, s[i := x]) + f(s[i]) == Sum(f, s) + f(x)
  {
    var t := s[i := x];
    if i == 0 {
      assert t[1..] == s[1..];
    } else {
      assert t[1..] == s[1..][i - 1 := x];
      SumUpdate(f, s[1..], i - 1, x);
    }
  }

  lemma {:induction false} SumAppend<T>(f: T -> nat, s: seq<T>, x: T)
    ensures Sum(f, s + [x]) == Sum(f, s) + f(x)
  {
    if s == [] {
      assert [] + [x] == [x];
    } else {
      assert (s + [x])[1..] == s[1..] + [x];
      SumAppend(f, s[1..], x);
    }
  }

  lemma {:induction false} SumRemove<T>(f: T -> nat, s: seq<T>, i: nat)
    requires i < |s|
    ensures Sum(f, s[..i] + s[i + 1..]) + f(s[i]) == Sum(f, s)
  {
    if i == 0 {
      assert s[..0] + s[1..] == s[1..];
    } else {
      assert (s[..i] + s[i + 1..])[1..] == s[1..][..i - 1] + s[1..][i..];
      SumRemove(f, s[1..], i - 1);
    }
  }

  lemma {:induction false} SumMember<T>(f: T -> nat, s: seq<T>, x: T)
    requires x in s
    ensures f(x) <= Sum(f, s)
  {
    if s[0] != x {
      SumMember(f, s[1..], x);
    }
  }

  lemma {:induction false} SumMonotone<T>(f: T -> nat, h: T -> nat, s: seq<T>)
    requires forall x | x in s :: f(x) <= h(x)
    ensures Sum(f, s) <= Sum(h, s)
  {
    if s != [] {
      SumMonotone(f, h, s[1..]);
    }
  }

  lemma {:induction false} SumPlus<T>(f: T -> nat, h: T -> nat, k: T -> nat, s: seq<T>)
    requires forall x | x in s :: f(x) + h(x) == k(x)
    ensures Sum(f, s) + Sum(h, s) == Sum(k, s)
  {
    if s != [] {
      SumPlus(f, h, k, s[1..]);
    }
  }

  lemma {:induction false} SumZero<T>(f: T -> nat, s: seq<T>)
    ensures Sum(f, s) == 0 <==> forall x | x in s :: f(x) == 0
  {
    if s != [] {
      SumZero(f, s[1..]);
      assert s == [s[0]] + s[1..];
    }
  }

  lemma {:induction false} SumOne(s: seq<nat>)
    ensures Sum(One(), s) == |s|
  {
    if s != [] {
      SumOne(s[1..]);
    }
  }

  lemma {:induction false} TotalOne(n: nat)
    ensures Total(One(), n) == n
  {
    if n > 0 {
      TotalOne(n - 1);
    }
  }

  lemma {:induction false} TotalIs(k: nat, n: nat)
    ensures Total(Is(k), n) == if k < n then 1 else 0
  {
    if n > 0 {
      TotalIs(k, n - 1);
    }
  }

  /** The weight `Is(k)` of a sequence is the multiplicity of k in it. */
  lemma {:induction false} SumIs(k: nat, s: seq<nat>)
    ensures Sum(Is(k), s) == multiset(s)[k]
  {
    if s != [] {
      SumIs(k, s[1..]);
      assert s == [s[0]] + s[1..];
    }
  }
}

/** Shared vocabulary: optional values, and sums of weights over sequences. */
module Common {
  datatype Option<+T> = None | Some(value: T)

  /** The naturals below n. */
  ghost function Below(n: nat): (r: set<nat>)
    ensures forall i: nat :: i in r <==> i < n
    ensures |r| == n
  {
    if n == 0 then {} else Below(n - 1) + {n - 1}
  }

  /** The sum of f over the elements of s. Counting is summing a 0/1 weight. */
  ghost function Total<T>(s: seq<T>, f: T -> nat): nat
  {
    if s == [] then 0 else Total(s[..|s| - 1], f) + f(s[|s| - 1])
  }

  lemma {:induction false} TotalUpdate<T>(s: seq<T>, i: nat, v: T, f: T -> nat)
    requires i < |s|
    ensures Total(s[i := v], f) + f(s[i]) == Total(s, f) + f(v)
  {
    var n := |s| - 1;
    if i == n {
      assert s[i := v][..n] == s[..n];
    } else {
      assert s[i := v][..n] == s[..n][i := v];
      TotalUpdate(s[..n], i, v, f);
    }
  }

  /** Swapping one part of a sum for another leaves the rest alone. */
  lemma Shuffle<T>(a: multiset<T>, b: multiset<T>, c: multiset<T>, d: multiset<T>, rest: multiset<T>)
    requires a + b == c + d
    ensures (a + rest) + b == (c + rest) + d
  {
    assert (a + rest) + b == (a + b) + rest;
    assert (c + rest) + d == (c + d) + rest;
  }

  /** A positive total has a positive summand. */
  lemma {:induction false} TotalWitness<T>(s: seq<T>, f: T -> nat) returns (i: nat)
    requires Total(s, f) > 0
    ensures i < |s| && f(s[i]) > 0
  {
    if f(s[|s| - 1]) > 0 {
      i := |s| - 1;
    } else {
      i := TotalWitness(s[..|s| - 1], f);
    }
  }

  lemma {:induction false} TotalCongruent<T>(s: seq<T>, t: seq<T>, f: T -> nat)
    requires |s| == |t| && forall i :: 0 <= i < |s| ==> f(s[i]) == f(t[i])
    ensures Total(s, f) == Total(t, f)
  {
    if s != [] {
      TotalCongruent(s[..|s| - 1], t[..|t| - 1], f);
    }
  }
}

/** C++ `unsigned`, 32 bits wide, which wraps. */
module UnsignedInt {
  const U32: nat := 0x1_0000_0000

  type Unsigned = n: nat | n < U32

  function Wrap(n: nat): Unsigned
  {
    n % U32
  }

  lemma WrapSum(a: nat, b: nat)
    ensures Wrap(Wrap(a) + b) == Wrap(a + b) && Wrap(a + Wrap(b)) == Wrap(a + b)
  {
    WrapMultiple(Wrap(a) + b, a / U32);
    WrapMultiple(a + Wrap(b), b / U32);
    assert a == Wrap(a) + U32 * (a / U32);
    assert b == Wrap(b) + U32 * (b / U32);
  }

  /** Adding whole turns does not change where a number wraps to. */
  lemma {:induction false} WrapMultiple(n: nat, k: nat)
    ensures Wrap(n + U32 * k) == Wrap(n)
    decreases k
  {
    if k > 0 {
      assert n + U32 * k == n + U32 * (k - 1) + U32;
      WrapMultiple(n, k - 1);
    }
  }

  lemma WrapSmall(n: nat)
    ensures Wrap(n) == n <==> n < U32
  {
  }
}

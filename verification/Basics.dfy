/** The option type used for absent values and failed parses. */
module Options {
  datatype Option<+T> = None | Some(value: T)
}

/** Strings as the client handles them: sequences of bytes. */
module Bytes {
  /** A byte, written as the character with that code. */
  type byte = c: char | c as int < 256 witness 'a'

  type bytes = seq<byte>
}

module Numbers {
  function Min(a: int, b: int): int {
    if a <= b then a else b
  }
}

/** Weighted sums over a sequence, used to count goroutines by what they still have to do. */
module Tally {
  function Sum<T>(s: seq<T>, weight: T -> nat): nat {
    if s == [] then 0 else Sum(s[..|s| - 1], weight) + weight(s[|s| - 1])
  }

  lemma {:induction false} SumUpdate<T>(s: seq<T>, i: nat, x: T, weight: T -> nat)
    requires i < |s|
    ensures Sum(s[i := x], weight) + weight(s[i]) == Sum(s, weight) + weight(x)
  {
    var n := |s| - 1;
    if i == n {
      assert s[i := x][..n] == s[..n];
    } else {
      SumUpdate(s[..n], i, x, weight);
      assert s[i := x][..n] == s[..n][i := x];
    }
  }

  lemma {:induction false} SumAppend<T>(s: seq<T>, x: T, weight: T -> nat)
    ensures Sum(s + [x], weight) == Sum(s, weight) + weight(x)
  {
    assert (s + [x])[..|s|] == s;
  }

  lemma {:induction false} SumPositive<T>(s: seq<T>, weight: T -> nat) returns (i: nat)
    requires Sum(s, weight) > 0
    ensures i < |s| && weight(s[i]) > 0
  {
    i := |s| - 1;
    if weight(s[i]) > 0 {
    } else {
      i := SumPositive(s[..i], weight);
    }
  }

  lemma {:induction false} SumAtLeast<T>(s: seq<T>, i: nat, weight: T -> nat)
    requires i < |s|
    ensures weight(s[i]) <= Sum(s, weight)
  {
    if i == |s| - 1 {
    } else {
      SumAtLeast(s[..|s| - 1], i, weight);
    }
  }

  lemma {:induction false} SumOfTwo<T>(s: seq<T>, i: nat, j: nat, weight: T -> nat)
    requires i < |s| && j < |s| && i != j
    ensures weight(s[i]) + weight(s[j]) <= Sum(s, weight)
  {
    var n := |s| - 1;
    if i == n {
      SumAtLeast(s[..n], j, weight);
    } else if j == n {
      SumAtLeast(s[..n], i, weight);
    } else {
      SumOfTwo(s[..n], i, j, weight);
    }
  }

  lemma {:induction false} SumMonotone<T(!new)>(s: seq<T>, light: T -> nat, heavy: T -> nat)
    requires forall x :: light(x) <= heavy(x)
    ensures Sum(s, light) <= Sum(s, heavy)
  {
    if s == [] {
    } else {
      SumMonotone(s[..|s| - 1], light, heavy);
    }
  }

  /** When every weight is at most 1 the sum is at most the length, and equal to it only if every weight is 1. */
  lemma {:induction false} SumOfUnits<T(!new)>(s: seq<T>, weight: T -> nat)
    requires forall x :: weight(x) <= 1
    ensures Sum(s, weight) <= |s|
    ensures Sum(s, weight) == |s| ==> forall i :: 0 <= i < |s| ==> weight(s[i]) == 1
  {
    if s == [] {
    } else {
      SumOfUnits(s[..|s| - 1], weight);
    }
  }
}

/** Facts about sequences that several modules use. */
module Sequences {
  ghost predicate Distinct<T>(s: seq<T>) {
    forall i, j :: 0 <= i < j < |s| ==> s[i] != s[j]
  }

  lemma Assoc<T>(a: seq<T>, b: seq<T>, c: seq<T>)
    ensures (a + b) + c == a + (b + c)
  {
  }

  /** Taking the first element off a concatenation. */
  lemma ConsConcat<T>(a: seq<T>, b: seq<T>)
    requires a != []
    ensures (a + b)[0] == a[0] && (a + b)[1..] == a[1..] + b && a + b != []
  {
  }

  lemma CancelPrefix<T>(a: seq<T>, b: seq<T>, c: seq<T>)
    requires a + b == a + c
    ensures b == c
  {
    assert (a + b)[|a|..] == b && (a + c)[|a|..] == c;
  }

  lemma SplitAt<T>(q: seq<T>, k: nat)
    requires k < |q|
    ensures q == q[..k] + ([q[k]] + q[k + 1..])
  {
  }

  lemma UpdateAt<T>(q: seq<T>, k: nat, v: T)
    requires k < |q|
    ensures q[k := v] == q[..k] + ([v] + q[k + 1..])
  {
  }

  lemma DropDrop<T>(q: seq<T>, k: nat, j: nat)
    requires k + j <= |q|
    ensures q[k..][j..] == q[k + j..]
  {
  }
}

/** Facts about multisets that the conservation proofs use. */
module Bags {
  lemma Swap<T>(a: multiset<T>, b: multiset<T>, c: multiset<T>)
    ensures a + b + c == a + c + b
  {
  }

  lemma Cancel<T>(a: multiset<T>, b: multiset<T>, c: multiset<T>)
    requires a + c == b + c
    ensures a == b
  {
    assert a == (a + c) - c;
    assert b == (b + c) - c;
  }

  /** Taking the first element of a sequence into another part. */
  lemma Taken<T>(a: multiset<T>, b: multiset<T>, s: seq<T>, total: multiset<T>)
    requires s != [] && a + b + multiset(s) == total
    ensures a + (b + multiset{s[0]}) + multiset(s[1..]) == total
  {
    assert s == [s[0]] + s[1..];
  }
}

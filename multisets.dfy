/** A fact about the multisets of sequences, used to show that sums over the
    store do not depend on the order of its periods. */
module Multisets {

  /** Taking a matching element out of two sequences with the same elements
      leaves two sequences with the same elements. */
  lemma RemoveOne<T>(a: seq<T>, b: seq<T>, j: nat)
    requires multiset(a) == multiset(b)
    requires a != [] && j < |b| && b[j] == a[0]
    ensures multiset(a[1..]) == multiset(b[..j] + b[j + 1..])
  {
    var x := a[0];
    var front, back := b[..j], b[j + 1..];
    assert a == [x] + a[1..];
    assert b == front + ([x] + back);
    var rest, tail := multiset(front + back), multiset(a[1..]);
    assert rest == multiset(front) + multiset(back);
    assert multiset(b) == multiset(front) + (multiset{x} + multiset(back));
    assert multiset(a) == multiset{x} + tail;
    forall y
      ensures tail[y] == rest[y]
    {
      assert multiset(a)[y] == multiset(b)[y];
    }
  }
}

/** Sequence helpers shared by the server's repository and the client's feed. */
module Seqs {

  /** The sequence in reverse order (what `Array.prototype.reverse` leaves behind). */
  function Reversed<T>(s: seq<T>): (r: seq<T>)
    ensures |r| == |s|
    ensures forall i :: 0 <= i < |s| ==> r[i] == s[|s| - 1 - i]
  {
    if s == [] then [] else [s[|s| - 1]] + Reversed(s[..|s| - 1])
  }

  lemma {:induction false} ReversedTwice<T>(s: seq<T>)
    ensures Reversed(Reversed(s)) == s
  {
    var r := Reversed(s);
    var rr := Reversed(r);
    assert |rr| == |s|;
    forall i | 0 <= i < |s|
      ensures rr[i] == s[i]
    {
      assert rr[i] == r[|r| - 1 - i];
      assert r[|r| - 1 - i] == s[|s| - 1 - (|s| - 1 - i)];
    }
  }

  /** Inserting each element of `items`, in order, at the front of `s`
      (an `unshift` or an insert-after-header for each one). */
  function PrependEach<T>(items: seq<T>, s: seq<T>): seq<T>
    decreases |items|
  {
    if items == [] then s else PrependEach(items[1..], [items[0]] + s)
  }

  /** Front-insertion in order leaves the items newest-first: reversed, then
      everything that was there before. */
  lemma {:induction false} PrependEachReverses<T>(items: seq<T>, s: seq<T>)
    ensures PrependEach(items, s) == Reversed(items) + s
    decreases |items|
  {
    if items != [] {
      PrependEachReverses(items[1..], [items[0]] + s);
      var r := Reversed(items);
      var r1 := Reversed(items[1..]);
      assert r == r1 + [items[0]] by {
        assert |r| == |r1| + 1;
        forall i | 0 <= i < |r|
          ensures r[i] == (r1 + [items[0]])[i]
        {
          if i < |r1| {
            assert r1[i] == items[1..][|items| - 2 - i];
          }
        }
      }
    }
  }

  /** Front-insertion of a reversed list restores the list's own order. */
  lemma PrependEachOfReversed<T>(items: seq<T>, s: seq<T>)
    ensures PrependEach(Reversed(items), s) == items + s
  {
    PrependEachReverses(Reversed(items), s);
    ReversedTwice(items);
  }
}

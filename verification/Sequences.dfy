/** Facts about sequences of anything. */
module Sequences {
  predicate NoneTwice<T(==)>(s: seq<T>) {
    forall i, j :: 0 <= i < j < |s| ==> s[i] != s[j]
  }

  /** The stream that was cut into chunks. */
  function Whole<T>(chunks: seq<seq<T>>): seq<T> {
    if chunks == [] then [] else chunks[0] + Whole(chunks[1..])
  }

  lemma {:induction false} WholeSnoc<T>(chunks: seq<seq<T>>, last: seq<T>)
    ensures Whole(chunks + [last]) == Whole(chunks) + last
  {
    if chunks == [] {
      assert ([] + [last])[1..] == [];
    } else {
      WholeSnoc(chunks[1..], last);
      assert (chunks + [last])[1..] == chunks[1..] + [last];
    }
  }

  lemma Associate<T>(a: seq<T>, b: seq<T>, c: seq<T>)
    ensures a + b + c == a + (b + c)
  {
  }

  lemma FromHere<T>(s: seq<T>, i: nat)
    requires i < |s|
    ensures s[i..] == [s[i]] + s[i + 1..] && s[i..][0] == s[i] && s[i..][1..] == s[i + 1..]
  {
  }
}

/** What several of the models say about sequences. */
module Sequences {
  /** No element comes twice. */
  predicate NoDups<T(==)>(s: seq<T>)
  {
    s == [] || (s[0] !in s[1..] && NoDups(s[1..]))
  }

  lemma {:induction false} NoDupsAt<T>(s: seq<T>, i: nat)
    requires NoDups(s) && i < |s|
    ensures forall j :: 0 <= j < |s| && j != i ==> s[j] != s[i]
  {
    if i > 0 {
      NoDupsAt(s[1..], i - 1);
      assert s[0] != s[1..][i - 1];
      assert forall j :: 1 <= j < |s| ==> s[j] == s[1..][j - 1];
    }
  }

  lemma {:induction false} NoDupsJoin<T>(a: seq<T>, b: seq<T>)
    requires NoDups(a) && NoDups(b) && forall x :: x in a ==> x !in b
    ensures NoDups(a + b)
  {
    if a == [] {
      assert a + b == b;
    } else {
      NoDupsJoin(a[1..], b);
      assert (a + b)[1..] == a[1..] + b && a[0] in a;
    }
  }

  /** All but the last element. */
  function Front<T>(s: seq<T>): seq<T>
    requires s != []
  {
    s[..|s| - 1]
  }

  function Last<T>(s: seq<T>): T
    requires s != []
  {
    s[|s| - 1]
  }
}

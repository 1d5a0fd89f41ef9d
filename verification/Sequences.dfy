/** Sequences without repetitions. */
module Sequences {

  ghost predicate Distinct<T>(s: seq<T>) {
    forall i, j :: 0 <= i < j < |s| ==> s[i] != s[j]
  }

  lemma DistinctAppend<T>(a: seq<T>, b: seq<T>)
    requires Distinct(a) && Distinct(b) && forall x :: x in a ==> x !in b
    ensures Distinct(a + b)
  {
    var all := a + b;
    forall i, j | 0 <= i < j < |all|
      ensures all[i] != all[j]
    {
      if i < |a| <= j {
        assert all[i] in a && all[j] == b[j - |a|];
      }
    }
  }

  /** A list of exactly the numbers after a, up to and including b, has b - a elements. */
  lemma {:induction false} DistinctRange(s: seq<int>, a: int, b: int)
    requires Distinct(s) && a <= b && forall x :: x in s <==> a < x <= b
    ensures |s| == b - a
    decreases |s|
  {
    if s == [] {
      assert a < b ==> b in s;
    } else {
      assert s[0] in s;
      assert a < s[0] <= b;
      assert b in s;
      var i :| 0 <= i < |s| && s[i] == b;
      var rest := s[..i] + s[i + 1..];
      assert forall j :: 0 <= j < |rest| ==> rest[j] == s[if j < i then j else j + 1];
      forall x
        ensures x in rest <==> a < x <= b - 1
      {
        if x in s && x != b {
          var j :| 0 <= j < |s| && s[j] == x;
          assert rest[if j < i then j else j - 1] == x;
        }
        if x in rest {
          var j :| 0 <= j < |rest| && rest[j] == x;
          assert s[if j < i then j else j + 1] == x;
        }
      }
      DistinctRange(rest, a, b - 1);
    }
  }
}

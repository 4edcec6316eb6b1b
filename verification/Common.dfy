/** Failure-carrying results shared by every module. */
module Common {

  datatype Option<+T> = None | Some(value: T)

  /** A Python call either returns or raises; the error names the exception that escapes. */
  datatype Result<+T, +E> = Ok(value: T) | Err(error: E)

  ghost predicate Distinct<T>(s: seq<T>) {
    forall i, j :: 0 <= i < j < |s| ==> s[i] != s[j]
  }

  function SetOf<T>(s: seq<T>): set<T> {
    set x | x in s
  }

  /** Counting the set of a list's elements shows whether any occurs twice. */
  lemma {:induction false} DistinctCount<T>(s: seq<T>)
    ensures |SetOf(s)| <= |s|
    ensures |SetOf(s)| == |s| <==> Distinct(s)
  {
    if s == [] {
      assert SetOf(s) == {};
    } else {
      var rest, x := s[..|s| - 1], s[|s| - 1];
      DistinctCount(rest);
      assert s == rest + [x];
      assert SetOf(s) == SetOf(rest) + {x};
      if x in rest {
        var i :| 0 <= i < |rest| && rest[i] == x;
        assert s[i] == s[|rest|];
      }
    }
  }

  /** A set with as many elements as one that contains it is that set. */
  lemma SubsetOfSameSize<T>(a: set<T>, b: set<T>)
    requires a <= b && |a| == |b|
    ensures a == b
  {
    assert b == a + (b - a);
    assert |b - a| == 0;
  }

  lemma SubsetSize<T>(a: set<T>, b: set<T>)
    requires a <= b
    ensures |a| <= |b|
  {
    assert b == a + (b - a);
  }
}

/** Types and sequence facts that the other modules share. */
module Basics {

  datatype Option<+T> = None | Some(value: T)

  datatype Result<+T, +E> = Success(value: T) | Failure(error: E)

  predicate Distinct<T(==)>(s: seq<T>) {
    forall i, j :: 0 <= i < j < |s| ==> s[i] != s[j]
  }

  function Elements<T>(s: seq<T>): set<T> {
    set x | x in s
  }

  /** All parts of `ss`, one after the other. */
  function Joined<T>(ss: seq<seq<T>>): seq<T> {
    if ss == [] then [] else Joined(ss[..|ss| - 1]) + ss[|ss| - 1]
  }

  lemma {:induction false} JoinedGrows<T>(ss: seq<seq<T>>, s: seq<T>)
    ensures Joined(ss + [s]) == Joined(ss) + s
  {
    assert (ss + [s])[..|ss|] == ss;
  }

  lemma {:induction false} JoinedFirst<T>(ss: seq<seq<T>>)
    requires ss != []
    ensures Joined(ss) == ss[0] + Joined(ss[1..])
  {
    if |ss| == 1 {
      assert ss[..0] == [] && ss[1..] == [];
    } else {
      JoinedFirst(ss[..|ss| - 1]);
      assert ss[..|ss| - 1][1..] == ss[1..][..|ss| - 2];
    }
  }

  lemma {:induction false} JoinDistinct<T>(s: seq<T>, t: seq<T>)
    requires Distinct(s) && Distinct(t) && Elements(s) !! Elements(t)
    ensures Distinct(s + t) && Elements(s + t) == Elements(s) + Elements(t)
  {
    forall i, j | 0 <= i < j < |s + t|
      ensures (s + t)[i] != (s + t)[j]
    {
      if i < |s| <= j {
        assert s[i] in Elements(s) && t[j - |s|] in Elements(t);
      }
    }
  }

  lemma {:induction false} DistinctSize<T>(s: seq<T>)
    requires Distinct(s)
    ensures |Elements(s)| == |s|
    decreases |s|
  {
    if s != [] {
      var front, last := s[..|s| - 1], s[|s| - 1];
      DistinctSize(front);
      assert Elements(s) == Elements(front) + {last};
    }
  }
}

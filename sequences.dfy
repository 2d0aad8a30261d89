/** Sequence facts shared by the grounding model.

    Python's dicts, sets and Counters have no guaranteed iteration order; where the
    converter loops over one of them, the model takes the order as a parameter and
    asks only that it lists every key exactly once (IsOrderOf). */
module Sequences {

  /** No element occurs twice. */
  ghost predicate Distinct<T>(s: seq<T>) {
    forall i, j :: 0 <= i < j < |s| ==> s[i] != s[j]
  }

  /** The set of elements of a sequence. */
  ghost function Elements<T>(s: seq<T>): set<T> {
    set x | x in s
  }

  /** `order` is one possible iteration order of the collection whose keys are `keys`. */
  ghost predicate IsOrderOf<T>(order: seq<T>, keys: set<T>) {
    Distinct(order) && Elements(order) == keys
  }

  /** A duplicate-free sequence has as many elements as its set of elements. */
  lemma {:induction false} DistinctCard<T>(s: seq<T>)
    requires Distinct(s)
    ensures |Elements(s)| == |s|
  {
    if |s| > 0 {
      var p := s[..|s| - 1];
      var x := s[|s| - 1];
      assert s == p + [x];
      assert Elements(s) == Elements(p) + {x};
      assert x !in Elements(p) by {
        forall i | 0 <= i < |p| ensures p[i] != x {
          assert p[i] == s[i];
        }
      }
      DistinctCard(p);
    }
  }

  /** Dropping the last element of a duplicate-free sequence leaves a duplicate-free
      sequence without that element. */
  lemma DistinctPrefix<T>(s: seq<T>)
    requires s != [] && Distinct(s)
    ensures Distinct(s[..|s| - 1]) && s[|s| - 1] !in Elements(s[..|s| - 1])
  {
    var p := s[..|s| - 1];
    forall i | 0 <= i < |p| ensures p[i] != s[|s| - 1] {
      assert p[i] == s[i];
    }
  }
}

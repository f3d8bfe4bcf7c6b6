/** Facts about sequences of identifiers and the sets they span. */
module SeqFacts {

  /** No identifier occurs twice. */
  predicate Distinct(s: seq<string>) {
    forall i, j :: 0 <= i < j < |s| ==> s[i] != s[j]
  }

  /** The set of identifiers occurring in `s`. */
  function Elems(s: seq<string>): set<string> {
    set x | x in s
  }

  /** A sequence spans at most as many identifiers as it is long, exactly as many when it has no repeats. */
  lemma {:induction false} ElemsCardinality(s: seq<string>)
    ensures |Elems(s)| <= |s|
    ensures |Elems(s)| == |s| <==> Distinct(s)
  {
    if s != [] {
      var t, x := s[..|s| - 1], s[|s| - 1];
      assert s == t + [x];
      ElemsCardinality(t);
      assert Elems(s) == Elems(t) + {x};
      if x in Elems(t) {
        var i :| 0 <= i < |t| && t[i] == x;
        assert s[i] == s[|s| - 1];
        assert !Distinct(s);
      } else {
        assert |Elems(s)| == |Elems(t)| + 1;
        if Distinct(t) {
          forall i, j | 0 <= i < j < |s| ensures s[i] != s[j] {
            if j == |s| - 1 {
              assert s[i] == t[i] && t[i] in Elems(t);
            } else {
              assert s[i] == t[i] && s[j] == t[j];
            }
          }
        } else {
          var i, j :| 0 <= i < j < |t| && t[i] == t[j];
          assert s[i] == s[j];
        }
      }
    }
  }

  /** A part of a finite set is no larger, and strictly smaller when something is missing. */
  lemma SubsetCardinality(a: set<string>, b: set<string>)
    requires a <= b
    ensures |a| <= |b|
    ensures |a| == |b| ==> a == b
  {
    assert b == a + (b - a);
    assert a * (b - a) == {};
    if |a| == |b| {
      assert |b - a| == 0;
    }
  }

  /**
   * Keeping the identifiers of `s` that lie in `keys` leaves as many as `s` is long
   * exactly when `s` has no repeats and every one of them lies in `keys`.
   */
  lemma ElemsWithinCardinality(s: seq<string>, keys: set<string>)
    ensures |Elems(s) * keys| <= |s|
    ensures |Elems(s) * keys| == |s| <==> Distinct(s) && forall i :: 0 <= i < |s| ==> s[i] in keys
  {
    ElemsCardinality(s);
    SubsetCardinality(Elems(s) * keys, Elems(s));
    if |Elems(s) * keys| == |s| {
      forall i | 0 <= i < |s| ensures s[i] in keys {
        assert s[i] in Elems(s);
      }
    }
    if Distinct(s) && forall i :: 0 <= i < |s| ==> s[i] in keys {
      assert Elems(s) * keys == Elems(s);
    }
  }
}

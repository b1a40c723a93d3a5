/** Facts about the elements of a sequence and about its neighbouring pairs. */
module Chains {

  /** Every element satisfies `P`. */
  ghost predicate Every<T>(s: seq<T>, P: T -> bool)
  {
    forall i :: 0 <= i < |s| ==> P(s[i])
  }

  /** Every element is in relation `R` to the next one. */
  ghost predicate Linked<T>(s: seq<T>, R: (T, T) -> bool)
  {
    forall i :: 0 <= i < |s| - 1 ==> R(s[i], s[i + 1])
  }

  lemma EveryCons<T>(v: T, s: seq<T>, P: T -> bool)
    requires P(v) && Every(s, P)
    ensures Every([v] + s, P)
  {
    var t := [v] + s;
    forall i | 0 <= i < |t| ensures P(t[i]) {
      if i > 0 {
        assert t[i] == s[i - 1];
      }
    }
  }

  lemma EveryAppend<T>(s: seq<T>, t: seq<T>, P: T -> bool)
    requires Every(s, P) && Every(t, P)
    ensures Every(s + t, P)
  {
    var u := s + t;
    forall i | 0 <= i < |u| ensures P(u[i]) {
      if i < |s| {
        assert u[i] == s[i];
      } else {
        assert u[i] == t[i - |s|];
      }
    }
  }

  lemma LinkedCons<T>(v: T, s: seq<T>, R: (T, T) -> bool)
    requires Linked(s, R)
    requires s != [] ==> R(v, s[0])
    ensures Linked([v] + s, R)
  {
    var t := [v] + s;
    forall i | 0 <= i < |t| - 1 ensures R(t[i], t[i + 1]) {
      assert t[i + 1] == s[i];
      if i > 0 {
        assert t[i] == s[i - 1];
      }
    }
  }

  /** A measure that grows by one from each element to the next grows by the distance between any two. */
  lemma {:induction false} Counted<T>(s: seq<T>, f: T -> int)
    requires forall i :: 0 <= i < |s| - 1 ==> f(s[i + 1]) == f(s[i]) + 1
    ensures forall i, j :: 0 <= i <= j < |s| ==> f(s[j]) == f(s[i]) + (j - i)
    decreases |s|
  {
    if |s| > 1 {
      var front := s[..|s| - 1];
      forall i | 0 <= i < |front| - 1 ensures f(front[i + 1]) == f(front[i]) + 1 {
        assert front[i] == s[i] && front[i + 1] == s[i + 1];
      }
      Counted(front, f);
      forall i, j | 0 <= i <= j < |s| ensures f(s[j]) == f(s[i]) + (j - i) {
        if j < |s| - 1 {
          assert s[i] == front[i] && s[j] == front[j];
        } else if i < j {
          assert s[i] == front[i] && s[j - 1] == front[j - 1];
        }
      }
    }
  }
}

/** Sums of amounts, and counts of the elements of a sequence that satisfy a condition. */
module Tallies {

  function Sum(s: seq<real>): real {
    if s == [] then 0.0 else Sum(s[..|s| - 1]) + s[|s| - 1]
  }

  /** The laws that determine a sum: of nothing, of one amount, and of two lists. */
  lemma {:induction false} SumLaws(a: seq<real>, b: seq<real>, x: real)
    ensures Sum([]) == 0.0 && Sum([x]) == x
    ensures Sum(a + b) == Sum(a) + Sum(b)
  {
    assert [x][..0] == [];
    if b == [] {
      assert a + b == a;
    } else {
      SumLaws(a, b[..|b| - 1], x);
      assert (a + b)[..|a + b| - 1] == a + b[..|b| - 1];
    }
  }

  /** The positions of the elements that satisfy `p`. */
  ghost function Where<T>(s: seq<T>, p: T -> bool): set<int> {
    set i | 0 <= i < |s| && p(s[i])
  }

  lemma {:induction false} WhereAppend<T>(front: seq<T>, x: T, p: T -> bool)
    ensures |Where(front + [x], p)| == |Where(front, p)| + if p(x) then 1 else 0
  {
    var s := front + [x];
    assert forall i | 0 <= i < |front| :: s[i] == front[i];
    if p(x) {
      assert Where(s, p) == Where(front, p) + {|front|};
    } else {
      assert Where(s, p) == Where(front, p);
    }
  }

  /** The cells of a table of rows with the given sizes. */
  ghost function Cells(sizes: seq<nat>): set<(int, int)> {
    set i, f | 0 <= i < |sizes| && 0 <= f < sizes[i] :: (i, f)
  }

  lemma {:induction false} CellsAppend(front: seq<nat>, n: nat)
    ensures |Cells(front + [n])| == |Cells(front)| + n
  {
    if n == 0 {
      assert Cells(front + [0]) == Cells(front);
    } else {
      CellsAppend(front, n - 1);
      assert Cells(front + [n]) == Cells(front + [n - 1]) + {(|front|, n - 1)};
    }
  }
}

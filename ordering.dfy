/** Deterministic ORDER BY over table keys. A query orders rows by a rank
    (descending); rows of equal rank come in ascending key order, which fixes
    the tie-break that SQL leaves open. An ascending sort uses the negated
    column as rank. */
module Ordering {

  /** Row `a` comes strictly before row `b`. */
  predicate Before(rank: map<int, int>, a: int, b: int)
    requires a in rank && b in rank
  {
    rank[a] > rank[b] || (rank[a] == rank[b] && a < b)
  }

  /** `k` is the row of `ks` that comes before every other row of `ks`. */
  predicate IsFirst(rank: map<int, int>, ks: set<int>, k: int)
    requires ks <= rank.Keys
  {
    k in ks && forall j :: j in ks && j != k ==> Before(rank, k, j)
  }

  lemma Inhabited(ks: set<int>)
    requires ks != {}
    ensures exists x :: x in ks
  {
    if forall x :: x !in ks { assert false; }
  }

  /** Every non-empty finite set of rows has a first row. */
  lemma {:induction false} FirstExists(rank: map<int, int>, ks: set<int>)
    requires ks != {} && ks <= rank.Keys
    ensures exists k :: IsFirst(rank, ks, k)
  {
    Inhabited(ks);
    var x :| x in ks;
    if ks != {x} {
      var rest := ks - {x};
      FirstExists(rank, rest);
      var y :| IsFirst(rank, rest, y);
      if Before(rank, x, y) {
        forall j | j in ks && j != x ensures Before(rank, x, j) {
          if j != y { assert j in rest && Before(rank, y, j); }
        }
        assert IsFirst(rank, ks, x);
      } else {
        assert IsFirst(rank, ks, y);
      }
    } else {
      assert IsFirst(rank, ks, x);
    }
  }

  /** `ORDER BY rank DESC, key ASC LIMIT 1` */
  function First(rank: map<int, int>, ks: set<int>): (k: int)
    requires ks != {} && ks <= rank.Keys
    ensures IsFirst(rank, ks, k)
  {
    FirstExists(rank, ks);
    var k :| IsFirst(rank, ks, k); k
  }

  /** `ORDER BY rank DESC, key ASC`: every row exactly once, in order. */
  function Ordered(rank: map<int, int>, ks: set<int>): (r: seq<int>)
    requires ks <= rank.Keys
    ensures |r| == |ks|
    ensures forall k :: k in r <==> k in ks
    ensures forall i :: 0 <= i < |r| ==> r[i] in ks
    ensures forall i, j :: 0 <= i < j < |r| ==> Before(rank, r[i], r[j])
    decreases |ks|
  {
    if ks == {} then []
    else
      var k := First(rank, ks);
      [k] + Ordered(rank, ks - {k})
  }
}

/**
 * Enumerating the keys of a document in ascending numeric order, as
 * `Object.keys(data).map(parseInt).sort((a, b) => a - b)` does once every
 * key has been parsed to an integer.
 */
module OrderedKeys {

  ghost predicate StrictlyIncreasing(s: seq<int>)
  {
    forall i, j :: 0 <= i < j < |s| ==> s[i] < s[j]
  }

  lemma NonEmptyHasElement(s: set<int>)
    ensures s == {} || exists x :: x in s
  {
    if forall x :: x !in s {
      assert s == {};
    }
  }

  lemma {:induction false} MinimumExists(s: set<int>)
    requires s != {}
    ensures exists k :: k in s && forall j :: j in s ==> k <= j
  {
    NonEmptyHasElement(s);
    var x :| x in s;
    var rest := s - {x};
    if rest != {} {
      MinimumExists(rest);
      var m :| m in rest && forall j :: j in rest ==> m <= j;
      var least := if x < m then x else m;
      forall j | j in s
        ensures least <= j
      {
        if j != x { assert j in rest; }
      }
    } else {
      assert forall j :: j in s ==> j in rest || j == x;
    }
  }

  /** The smallest element of a non-empty finite set. */
  function Minimum(s: set<int>): (k: int)
    requires s != {}
    ensures k in s
    ensures forall j :: j in s ==> k <= j
  {
    MinimumExists(s);
    var k :| k in s && forall j :: j in s ==> k <= j;
    k
  }

  /** The elements of `s`, each once, smallest first. */
  function Ascending(s: set<int>): (r: seq<int>)
    ensures |r| == |s|
    ensures forall i :: 0 <= i < |r| ==> r[i] in s
    ensures forall k :: k in s ==> k in r
    ensures StrictlyIncreasing(r)
    decreases |s|
  {
    if s == {} then []
    else
      var m := Minimum(s);
      [m] + Ascending(s - {m})
  }

  /** How many elements of `s` are smaller than `k`: the position `k` takes once `s` is sorted. */
  function Rank(s: set<int>, k: int): nat
  {
    |set j | j in s && j < k|
  }

  /** The element at position `Rank(s, k)` of the ascending enumeration is `k` itself. */
  lemma {:induction false} AscendingAtRank(s: set<int>, k: int)
    requires k in s
    ensures Rank(s, k) < |s|
    ensures Ascending(s)[Rank(s, k)] == k
    decreases |s|
  {
    var m := Minimum(s);
    var rest := s - {m};
    assert Ascending(s) == [m] + Ascending(rest);
    if k == m {
      assert (set j | j in s && j < k) == {};
    } else {
      AscendingAtRank(rest, k);
      RankPastMinimum(s, k);
    }
  }

  /** Removing the minimum `m` lowers the rank of every other element by one. */
  lemma RankPastMinimum(s: set<int>, k: int)
    requires s != {} && k in s && k != Minimum(s)
    ensures Rank(s, k) == Rank(s - {Minimum(s)}, k) + 1
  {
    var m := Minimum(s);
    var below := set j | j in s - {m} && j < k;
    assert (set j | j in s && j < k) == below + {m};
    assert m !in below;
  }

  /** Positions in an ascending enumeration are distinct keys. */
  lemma AscendingDistinct(s: set<int>, i: int, j: int)
    requires 0 <= i < |s| && 0 <= j < |s| && i != j
    ensures Ascending(s)[i] != Ascending(s)[j]
  {
    var r := Ascending(s);
    if i < j { assert r[i] < r[j]; } else { assert r[j] < r[i]; }
  }

  lemma {:induction false} IncreasingGap(r: seq<int>, i: int, j: int)
    requires StrictlyIncreasing(r)
    requires 0 <= i <= j < |r|
    ensures r[j] - r[i] >= j - i
    decreases j - i
  {
    if i < j {
      IncreasingGap(r, i + 1, j);
      assert r[i] < r[i + 1];
    }
  }

  /** The index set `{0, ..., n - 1}`. */
  function Indices(n: nat): (s: set<int>)
    ensures forall k :: k in s <==> 0 <= k < n
  {
    if n == 0 then {} else Indices(n - 1) + {n - 1}
  }

  lemma {:induction false} IndicesSize(n: nat)
    ensures |Indices(n)| == n
  {
    if n > 0 {
      IndicesSize(n - 1);
      assert Indices(n) == Indices(n - 1) + {n - 1};
    }
  }

  /** Position `i` of the ascending enumeration of `{0, ..., n - 1}` holds `i`. */
  lemma AscendingIndicesAt(n: nat, i: int)
    requires 0 <= i < n
    ensures |Ascending(Indices(n))| == n
    ensures Ascending(Indices(n))[i] == i
  {
    IndicesSize(n);
    var r := Ascending(Indices(n));
    assert r[0] in Indices(n) && r[n - 1] in Indices(n);
    IncreasingGap(r, 0, i);
    IncreasingGap(r, i, n - 1);
  }

  /** Enumerating `{0, ..., n - 1}` in ascending order gives `0, 1, ..., n - 1`. */
  lemma AscendingIndices(n: nat)
    ensures Ascending(Indices(n)) == seq(n, i => i)
  {
    IndicesSize(n);
    var r := Ascending(Indices(n));
    forall i | 0 <= i < n
      ensures r[i] == i
    {
      AscendingIndicesAt(n, i);
    }
  }
}

/** Small definitions shared by every module. */
module Prelude {

  datatype Option<+T> = None | Some(value: T)

  lemma {:induction false} SubsetSize<T>(a: set<T>, b: set<T>)
    requires a <= b
    ensures |a| <= |b|
  {
    if a != {} {
      var x :| x in a;
      SubsetSize(a - {x}, b - {x});
    }
  }

  lemma SubsetOfEqualSize<T>(a: set<T>, b: set<T>)
    requires a <= b && |a| == |b|
    ensures a == b
  {
    if a != b {
      var x :| x in b && x !in a;
      SubsetSize(a, b - {x});
    }
  }

  /** The numbers start..start+total-1: a block of sequence numbers, or of ranks. */
  function Range(start: nat, total: nat): (s: set<nat>)
    ensures forall o: nat :: o in s <==> start <= o < start + total
  {
    if total == 0 then {} else Range(start, total - 1) + {start + total - 1}
  }

  lemma {:induction false} RangeSize(start: nat, total: nat)
    ensures |Range(start, total)| == total
  {
    if total > 0 {
      RangeSize(start, total - 1);
    }
  }

  // ---------------------------------------------------------------- rotation

  /** The candidate tried in round `t`, going round `n` of them. */
  function Turn(start: nat, t: nat, n: nat): (j: nat)
    requires n > 0
    ensures j < n
  {
    (start + t) % n
  }

  lemma RotationCovers(start: nat, n: nat, j: nat)
    requires j < n
    ensures exists t: nat :: t < n && Turn(start, t, n) == j
  {
    var q, r := start / n, start % n;
    var t := if r <= j then j - r else j + n - r;
    assert (q + 1) * n == q * n + n;
    ModuloOf(if r <= j then q else q + 1, n, j);
    assert Turn(start, t, n) == j;
  }

  lemma ModuloOf(q: nat, n: nat, j: nat)
    requires j < n
    ensures (q * n + j) % n == j
  {
    var x := q * n + j;
    var d, r := x / n, x % n;
    assert (q - d) * n == r - j;
    if q - d >= 1 { ScaleMonotone(1, q - d, n); }
    if q - d <= -1 { ScaleMonotone(q - d, -1, n); }
  }

  lemma ScaleMonotone(a: int, b: int, k: nat)
    requires a <= b
    ensures a * k <= b * k
  {
  }

  // ------------------------------------------------------------ ordered maps

  ghost predicate Ascending(starts: seq<nat>) {
    forall i, j :: 0 <= i < j < |starts| ==> starts[i] < starts[j]
  }

  /** The keys of a table in order, as an ordered map keeps them. */
  ghost predicate Index<M>(starts: seq<nat>, table: map<nat, M>) {
    Ascending(starts) && forall x :: x in starts <==> x in table
  }

  lemma IndexKept<M>(starts: seq<nat>, table: map<nat, M>, x: nat, m: M)
    requires Index(starts, table) && x in table
    ensures Index(starts, table[x := m])
  {
  }

  lemma IndexGrown<M>(starts: seq<nat>, table: map<nat, M>, x: nat, m: M)
    requires Index(starts, table) && forall y :: y in table ==> y < x
    ensures Index(starts + [x], table[x := m])
  {
    var starts' := starts + [x];
    forall i, j | 0 <= i < j < |starts'| ensures starts'[i] < starts'[j] {
      if j == |starts| { assert starts[i] in starts; }
    }
    forall y ensures y in starts' <==> y in table[x := m] {
      assert y in starts' <==> y in starts || y == x;
    }
  }

  /** What a table with one slot per 8-bit message id holds. */
  ghost function Tombstones(valid: seq<bool>, starts: seq<nat>): map<nat, nat>
    requires |valid| == |starts|
  {
    map t: nat | t < |valid| && valid[t] :: starts[t]
  }
}

/** The fan-ins a requester writes into its stack (runtime/runtime_common.c), and
    the tree they are meant for. */
module FanIn {
  import opened Prelude
  import R = RouterModel
  import L = Lossless

  // ---------------------------------------------------------- counting bits

  /** Bitwise conjunction of two words. */
  function And(x: nat, y: nat): nat {
    if x == 0 || y == 0 then 0
    else (if x % 2 == 1 && y % 2 == 1 then 1 else 0) + 2 * And(x / 2, y / 2)
  }

  /** The positions of the bits set in a word, counted from `base`. */
  ghost function Bits(x: nat, base: nat): (s: set<nat>)
    ensures forall i :: i in s ==> base <= i
  {
    if x == 0 then {} else (if x % 2 == 1 then {base} else {}) + Bits(x / 2, base + 1)
  }

  lemma {:induction false} AndSelf(x: nat)
    ensures And(x, x) == x
  {
    if x > 0 { AndSelf(x / 2); }
  }

  lemma {:induction false} AndAtMost(x: nat, y: nat)
    ensures And(x, y) <= x && And(x, y) <= y
  {
    if x > 0 && y > 0 { AndAtMost(x / 2, y / 2); }
  }

  lemma OddCleared(x: nat, base: nat)
    requires x % 2 == 1
    ensures Bits(And(x, x - 1), base) == Bits(x / 2, base + 1) && Bits(x, base) == {base} + Bits(x / 2, base + 1)
  {
    AndSelf(x / 2);
    assert (x - 1) / 2 == x / 2;
    assert And(x, x - 1) == 2 * (x / 2);
  }

  lemma EvenCleared(x: nat, base: nat)
    requires x % 2 == 0 && x > 0
    ensures Bits(And(x, x - 1), base) == Bits(And(x / 2, x / 2 - 1), base + 1) && Bits(x, base) == Bits(x / 2, base + 1)
  {
    assert (x - 1) / 2 == x / 2 - 1;
    assert And(x, x - 1) == 2 * And(x / 2, x / 2 - 1);
  }

  /** x & (x - 1) removes exactly one of the bits of x. */
  lemma {:induction false} ClearingDropsOne(x: nat, base: nat)
    requires x > 0
    ensures |Bits(And(x, x - 1), base)| + 1 == |Bits(x, base)|
  {
    hide And, Bits;
    if x % 2 == 1 {
      OddCleared(x, base);
    } else {
      EvenCleared(x, base);
      ClearingDropsOne(x / 2, base + 1);
    }
  }

  /** count_bits32: the number of bits set. */
  method CountBits32(word: nat) returns (n: nat)
    ensures n == |Bits(word, 0)|
  {
    var x := word;
    n := 0;
    while x != 0
      invariant n + |Bits(x, 0)| == |Bits(word, 0)|
      decreases x
    {
      ClearingDropsOne(x, 0);
      AndAtMost(x, x - 1);
      x := And(x, x - 1);
      n := n + 1;
    }
  }

  /** x | (1 << r). */
  function SetBit(x: nat, r: nat): nat {
    if r == 0 then (if x % 2 == 1 then x else x + 1) else x % 2 + 2 * SetBit(x / 2, r - 1)
  }

  lemma {:induction false} SetBitAdds(x: nat, r: nat, base: nat)
    ensures Bits(SetBit(x, r), base) == Bits(x, base) + {base + r}
  {
    if r == 0 {
      if x % 2 == 0 {
        assert (x + 1) / 2 == x / 2;
        assert Bits(x + 1, base) == {base} + Bits(x / 2, base + 1);
      }
    } else {
      SetBitAdds(x / 2, r - 1, base + 1);
      var y := SetBit(x, r);
      assert y % 2 == x % 2 && y / 2 == SetBit(x / 2, r - 1);
      assert Bits(y, base) == (if y % 2 == 1 then {base} else {}) + Bits(y / 2, base + 1);
    }
  }

  /** default_neighbor_mask: every other rank of the group. */
  method DefaultNeighbourMask(n: nat, rank: nat) returns (mask: nat)
    ensures Bits(mask, 0) == Range(0, n) - {rank}
  {
    mask := 0;
    var r := 0;
    while r < n
      invariant 0 <= r <= n
      invariant Bits(mask, 0) == Range(0, r) - {rank}
    {
      if r != rank {
        SetBitAdds(mask, r, 0);
        mask := SetBit(mask, r);
      }
      r := r + 1;
    }
  }

  // -------------------------------------------------------------- the plan

  /** The ranks of the block of `size` that `rank` belongs to, without the responder. */
  ghost function Block(n: nat, rank: nat, size: nat, responder: nat): set<nat>
    requires size > 0
  {
    set r | r in Range(0, n) && r / size == rank / size && r != responder
  }

  /** The fan-ins of a requester's stack, root level first. */
  function Plan(n: nat, total: nat, requester: nat, responder: nat): (fanins: seq<nat>)
    requires requester < n
    ensures 0 < |fanins| <= R.MAX_STACK_DEPTH
  {
    (if n > 4 then [if total > 0 then total else 1] else [])
    + (if n > 2 then [BlockCount(n, requester, 4, responder)] else [])
    + [BlockCount(n, requester, 2, responder)]
  }

  function Base(rank: nat, size: nat): nat
    requires size > 0
  {
    (rank / size) * size
  }

  function End(n: nat, rank: nat, size: nat): nat
    requires size > 0
  {
    if Base(rank, size) + size > n then n else Base(rank, size) + size
  }

  /** How the plan counts a block: its extent within the group, less the responder, at least one. */
  function BlockCount(n: nat, rank: nat, size: nat, responder: nat): nat
    requires rank < n && size > 0
  {
    CountBetween(Base(rank, size), End(n, rank, size), responder)
  }

  function CountBetween(base: nat, end: int, responder: nat): nat {
    var count := if base <= responder < end && end > base then end - base - 1 else end - base;
    if count > 0 then count else 1
  }

  /** The levels of the plan, root first, and how many there are. */
  method CollectFanins(n: nat, total: nat, requester: nat, responder: nat) returns (fanins: array<nat>, depth: nat)
    requires requester < n
    ensures fresh(fanins) && fanins.Length == R.MAX_STACK_DEPTH && depth <= fanins.Length
    ensures fanins[..depth] == Plan(n, total, requester, responder)
  {
    hide BlockCount;
    fanins := new nat[R.MAX_STACK_DEPTH](_ => 0);
    depth := 0;
    if n > 4 {
      fanins[depth] := if total > 0 then total else 1;
      depth := depth + 1;
    }
    if n > 2 {
      fanins[depth] := BlockCount(n, requester, 4, responder);
      depth := depth + 1;
    }
    fanins[depth] := BlockCount(n, requester, 2, responder);
    depth := depth + 1;
  }

  /** Copy `depth` values from `skip` on, and fill the rest with zeros. */
  method CopyPadded(values: array<nat>, skip: nat, depth: nat, out: array<nat>)
    requires values != out && skip + depth <= values.Length && depth <= out.Length
    modifies out
    ensures out[..depth] == values[skip..skip + depth] && forall i :: depth <= i < out.Length ==> out[i] == 0
  {
    var i := 0;
    while i < out.Length
      invariant 0 <= i <= out.Length
      invariant forall j :: 0 <= j < i ==> out[j] == if j < depth then values[skip + j] else 0
      modifies out
    {
      out[i] := if i < depth then values[skip + i] else 0;
      i := i + 1;
    }
  }

  /** arbor_plan_request_fanin_stack: fill the output with the fan-ins and zeros;
      a short output keeps the levels nearest the requester. */
  method PlanRequestFaninStack(n: nat, responderMask: nat, requester: nat, responder: nat, out: array<nat>)
      returns (depth: nat)
    modifies out
    ensures requester >= n || responder >= n || out.Length == 0 ==> depth == 0 && out[..] == old(out[..])
    ensures requester < n && responder < n && out.Length > 0 ==>
              var plan := Plan(n, |Bits(responderMask, 0)|, requester, responder);
              && depth == (if |plan| > out.Length then out.Length else |plan|)
              && out[..depth] == plan[|plan| - depth..] && forall i :: depth <= i < out.Length ==> out[i] == 0
  {
    hide Plan;
    var total := CountBits32(responderMask);
    if out.Length == 0 || requester >= n || responder >= n {
      return 0;
    }
    var fanins: array<nat>;
    fanins, depth := CollectFanins(n, total, requester, responder);
    var skip := if depth > out.Length then depth - out.Length else 0;
    assert fanins[skip..depth] == fanins[..depth][skip..];
    depth := depth - skip;
    CopyPadded(fanins, skip, depth, out);
  }

  // ---------------------------------------------------- the tree it is meant for

  // Router ids: the root, the routers above blocks of four, those above blocks of two.
  const ROOT: nat := 0

  function MidOf(rank: nat): nat {
    1 + 2 * (rank / 4)
  }

  function LeafOf(rank: nat): nat {
    2 + 2 * (rank / 2)
  }

  /** The LEVEL routers from the root to a rank. */
  function PlannedPath(n: nat, rank: nat): (path: seq<nat>)
    ensures 0 < |path| <= R.MAX_STACK_DEPTH
  {
    (if n > 4 then [ROOT] else []) + (if n > 2 then [MidOf(rank)] else []) + [LeafOf(rank)]
  }

  ghost function Requesters(n: nat, responder: nat): set<nat> {
    Range(0, n) - {responder}
  }

  /** The tree of a responder whose neighbour mask names `ranks`: these are its requesters. */
  ghost function PlannedTree(n: nat, ranks: set<nat>, slot: map<nat, nat>): L.Tree {
    L.Tree(ranks, map r | r in ranks :: PlannedPath(n, r), slot)
  }

  /** The fan-ins a requester plans are the numbers of requesters below its routers. */
  ghost predicate PlanFits(n: nat, ranks: set<nat>, responder: nat, slot: map<nat, nat>)
    requires ranks <= Requesters(n, responder)
  {
    forall r :: r in ranks ==> PlanFitsRank(n, ranks, responder, slot, r)
  }

  ghost predicate PlanFitsRank(n: nat, ranks: set<nat>, responder: nat, slot: map<nat, nat>, r: nat)
    requires ranks <= Requesters(n, responder) && r in ranks
  {
    var path, plan := PlannedPath(n, r), Plan(n, |ranks|, r, responder);
    |plan| == |path| && forall i :: 0 <= i < |path| ==> plan[i] == |L.Below(PlannedTree(n, ranks, slot), path[i])|
  }

  /** The largest block the plan counts by its extent. */
  function WholeSize(n: nat): nat {
    if n > 2 then 4 else 2
  }

  /** The mask names every rank, the responder excepted, of each block it has a rank in. */
  ghost predicate WholeBlocks(n: nat, ranks: set<nat>, responder: nat) {
    forall r :: r in ranks ==> Block(n, r, WholeSize(n), responder) <= ranks
  }

  lemma RangeCount(base: nat, count: nat, responder: nat)
    ensures |Range(base, count) - {responder}| == if responder in Range(base, count) then count - 1 else count
  {
    RangeSize(base, count);
    var all := Range(base, count);
    if responder in all {
      assert all == (all - {responder}) + {responder};
    } else {
      assert all - {responder} == all;
    }
  }

  lemma CountIsSize(base: nat, end: nat, rank: nat, responder: nat)
    requires base <= rank < end && rank != responder
    ensures |Range(base, end - base) - {responder}| == CountBetween(base, end, responder)
  {
    hide Range;
    var n: nat := end - base;
    RangeCount(base, n, responder);
  }

  lemma BlockBounds(n: nat, rank: nat, size: nat, r: nat)
    requires rank < n && (size == 2 || size == 4) && r < n
    ensures Base(rank, size) <= rank < End(n, rank, size)
    ensures r / size == rank / size <==> Base(rank, size) <= r < End(n, rank, size)
  {
    if size == 2 {
    } else {
    }
  }

  lemma BlockIsRange(n: nat, rank: nat, size: nat, responder: nat)
    requires rank < n && (size == 2 || size == 4)
    ensures Base(rank, size) <= rank < End(n, rank, size) <= n
    ensures Block(n, rank, size, responder) ==
            Range(Base(rank, size), End(n, rank, size) - Base(rank, size)) - {responder}
  {
    BlockBounds(n, rank, size, rank);
    var range := Range(Base(rank, size), End(n, rank, size) - Base(rank, size)) - {responder};
    forall r: nat ensures r in Block(n, rank, size, responder) <==> r in range {
      if r < n { BlockBounds(n, rank, size, r); }
    }
  }

  /** A block's fan-in is the number of ranks in it other than the responder. */
  lemma BlockCountIsSize(n: nat, rank: nat, size: nat, responder: nat)
    requires rank < n && (size == 2 || size == 4) && rank != responder
    ensures BlockCount(n, rank, size, responder) == |Block(n, rank, size, responder)|
  {
    hide Block, Range, Base, End, CountBetween;
    BlockIsRange(n, rank, size, responder);
    CountIsSize(Base(rank, size), End(n, rank, size), rank, responder);
  }

  /** Additivity: a block of four is the disjoint union of its blocks of two. */
  lemma MidIsSumOfLeaves(n: nat, rank: nat, responder: nat)
    requires rank < n
    ensures var first, second := 4 * (rank / 4), 4 * (rank / 4) + 2;
            && Block(n, rank, 4, responder) == Block(n, first, 2, responder) + Block(n, second, 2, responder)
            && Block(n, first, 2, responder) * Block(n, second, 2, responder) == {}
            && |Block(n, rank, 4, responder)| == |Block(n, first, 2, responder)| + |Block(n, second, 2, responder)|
  {
    var first, second := 4 * (rank / 4), 4 * (rank / 4) + 2;
    var whole, a, b := Block(n, rank, 4, responder), Block(n, first, 2, responder), Block(n, second, 2, responder);
    forall r: nat ensures r / 4 == rank / 4 <==> r / 2 == first / 2 || r / 2 == second / 2 {
    }
    assert whole == a + b;
    assert a * b == {};
  }

  lemma PathHas(n: nat, x: nat, r: nat)
    ensures LeafOf(r) in PlannedPath(n, x) <==> x / 2 == r / 2
    ensures n > 2 ==> (MidOf(r) in PlannedPath(n, x) <==> x / 4 == r / 4)
  {
    var path := PlannedPath(n, x);
    assert path[|path| - 1] == LeafOf(x);
    assert n > 2 ==> path[|path| - 2] == MidOf(x);
  }

  lemma BelowLeaf(n: nat, ranks: set<nat>, responder: nat, slot: map<nat, nat>, r: nat)
    requires ranks <= Requesters(n, responder) && r in ranks
    ensures L.Below(PlannedTree(n, ranks, slot), LeafOf(r)) == Block(n, r, 2, responder) * ranks
  {
    hide PlannedPath;
    forall x | x in ranks ensures LeafOf(r) in PlannedPath(n, x) <==> x / 2 == r / 2 {
      PathHas(n, x, r);
    }
  }

  lemma BelowMid(n: nat, ranks: set<nat>, responder: nat, slot: map<nat, nat>, r: nat)
    requires ranks <= Requesters(n, responder) && r in ranks && n > 2
    ensures L.Below(PlannedTree(n, ranks, slot), MidOf(r)) == Block(n, r, 4, responder) * ranks
  {
    hide PlannedPath;
    forall x | x in ranks ensures MidOf(r) in PlannedPath(n, x) <==> x / 4 == r / 4 {
      PathHas(n, x, r);
    }
  }

  lemma BelowRoot(n: nat, ranks: set<nat>, slot: map<nat, nat>)
    requires n > 4
    ensures L.Below(PlannedTree(n, ranks, slot), ROOT) == ranks
  {
    var t := PlannedTree(n, ranks, slot);
    forall x | x in ranks ensures ROOT in t.path[x] {
      assert t.path[x][0] == ROOT;
    }
  }

  /** A block's fan-in is never less than the requesters in it, and no more than these
      exactly if all its ranks are requesters. */
  lemma BlockFitsIff(n: nat, ranks: set<nat>, responder: nat, r: nat, size: nat)
    requires ranks <= Requesters(n, responder) && r in ranks && (size == 2 || size == 4)
    ensures |Block(n, r, size, responder) * ranks| <= BlockCount(n, r, size, responder)
    ensures BlockCount(n, r, size, responder) == |Block(n, r, size, responder) * ranks| <==>
            Block(n, r, size, responder) <= ranks
  {
    hide Block, BlockCount;
    BlockCountIsSize(n, r, size, responder);
    var whole := Block(n, r, size, responder);
    SubsetSize(whole * ranks, whole);
    if |whole * ranks| == |whole| { SubsetOfEqualSize(whole * ranks, whole); }
    if whole <= ranks { assert whole * ranks == whole; }
  }

  lemma LeafInMid(n: nat, r: nat, responder: nat)
    ensures Block(n, r, 2, responder) <= Block(n, r, 4, responder)
  {
    hide Range;
    Halved(r);
    forall x: nat ensures x / 4 == x / 2 / 2 {
      Halved(x);
    }
  }

  lemma Halved(x: nat)
    ensures x / 4 == x / 2 / 2
  {
  }

  lemma PlanFitsRankIff(n: nat, ranks: set<nat>, responder: nat, slot: map<nat, nat>, r: nat)
    requires ranks <= Requesters(n, responder) && r in ranks
    ensures PlanFitsRank(n, ranks, responder, slot, r) <==> Block(n, r, WholeSize(n), responder) <= ranks
    ensures var path, plan := PlannedPath(n, r), Plan(n, |ranks|, r, responder);
            |plan| == |path|
            && forall i :: 0 <= i < |path| ==> |L.Below(PlannedTree(n, ranks, slot), path[i])| <= plan[i]
  {
    hide L.Below, Block, BlockCount;
    BelowLeaf(n, ranks, responder, slot, r);
    BlockFitsIff(n, ranks, responder, r, 2);
    if n > 2 {
      BelowMid(n, ranks, responder, slot, r);
      BlockFitsIff(n, ranks, responder, r, 4);
      LeafInMid(n, r, responder);
    }
    var path, plan, t := PlannedPath(n, r), Plan(n, |ranks|, r, responder), PlannedTree(n, ranks, slot);
    var mid, leaf := BlockCount(n, r, 4, responder), BlockCount(n, r, 2, responder);
    if n > 4 {
      BelowRoot(n, ranks, slot);
      assert path == [ROOT, MidOf(r), LeafOf(r)] && plan == [|ranks|, mid, leaf];
      assert PlanFitsRank(n, ranks, responder, slot, r) ==> plan[1] == |L.Below(t, path[1])|;
    } else if n > 2 {
      assert path == [MidOf(r), LeafOf(r)] && plan == [mid, leaf];
      assert PlanFitsRank(n, ranks, responder, slot, r) ==> plan[0] == |L.Below(t, path[0])|;
    } else {
      assert path == [LeafOf(r)] && plan == [leaf];
      assert PlanFitsRank(n, ranks, responder, slot, r) ==> plan[0] == |L.Below(t, path[0])|;
    }
  }

  /** The plan fits its tree exactly when the responder's neighbour mask is made of whole
      blocks of four (of two, in a group of two), the responder excepted: the top level
      counts the mask, the levels below count ranks whether they are in it or not. */
  lemma PlanFitsIff(n: nat, mask: nat, responder: nat, slot: map<nat, nat>)
    requires Bits(mask, 0) <= Requesters(n, responder)
    ensures PlanFits(n, Bits(mask, 0), responder, slot) <==> WholeBlocks(n, Bits(mask, 0), responder)
  {
    hide PlanFitsRank, Block, Bits, Requesters;
    var ranks := Bits(mask, 0);
    forall r | r in ranks
      ensures PlanFitsRank(n, ranks, responder, slot, r) <==> Block(n, r, WholeSize(n), responder) <= ranks {
      PlanFitsRankIff(n, ranks, responder, slot, r);
    }
  }

  /** Where the plan does not fit, a router waits for more contributions than there are
      requesters below it. */
  lemma MisfitWaits(n: nat, mask: nat, responder: nat, slot: map<nat, nat>)
    requires Bits(mask, 0) <= Requesters(n, responder) && !WholeBlocks(n, Bits(mask, 0), responder)
    ensures exists r, i: nat ::
              && r in Bits(mask, 0) && i < |PlannedPath(n, r)| == |Plan(n, |Bits(mask, 0)|, r, responder)|
              && |L.Below(PlannedTree(n, Bits(mask, 0), slot), PlannedPath(n, r)[i])|
                 < Plan(n, |Bits(mask, 0)|, r, responder)[i]
  {
    hide Block, Bits, Requesters, PlannedPath, Plan, L.Below;
    var ranks := Bits(mask, 0);
    var r :| r in ranks && !(Block(n, r, WholeSize(n), responder) <= ranks);
    PlanFitsRankIff(n, ranks, responder, slot, r);
  }

  /** With the default masks the plan fits for every group size. */
  lemma DefaultPlanFits(n: nat, mask: nat, responder: nat, slot: map<nat, nat>)
    requires Bits(mask, 0) == Range(0, n) - {responder}
    ensures WholeBlocks(n, Bits(mask, 0), responder) && PlanFits(n, Bits(mask, 0), responder, slot)
  {
    PlanFitsIff(n, mask, responder, slot);
  }

  lemma SmallMasks()
    ensures Bits(6, 0) == {1, 2} && Bits(0xF0, 0) == {4, 5, 6, 7}
  {
    assert Bits(1, 2) == {2} && Bits(3, 1) == {1} + Bits(1, 2) && Bits(6, 0) == Bits(3, 1);
    assert Bits(1, 7) == {7} && Bits(3, 6) == {6} + Bits(1, 7);
    assert Bits(7, 5) == {5} + Bits(3, 6) && Bits(15, 4) == {4} + Bits(7, 5);
    assert Bits(30, 3) == Bits(15, 4) && Bits(60, 2) == Bits(30, 3);
    assert Bits(120, 1) == Bits(60, 2) && Bits(0xF0, 0) == Bits(120, 1);
  }

  /** Four ranks whose responder 0 hears of 1 and 2 only: 2's leaf router waits for two
      contributions, and only its own can come. */
  lemma SparseMaskMisfits(slot: map<nat, nat>)
    ensures var ranks := Bits(6, 0);
            && ranks == {1, 2} && !WholeBlocks(4, ranks, 0) && Plan(4, |ranks|, 2, 0) == [3, 2]
            && L.Below(PlannedTree(4, ranks, slot), PlannedPath(4, 2)[1]) == {2}
  {
    hide L.Below, Bits;
    SmallMasks();
    var ranks: set<nat> := {1, 2};
    assert 3 in Block(4, 2, 4, 0);
    BelowLeaf(4, ranks, 0, slot, 2);
    assert PlannedPath(4, 2) == [MidOf(2), LeafOf(2)];
    assert Block(4, 2, 2, 0) * ranks == {2};
  }

  /** Eight ranks whose responder 0 hears of the other half only: every plan fits. */
  lemma HalfMaskFits(slot: map<nat, nat>)
    ensures var ranks := Bits(0xF0, 0);
            && ranks == {4, 5, 6, 7} && PlanFits(8, ranks, 0, slot)
            && forall r :: r in ranks ==> Plan(8, |ranks|, r, 0) == [4, 4, 2]
  {
    hide Bits, PlanFits, WholeBlocks, Range, Block, Plan;
    SmallMasks();
    UpperHalf();
    PlanFitsIff(8, 0xF0, 0, slot);
  }

  lemma UpperHalf()
    ensures var ranks: set<nat> := {4, 5, 6, 7};
            && ranks <= Requesters(8, 0) && |ranks| == 4 && WholeBlocks(8, ranks, 0)
            && forall r :: r in ranks ==> Plan(8, |ranks|, r, 0) == [4, 4, 2]
  {
    hide Range;
    forall r: nat | 4 <= r < 8 ensures r / 4 == 1 && Plan(8, 4, r, 0) == [4, 4, 2] {
    }
  }

  lemma NamesApart(r: nat, s: nat)
    ensures MidOf(r) != ROOT && LeafOf(r) != ROOT && MidOf(r) != LeafOf(s)
    ensures LeafOf(r) == LeafOf(s) ==> MidOf(r) == MidOf(s)
  {
  }

  lemma PlannedPathShape(n: nat, r: nat, s: nat, i: nat, j: nat)
    requires i < |PlannedPath(n, r)| && j < |PlannedPath(n, s)| && PlannedPath(n, r)[i] == PlannedPath(n, s)[j]
    ensures i == j && PlannedPath(n, r)[..i] == PlannedPath(n, s)[..i]
  {
    hide MidOf, LeafOf;
    var p, q := PlannedPath(n, r), PlannedPath(n, s);
    NamesApart(r, s);
    NamesApart(s, r);
    if n > 4 {
      assert p == [ROOT, MidOf(r), LeafOf(r)] && q == [ROOT, MidOf(s), LeafOf(s)];
    } else if n > 2 {
      assert p == [MidOf(r), LeafOf(r)] && q == [MidOf(s), LeafOf(s)];
    } else {
      assert p == [LeafOf(r)] && q == [LeafOf(s)];
    }
    assert i == j;
    assert p[..i] == q[..i];
  }

  /** The planned tree is a tree in the sense of Lossless.dfy. */
  lemma PlannedTreeOk(n: nat, ranks: set<nat>, responder: nat, slot: map<nat, nat>)
    requires responder < n <= 0x100 && ranks != {} && ranks <= Requesters(n, responder)
    ensures L.TreeOk(PlannedTree(n, ranks, slot))
  {
    hide PlannedPath, L.OnPath, Range;
    var t := PlannedTree(n, ranks, slot);
    RangeCount(0, n, responder);
    SubsetSize(ranks, Requesters(n, responder));
    PlannedPathsAgree(n, ranks, slot);
    forall r, s | r in t.ranks && s in t.ranks ensures t.path[r][0] == t.path[s][0] {
      SameStart(n, r, s);
    }
  }

  lemma PlannedPathsAgree(n: nat, ranks: set<nat>, slot: map<nat, nat>)
    ensures var t := PlannedTree(n, ranks, slot);
            forall r, s, i: nat, j: nat, v :: L.OnPath(t, r, i, v) && L.OnPath(t, s, j, v) ==>
              i == j && t.path[r][..i] == t.path[s][..i]
  {
    hide PlannedPath;
    var t := PlannedTree(n, ranks, slot);
    forall r, s, i: nat, j: nat, v | L.OnPath(t, r, i, v) && L.OnPath(t, s, j, v)
      ensures i == j && t.path[r][..i] == t.path[s][..i]
    {
      PlannedPathShape(n, r, s, i, j);
    }
  }

  lemma SameStart(n: nat, r: nat, s: nat)
    requires r < n && s < n
    ensures PlannedPath(n, r)[0] == PlannedPath(n, s)[0]
  {
  }
}

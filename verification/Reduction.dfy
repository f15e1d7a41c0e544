/** Element-wise reduction of int32 words.

    The router, the responder and the requesters all combine payloads word by
    word with SUM, MAX or MIN.  SUM wraps modulo 2^32, as the machine addition
    does.  Every reduction is a commutative monoid, so the fold over a set of
    ranks does not depend on the order in which the contributions arrive or on
    how they were grouped on the way. */
module Reduction {

  type Int32 = x: int | -0x8000_0000 <= x < 0x8000_0000

  // Wire operation codes 0..3.  NOP falls into the additive branch of every
  // reduction loop of the repository.
  datatype Op = Nop | Sum | Max | Min

  type Payload = seq<Int32>

  /** Two's complement addition of two words: the mathematical sum, brought
      back into the int32 range by a multiple of 2^32. */
  function WrapAdd(a: Int32, b: Int32): (r: Int32)
    ensures r == a + b || r == a + b - 0x1_0000_0000 || r == a + b + 0x1_0000_0000
  {
    var x := a + b;
    if x >= 0x8000_0000 then x - 0x1_0000_0000
    else if x < -0x8000_0000 then x + 0x1_0000_0000
    else x
  }

  function CombineWord(op: Op, a: Int32, b: Int32): Int32 {
    match op
    case Max => if b > a then b else a
    case Min => if b < a then b else a
    case _ => WrapAdd(a, b)
  }

  function Unit(op: Op): Int32 {
    match op
    case Max => -0x8000_0000
    case Min => 0x7FFF_FFFF
    case _ => 0
  }

  lemma CombineWordLaws(op: Op, a: Int32, b: Int32, c: Int32)
    ensures CombineWord(op, a, Unit(op)) == a
    ensures CombineWord(op, Unit(op), a) == a
    ensures CombineWord(op, a, b) == CombineWord(op, b, a)
    ensures CombineWord(op, CombineWord(op, a, b), c) == CombineWord(op, a, CombineWord(op, b, c))
  {
  }

  const MODULUS: nat := 0x1_0000_0000

  predicate Congruent(a: int, b: int) {
    (a - b) % MODULUS == 0
  }

  /** What the operations mean: the larger word, the smaller one, or the sum modulo 2^32. */
  lemma CombineWordMeans(op: Op, a: Int32, b: Int32)
    ensures var r := CombineWord(op, a, b);
            match op
            case Max => r >= a && r >= b && (r == a || r == b)
            case Min => r <= a && r <= b && (r == a || r == b)
            case _ => Congruent(r, a + b)
  {
  }

  /** Pointwise combination of two payloads of the same shape. */
  function Combine(op: Op, a: Payload, b: Payload): (r: Payload)
    requires |a| == |b|
    ensures |r| == |a|
  {
    seq(|a|, i requires 0 <= i < |a| => CombineWord(op, a[i], b[i]))
  }

  function Units(op: Op, len: nat): (r: Payload)
    ensures |r| == len
  {
    seq(len, _ => Unit(op))
  }

  lemma CombineLaws(op: Op, a: Payload, b: Payload, c: Payload)
    requires |a| == |b| == |c|
    ensures Combine(op, a, Units(op, |a|)) == a
    ensures Combine(op, Units(op, |a|), a) == a
    ensures Combine(op, a, b) == Combine(op, b, a)
    ensures Combine(op, Combine(op, a, b), c) == Combine(op, a, Combine(op, b, c))
  {
    forall i | 0 <= i < |a| {
      CombineWordLaws(op, a[i], b[i], c[i]);
    }
  }

  /** An accumulator after folding a payload into it.  The first MAX or MIN
      contribution is copied, because accumulators start at zero. */
  function Accumulate(op: Op, first: bool, row: Payload, p: Payload): (r: Payload)
    requires |p| <= |row|
    ensures |r| == |row|
  {
    if first && (op == Max || op == Min) && |p| > 0 then p + row[|p|..]
    else Combine(op, row[..|p|], p) + row[|p|..]
  }

  /** Folding the first contribution into a cleared accumulator stores it unchanged, for every operation. */
  lemma FirstContribution(op: Op, row: Payload, p: Payload)
    requires |p| <= |row| && forall j :: 0 <= j < |row| ==> row[j] == 0
    ensures Accumulate(op, true, row, p)[..|p|] == p
  {
    if op == Nop || op == Sum {
      assert row[..|p|] == Units(op, |p|);
      CombineLaws(op, p, p, p);
    }
  }

  /** Contributions of the ranks of one reduction. */
  type Inputs = nat -> Payload

  ghost predicate Shaped(inputs: Inputs, len: nat) {
    forall r: nat :: |inputs(r)| == len
  }

  /** The reduction of inputs(r) over the ranks r in `ranks` below `bound`, each taken once. */
  ghost function Fold(op: Op, inputs: Inputs, len: nat, ranks: set<nat>, bound: nat): (r: Payload)
    requires Shaped(inputs, len)
    ensures |r| == len
  {
    if bound == 0 then Units(op, len)
    else
      var rest := Fold(op, inputs, len, ranks, bound - 1);
      if bound - 1 in ranks then Combine(op, rest, inputs(bound - 1)) else rest
  }

  lemma {:induction false} FoldSingleton(op: Op, inputs: Inputs, len: nat, r: nat, bound: nat)
    requires Shaped(inputs, len)
    ensures Fold(op, inputs, len, {r}, bound) == if r < bound then inputs(r) else Units(op, len)
  {
    if bound > 0 {
      FoldSingleton(op, inputs, len, r, bound - 1);
      CombineLaws(op, inputs(r), inputs(r), inputs(r));
    }
  }

  /** Merging two disjoint groups of contributions is the reduction over their
      union, whichever ranks they hold and in whatever order they interleave. */
  lemma {:induction false} FoldUnion(op: Op, inputs: Inputs, len: nat, a: set<nat>, b: set<nat>, bound: nat)
    requires Shaped(inputs, len)
    requires a !! b
    ensures Fold(op, inputs, len, a + b, bound)
         == Combine(op, Fold(op, inputs, len, a, bound), Fold(op, inputs, len, b, bound))
  {
    if bound == 0 {
      CombineLaws(op, Units(op, len), Units(op, len), Units(op, len));
    } else {
      var n := bound - 1;
      FoldUnion(op, inputs, len, a, b, n);
      var fa := Fold(op, inputs, len, a, n);
      var fb := Fold(op, inputs, len, b, n);
      var x := inputs(n);
      CombineLaws(op, fa, fb, x);
      CombineLaws(op, fa, x, fb);
      CombineLaws(op, fb, x, fa);
    }
  }

  // ------------------------------------------------- what a reduction amounts to

  /** The integer sum of word `w` of the inputs of the ranks below `bound`. */
  ghost function WordSum(inputs: Inputs, len: nat, w: nat, ranks: set<nat>, bound: nat): int
    requires Shaped(inputs, len) && w < len
  {
    if bound == 0 then 0
    else WordSum(inputs, len, w, ranks, bound - 1) + if bound - 1 in ranks then inputs(bound - 1)[w] else 0
  }

  /** `word` is word `w` of the reduction: the largest or the smallest of the ranks' words,
      or congruent to their sum modulo 2^32. */
  ghost predicate Reduces(op: Op, word: Int32, inputs: Inputs, len: nat, w: nat, ranks: set<nat>, bound: nat)
    requires Shaped(inputs, len) && w < len
  {
    match op
    case Max => (forall r :: r in ranks ==> inputs(r)[w] <= word) && exists r :: r in ranks && inputs(r)[w] == word
    case Min => (forall r :: r in ranks ==> word <= inputs(r)[w]) && exists r :: r in ranks && inputs(r)[w] == word
    case _ => Congruent(word, WordSum(inputs, len, w, ranks, bound))
  }

  /** The fold over no ranks below the bound is the unit. */
  lemma {:induction false} FoldNone(op: Op, inputs: Inputs, len: nat, ranks: set<nat>, bound: nat)
    requires Shaped(inputs, len) && RanksBelow(ranks, bound) == {}
    ensures Fold(op, inputs, len, ranks, bound) == Units(op, len)
  {
    if bound > 0 {
      RanksBelowNext(ranks, bound - 1);
      FoldNone(op, inputs, len, ranks, bound - 1);
    }
  }

  ghost function RanksBelow(ranks: set<nat>, bound: nat): set<nat> {
    set r | r in ranks && r < bound
  }

  /** Every word of a fold is the reduction of the ranks' words. */
  lemma {:induction false} FoldReducesBelow(op: Op, inputs: Inputs, len: nat, w: nat, ranks: set<nat>, bound: nat)
    requires Shaped(inputs, len) && w < len
    ensures op != Max && op != Min ==>
              Congruent(Fold(op, inputs, len, ranks, bound)[w], WordSum(inputs, len, w, ranks, bound))
    ensures RanksBelow(ranks, bound) != {} ==>
              Reduces(op, Fold(op, inputs, len, ranks, bound)[w], inputs, len, w, RanksBelow(ranks, bound), bound)
  {
    if bound > 0 {
      var n := bound - 1;
      FoldReducesBelow(op, inputs, len, w, ranks, n);
      RanksBelowNext(ranks, n);
      SumBelow(inputs, len, w, ranks, bound, bound);
      if n in ranks {
        var before := Fold(op, inputs, len, ranks, n)[w];
        CombineWordMeans(op, before, inputs(n)[w]);
        if RanksBelow(ranks, n) == {} {
          FoldNone(op, inputs, len, ranks, n);
          CombineWordLaws(op, inputs(n)[w], 0, 0);
        }
      }
    }
  }

  lemma RanksBelowNext(ranks: set<nat>, n: nat)
    ensures RanksBelow(ranks, n + 1) == RanksBelow(ranks, n) + if n in ranks then {n} else {}
  {
  }

  lemma {:induction false} SumBelow(inputs: Inputs, len: nat, w: nat, ranks: set<nat>, n: nat, bound: nat)
    requires Shaped(inputs, len) && w < len && n <= bound
    ensures WordSum(inputs, len, w, RanksBelow(ranks, bound), n) == WordSum(inputs, len, w, ranks, n)
  {
    if n > 0 { SumBelow(inputs, len, w, ranks, n - 1, bound); }
  }

  lemma FoldReduces(op: Op, inputs: Inputs, len: nat, w: nat, ranks: set<nat>, bound: nat)
    requires Shaped(inputs, len) && w < len && ranks != {} && forall r :: r in ranks ==> r < bound
    ensures Reduces(op, Fold(op, inputs, len, ranks, bound)[w], inputs, len, w, ranks, bound)
  {
    assert RanksBelow(ranks, bound) == ranks;
    FoldReducesBelow(op, inputs, len, w, ranks, bound);
  }

  /** A fold looks only at the inputs of its ranks, and a larger bound adds nothing. */
  lemma {:induction false} FoldSame(op: Op, a: Inputs, b: Inputs, len: nat, ranks: set<nat>, bound: nat, top: nat)
    requires Shaped(a, len) && Shaped(b, len) && bound <= top
    requires forall r :: r in ranks ==> r < bound && a(r) == b(r)
    ensures Fold(op, a, len, ranks, top) == Fold(op, b, len, ranks, bound)
    decreases top
  {
    if top > bound {
      FoldSame(op, a, b, len, ranks, bound, top - 1);
    } else if bound > 0 {
      FoldSameBelow(op, a, b, len, ranks, bound);
    }
  }

  lemma {:induction false} FoldSameBelow(op: Op, a: Inputs, b: Inputs, len: nat, ranks: set<nat>, bound: nat)
    requires Shaped(a, len) && Shaped(b, len) && forall r :: r in ranks ==> a(r) == b(r)
    ensures Fold(op, a, len, ranks, bound) == Fold(op, b, len, ranks, bound)
  {
    if bound > 0 { FoldSameBelow(op, a, b, len, ranks, bound - 1); }
  }

  /** The inputs with one more rank's. */
  ghost function With(inputs: Inputs, own: nat, mine: Payload): Inputs {
    r => if r == own then mine else inputs(r)
  }

  /** One more rank's input combined with a fold is the fold over one more rank. */
  lemma FoldWith(op: Op, inputs: Inputs, len: nat, ranks: set<nat>, own: nat, mine: Payload, bound: nat, top: nat)
    requires Shaped(inputs, len) && |mine| == len && own !in ranks && bound <= top && own < top
    requires forall r :: r in ranks ==> r < bound
    ensures Shaped(With(inputs, own, mine), len)
    ensures Fold(op, With(inputs, own, mine), len, ranks + {own}, top) ==
            Combine(op, mine, Fold(op, inputs, len, ranks, bound))
  {
    var all := With(inputs, own, mine);
    FoldUnion(op, all, len, ranks, {own}, top);
    FoldSingleton(op, all, len, own, top);
    FoldSame(op, all, inputs, len, ranks, bound, top);
    CombineLaws(op, mine, Fold(op, inputs, len, ranks, bound), mine);
  }
}

/** The 24-bit circular sequence space: reservation and lookup
    (protocol/host.c, wire/arbor_wire.h, reference/arbor-host.cc). */
module SequenceSpace {
  import opened Prelude

  const SPACE: nat := 0x100_0000
  const HALF: nat := 0x7F_FFFF          // the mask shifted right by one
  const WORD: nat := 0x1_0000_0000

  type Seq24 = x: nat | x < SPACE

  /** 32-bit words wrap, and the mask keeps the low 24 bits. */
  function Masked(x: int): Seq24 {
    (x % WORD) % SPACE
  }

  function Add(base: Seq24, delta: nat): Seq24 {
    Masked(base + delta)
  }

  /** How far `x` lies ahead of `base`, going round. */
  function Distance(x: Seq24, base: Seq24): Seq24 {
    Masked(x - base)
  }

  predicate Contains(start: Seq24, total: nat, x: Seq24) {
    Distance(x, start) < total
  }

  predicate RangesOverlap(a: Seq24, la: nat, b: Seq24, lb: nat) {
    Contains(a, la, b) || Contains(b, lb, a)
  }

  predicate SeqBefore(a: Seq24, b: Seq24) {
    var d := Distance(b, a);
    d != 0 && d < 0x80_0000
  }

  // ---------------------------------------------------------- the arithmetic

  lemma MaskedIs(x: int)
    ensures Masked(x) == x % SPACE
  {
    var q := x / WORD;
    assert x == (q * 256) * SPACE + x % WORD;
    RemainderOf(x, q * 256 + (x % WORD) / SPACE, (x % WORD) % SPACE);
  }

  lemma RemainderOf(x: int, q: int, r: nat)
    requires x == q * SPACE + r && r < SPACE
    ensures x % SPACE == r
  {
  }

  /** The distance of two sequence numbers, without the wrap-around. */
  lemma DistanceIs(x: Seq24, base: Seq24)
    ensures Distance(x, base) == if base <= x then x - base else x - base + SPACE
  {
    MaskedIs(x - base);
  }

  /** The pairwise test is exact: two circular ranges overlap iff they share a number. */
  lemma OverlapIsSharing(a: Seq24, la: nat, b: Seq24, lb: nat)
    requires la > 0 && lb > 0
    ensures RangesOverlap(a, la, b, lb) <==> exists x: Seq24 :: Contains(a, la, x) && Contains(b, lb, x)
  {
    DistanceIs(a, a);
    DistanceIs(b, b);
    if RangesOverlap(a, la, b, lb) {
      assert Contains(a, la, if Contains(a, la, b) then b else a);
    }
    if x: Seq24 :| Contains(a, la, x) && Contains(b, lb, x) {
      DistanceIs(x, a);
      DistanceIs(x, b);
      DistanceIs(a, b);
      DistanceIs(b, a);
    }
  }

  /** Where an unbounded number lands in the circle. */
  function Wrap(n: nat): Seq24 {
    n % SPACE
  }

  lemma WrapDistance(x: nat, y: nat)
    requires y <= x < y + SPACE
    ensures Distance(Wrap(x), Wrap(y)) == x - y
  {
    var a: int, b: int := Wrap(x), Wrap(y);
    MaskedIs(a - b);
    assert x == (x / SPACE) * SPACE + a && y == (y / SPACE) * SPACE + b;
    RemainderOf(a - b, y / SPACE - x / SPACE, x - y);
  }

  lemma WrapAdd(x: nat, d: nat)
    ensures Add(Wrap(x), d) == Wrap(x + d)
  {
    MaskedIs(Wrap(x) + d);
    assert x == (x / SPACE) * SPACE + Wrap(x);
    RemainderOf(x + d, x / SPACE + (Wrap(x) + d) / SPACE, (Wrap(x) + d) % SPACE);
  }

  /** Comparison across the wrap agrees with the unbounded order while the two numbers
      are less than half the space apart. */
  lemma BeforeAgrees(a: nat, b: nat)
    requires a < b + 0x80_0000 && b < a + 0x80_0000
    ensures SeqBefore(Wrap(a), Wrap(b)) <==> a < b
  {
    if a <= b {
      WrapDistance(b, a);
    } else {
      WrapDistance(b + SPACE, a);
      WrapAround(b);
    }
  }

  lemma WrapAround(b: nat)
    ensures Wrap(b + SPACE) == Wrap(b)
  {
    RemainderOf(b + SPACE, b / SPACE + 1, b % SPACE);
  }

  /** ... and not at half the space. */
  lemma BeforeFailsAtHalf(a: nat)
    ensures !SeqBefore(Wrap(a), Wrap(a + 0x80_0000)) && !SeqBefore(Wrap(a + 0x80_0000), Wrap(a))
  {
    WrapDistance(a + 0x80_0000, a);
    WrapDistance(a + SPACE, a + 0x80_0000);
    WrapAround(a);
  }

  /** Of two numbers less than the whole space apart, both comparisons are right exactly if
      they are less than half of it apart. */
  lemma BeforeAgreesIff(a: nat, b: nat)
    requires a < b + SPACE && b < a + SPACE
    ensures (SeqBefore(Wrap(a), Wrap(b)) <==> a < b) && (SeqBefore(Wrap(b), Wrap(a)) <==> b < a) <==>
            a < b + 0x80_0000 && b < a + 0x80_0000
  {
    if a < b + 0x80_0000 && b < a + 0x80_0000 {
      BeforeAgrees(a, b);
      BeforeAgrees(b, a);
    } else if a < b {
      WrapDistance(b, a);
    } else {
      WrapDistance(a, b);
    }
  }

  /** Inside one window of the space, circular containment is plain containment. */
  lemma ContainsAgrees(cursor: nat, start: nat, total: nat, o: nat)
    requires start + total <= cursor <= start + SPACE
    requires o < cursor <= o + SPACE
    ensures Contains(Wrap(start), total, Wrap(o)) <==> start <= o < start + total
  {
    if start <= o {
      WrapDistance(o, start);
    } else {
      WrapDistance(o + SPACE, start);
      WrapAround(o);
    }
  }

  // ------------------------------------------------------ the table of messages

  const MAX_MESSAGES: nat := 256

  datatype Slot = Slot(inUse: bool, reserved: bool, start: Seq24, total: nat)

  const FREE: Slot := Slot(false, false, 0, 0)

  predicate Taken(m: Slot) {
    m.inUse || m.reserved
  }

  predicate LiveSlot(m: Slot) {
    m.inUse && m.reserved
  }

  predicate Owns(m: Slot, x: Seq24) {
    LiveSlot(m) && Contains(m.start, m.total, x)
  }

  /** No sequence number belongs to two live messages. */
  ghost predicate Disjoint(slots: seq<Slot>) {
    && (forall i :: 0 <= i < |slots| && LiveSlot(slots[i]) ==> slots[i].total > 0)
    && forall i, j, x: Seq24 :: 0 <= i < |slots| && 0 <= j < |slots| && Owns(slots[i], x) && Owns(slots[j], x)
         ==> i == j
  }

  /** A live message (other than `self`) that refuses the reservation of `count` numbers at `current`. */
  predicate Blocks(slots: seq<Slot>, i: nat, self: nat, current: Seq24, count: nat)
    requires i < |slots|
  {
    && i != self && LiveSlot(slots[i])
    && (Distance(current, slots[i].start) >= HALF || RangesOverlap(current, count, slots[i].start, slots[i].total))
  }

  ghost predicate Refused(slots: seq<Slot>, self: nat, current: Seq24, count: nat) {
    count == 0 || count > HALF || exists i: nat :: i < |slots| && Blocks(slots, i, self, current, count)
  }

  /** A reservation that nobody blocks keeps the ranges disjoint. */
  lemma ReservedKeepsDisjoint(slots: seq<Slot>, i: nat, m: Slot)
    requires Disjoint(slots) && i < |slots| && LiveSlot(m) && m.total > 0
    requires forall j: nat :: j < |slots| ==> !Blocks(slots, j, i, m.start, m.total)
    ensures Disjoint(slots[i := m])
  {
    var slots' := slots[i := m];
    forall j: nat, x: Seq24 | j < |slots| && j != i && Owns(slots'[j], x) ensures !Owns(m, x) {
      UnblockedShareNothing(slots, i, m, j, x);
    }
  }

  lemma UnblockedShareNothing(slots: seq<Slot>, i: nat, m: Slot, j: nat, x: Seq24)
    requires Disjoint(slots) && i < |slots| && LiveSlot(m) && m.total > 0 && j < |slots| && j != i
    requires !Blocks(slots, j, i, m.start, m.total) && Owns(slots[j], x)
    ensures !Owns(m, x)
  {
    OverlapIsSharing(m.start, m.total, slots[j].start, slots[j].total);
  }

  class MessageTable {
    const slots: array<Slot>
    var nextSequence: Seq24
    var nextId: nat
    var hint: nat

    ghost predicate Valid()
      reads this, slots
    {
      slots.Length == MAX_MESSAGES && nextId < MAX_MESSAGES && hint < MAX_MESSAGES && Disjoint(slots[..])
    }

    constructor ()
      ensures Valid() && fresh(slots) && nextSequence == 0 && forall i :: 0 <= i < MAX_MESSAGES ==> slots[i] == FREE
    {
      slots := new Slot[MAX_MESSAGES](_ => FREE);
      nextSequence, nextId, hint := 0, 0, 0;
    }

    /** Reserve the next `count` numbers for a message already marked in use. */
    method ReserveSequence(id: nat, count: nat) returns (ok: bool)
      requires slots.Length == MAX_MESSAGES && id < MAX_MESSAGES
      modifies this`nextSequence, slots
      ensures ok <==> !Refused(old(slots[..]), id, old(nextSequence), count)
      ensures ok ==> nextSequence == Add(old(nextSequence), count)
                     && slots[..] == old(slots[..])[id := old(slots[id]).(start := old(nextSequence), reserved := true)]
      ensures !ok ==> nextSequence == old(nextSequence) && slots[..] == old(slots[..])
    {
      if count == 0 || count > HALF {
        return false;
      }
      var current := nextSequence;
      var i := 0;
      while i < MAX_MESSAGES
        invariant 0 <= i <= MAX_MESSAGES
        invariant forall j: nat :: j < i ==> !Blocks(slots[..], j, id, current, count)
        modifies {}
      {
        var live := slots[i];
        if i != id && live.inUse && live.reserved {
          if Distance(current, live.start) >= HALF || RangesOverlap(current, count, live.start, live.total) {
            assert Blocks(slots[..], i, id, current, count);
            return false;
          }
        }
        i := i + 1;
      }
      nextSequence := Add(current, count);
      slots[id] := slots[id].(start := current, reserved := true);
      return true;
    }

    /** Take the first free slot in rotation and reserve its numbers; on refusal the
        slot is left blank. */
    method Acquire(total: nat) returns (id: Option<nat>)
      requires Valid()
      modifies this`nextSequence, this`nextId, this`hint, slots
      ensures Valid()
      ensures id.Some? ==>
                && id.value < MAX_MESSAGES && !Taken(old(slots[id.value]))
                && 0 < total <= HALF
                && slots[..] == old(slots[..])[id.value := Slot(true, true, old(nextSequence), total)]
                && nextSequence == Add(old(nextSequence), total)
                && (forall j :: 0 <= j < MAX_MESSAGES && j != id.value && LiveSlot(old(slots[j])) ==>
                      Distance(old(nextSequence), old(slots[j]).start) < HALF)
      ensures id.Some? ==> FirstFree(old(slots[..]), old(nextId), id.value) && hint == id.value
                           && nextId == (id.value + 1) % MAX_MESSAGES
      ensures id.None? ==> nextId == old(nextId) && hint == old(hint)
      ensures id.None? ==>
                && nextSequence == old(nextSequence)
                && (forall j :: 0 <= j < MAX_MESSAGES ==>
                      slots[j] == old(slots[j]) || (slots[j] == FREE && !LiveSlot(old(slots[j]))))
                && (total == 0 || total > HALF
                    || (forall j :: 0 <= j < MAX_MESSAGES ==> Taken(old(slots[j])))
                    || exists j: nat :: j < MAX_MESSAGES && LiveSlot(old(slots[j]))
                         && (Distance(nextSequence, old(slots[j]).start) >= HALF
                             || RangesOverlap(nextSequence, total, old(slots[j]).start, old(slots[j]).total)))
    {
      if total == 0 || total >= SPACE {
        return None;
      }
      ghost var before := slots[..];
      var i := 0;
      while i < MAX_MESSAGES
        invariant 0 <= i <= MAX_MESSAGES
        invariant forall t: nat :: t < i ==> Taken(slots[Turn(nextId, t, MAX_MESSAGES)])
        modifies {}
      {
        var candidate := Turn(nextId, i, MAX_MESSAGES);
        if !slots[candidate].inUse && !slots[candidate].reserved {
          break;
        }
        i := i + 1;
      }
      if i == MAX_MESSAGES {
        forall j | 0 <= j < MAX_MESSAGES ensures Taken(slots[j]) {
          RotationCovers(nextId, MAX_MESSAGES, j);
        }
        return None;
      }
      var candidate := Turn(nextId, i, MAX_MESSAGES);
      assert FreeAtTurn(before, nextId, i, candidate);
      slots[candidate] := Slot(true, false, 0, total);
      ghost var marked := slots[..];
      var ok := ReserveSequence(candidate, total);
      if !ok {
        slots[candidate] := FREE;
        assert slots[..] == before[candidate := FREE];
        return None;
      }
      ReservedKeepsDisjoint(marked, candidate, slots[candidate]);
      forall j | 0 <= j < MAX_MESSAGES && j != candidate && LiveSlot(before[j])
        ensures Distance(old(nextSequence), before[j].start) < HALF
      {
        assert !Blocks(marked, j, candidate, old(nextSequence), total);
      }
      assert slots[..] == before[candidate := Slot(true, true, old(nextSequence), total)];
      nextId := (candidate + 1) % MAX_MESSAGES;
      hint := candidate;
      return Some(candidate);
    }

    /** Give a message's slot and numbers back. */
    method Release(id: nat)
      requires Valid() && id < MAX_MESSAGES
      modifies slots
      ensures Valid()
      ensures slots[..] == old(slots[..])[id := old(slots[id]).(inUse := false, reserved := false)]
    {
      slots[id] := slots[id].(inUse := false, reserved := false);
      assert slots[..] == old(slots[..])[id := slots[id]];
    }

    /** Take back the last reservation, if nothing was reserved after it. */
    method Rollback(start: Seq24, count: nat) returns (ok: bool)
      requires Valid()
      modifies this`nextSequence
      ensures Valid()
      ensures ok <==> count > 0 && old(nextSequence) == Add(start, count)
      ensures nextSequence == if ok then start else old(nextSequence)
    {
      if count == 0 || nextSequence != Add(start, count) {
        return false;
      }
      nextSequence := start;
      return true;
    }

    /** The lookup: the hinted slot, the one after it, then all of them.  Whatever
        the hint, the answer is the one message that owns the number. */
    method Find(x: Seq24) returns (id: Option<nat>)
      requires Valid()
      modifies this`hint
      ensures Valid()
      ensures id.Some? ==> id.value < MAX_MESSAGES && Owns(slots[id.value], x) && hint == id.value
                           && forall j :: 0 <= j < MAX_MESSAGES && Owns(slots[j], x) ==> j == id.value
      ensures id.None? ==> hint == old(hint) && forall j :: 0 <= j < MAX_MESSAGES ==> !Owns(slots[j], x)
    {
      ghost var all := slots[..];
      if Owns(slots[hint], x) {
        assert Owns(all[hint], x);
        return Some(hint);
      }
      var next := (hint + 1) % MAX_MESSAGES;
      if Owns(slots[next], x) {
        assert Owns(all[next], x);
        hint := next;
        return Some(next);
      }
      var i := 0;
      while i < MAX_MESSAGES
        invariant 0 <= i <= MAX_MESSAGES
        invariant forall j :: 0 <= j < i ==> !Owns(slots[j], x)
      {
        if Owns(slots[i], x) {
          assert Owns(all[i], x);
          hint := i;
          return Some(i);
        }
        i := i + 1;
      }
      return None;
    }
  }

  /** Slot `id` is free and the slots tried before it, `t` turns of them, are not. */
  ghost predicate FreeAtTurn(slots: seq<Slot>, start: nat, t: nat, id: nat)
    requires |slots| == MAX_MESSAGES
  {
    && id == Turn(start, t, MAX_MESSAGES) && !Taken(slots[id])
    && forall u: nat :: u < t ==> Taken(slots[Turn(start, u, MAX_MESSAGES)])
  }

  /** The first free slot from `start` on, going round once. */
  ghost predicate FirstFree(slots: seq<Slot>, start: nat, id: nat)
    requires |slots| == MAX_MESSAGES
  {
    exists t: nat :: t < MAX_MESSAGES && FreeAtTurn(slots, start, t, id)
  }

  // ------------------------------------------------ the unbounded reservation

  /** Every live message was reserved at an unbounded number not far behind the cursor. */
  ghost predicate Window(slots: seq<Slot>, at: seq<nat>, cursor: nat) {
    && |at| == |slots|
    && forall i :: 0 <= i < |slots| && LiveSlot(slots[i]) ==>
         slots[i].start == Wrap(at[i]) && at[i] + slots[i].total <= cursor < at[i] + SPACE
  }

  /** Acquire keeps every live message inside one window of the space: the age test
      makes the circular table a faithful picture of unbounded reservations. */
  lemma AcquireKeepsWindow(slots: seq<Slot>, at: seq<nat>, cursor: nat, id: nat, total: nat)
    requires Window(slots, at, cursor) && id < |slots| && !LiveSlot(slots[id]) && total <= HALF
    requires forall j :: 0 <= j < |slots| && j != id && LiveSlot(slots[j]) ==>
             Distance(Wrap(cursor), slots[j].start) < HALF
    ensures Window(slots[id := Slot(true, true, Wrap(cursor), total)], at[id := cursor], cursor + total)
    ensures Add(Wrap(cursor), total) == Wrap(cursor + total)
  {
    WrapAdd(cursor, total);
    forall j | 0 <= j < |slots| && j != id && LiveSlot(slots[j]) ensures cursor + total < at[j] + SPACE {
      WrapDistance(cursor, at[j]);
    }
  }

  /** Taking a reservation back keeps the window iff no live message was reserved in what is taken back. */
  lemma RollbackKeepsWindow(slots: seq<Slot>, at: seq<nat>, cursor: nat, count: nat)
    requires Window(slots, at, cursor) && count <= cursor
    requires forall i :: 0 <= i < |slots| && LiveSlot(slots[i]) ==> slots[i].total > 0
    ensures Window(slots, at, cursor - count)
            <==> forall i :: 0 <= i < |slots| && LiveSlot(slots[i]) ==> at[i] + slots[i].total <= cursor - count
  {
  }

  /** Inside the window the age test alone decides: the overlap test never fires. */
  lemma AgeTestSuffices(slots: seq<Slot>, at: seq<nat>, cursor: nat, i: nat, count: nat)
    requires Window(slots, at, cursor) && i < |slots| && LiveSlot(slots[i]) && slots[i].total > 0 && 0 < count <= HALF
    requires Distance(Wrap(cursor), slots[i].start) < HALF
    ensures !RangesOverlap(Wrap(cursor), count, slots[i].start, slots[i].total)
  {
    WrapDistance(cursor, at[i]);
    WrapDistance(at[i] + SPACE, cursor);
    WrapAround(at[i]);
  }

  /** In unbounded numbers: a reservation is refused exactly if it is empty or larger than
      half the space, or some other live message began half the space ago or earlier. */
  lemma ReservationRefusedIff(slots: seq<Slot>, at: seq<nat>, cursor: nat, self: nat, count: nat)
    requires Window(slots, at, cursor)
    requires forall i :: 0 <= i < |slots| && LiveSlot(slots[i]) ==> slots[i].total > 0
    ensures Refused(slots, self, Wrap(cursor), count) <==>
              count == 0 || count > 0x7F_FFFF
              || exists i :: 0 <= i < |slots| && i != self && LiveSlot(slots[i]) && cursor - at[i] >= 0x7F_FFFF
  {
    hide RangesOverlap, Distance, Wrap;
    if 0 < count <= HALF {
      forall i: nat | i < |slots| && LiveSlot(slots[i])
        ensures Blocks(slots, i, self, Wrap(cursor), count) <==> i != self && cursor - at[i] >= HALF
      {
        WrapDistance(cursor, at[i]);
        if cursor - at[i] < HALF { AgeTestSuffices(slots, at, cursor, i, count); }
      }
    }
  }

  /** Inside the window the circular lookup answers the unbounded question. */
  lemma OwnsAgrees(slots: seq<Slot>, at: seq<nat>, cursor: nat, i: nat, o: nat)
    requires Window(slots, at, cursor) && i < |slots| && LiveSlot(slots[i])
    requires o < cursor <= o + SPACE
    ensures Owns(slots[i], Wrap(o)) <==> at[i] <= o < at[i] + slots[i].total
  {
    ContainsAgrees(cursor, at[i], slots[i].total, o);
  }

  // --------------------------------------------------- the ordered-map lookup

  ghost predicate AscendingStarts(starts: seq<Seq24>) {
    forall i, j :: 0 <= i < j < |starts| ==> starts[i] < starts[j]
  }

  /** Messages of an ordered map, none sharing a number with another. */
  ghost predicate DisjointMap(starts: seq<Seq24>, totals: seq<nat>) {
    && |starts| == |totals| && AscendingStarts(starts)
    && (forall i :: 0 <= i < |totals| ==> totals[i] > 0)
    && (forall i, j, x: Seq24 ::
          0 <= i < |starts| && 0 <= j < |starts| && Contains(starts[i], totals[i], x)
          ==> Contains(starts[j], totals[j], x) ==> i == j)
  }

  /** Only two messages can cover a number: the last one starting at or before it,
      or, wrapping round, the last one of all. */
  lemma CoverIsPrevOrLast(starts: seq<Seq24>, totals: seq<nat>, upper: nat, x: Seq24, i: nat)
    requires DisjointMap(starts, totals) && upper <= |starts| && i < |starts|
    requires (forall j :: 0 <= j < upper ==> starts[j] <= x) && (upper < |starts| ==> x < starts[upper])
    requires Contains(starts[i], totals[i], x)
    ensures i == upper - 1 || i == |starts| - 1
  {
    DistanceIs(x, starts[i]);
    var j := if i < upper then upper - 1 else |starts| - 1;
    DistanceIs(starts[j], starts[i]);
    DistanceIs(starts[j], starts[j]);
    assert Contains(starts[i], totals[i], starts[j]) && Contains(starts[j], totals[j], starts[j]);
  }

  /** FindRespMessage and FindReqMessage on 24-bit keys: upper_bound, its
      predecessor, then the last element; equal to searching every message. */
  method FindInOrderedMap(starts: seq<Seq24>, totals: seq<nat>, x: Seq24) returns (found: Option<nat>)
    requires DisjointMap(starts, totals)
    ensures found.Some? ==> found.value < |starts| && Contains(starts[found.value], totals[found.value], x)
    ensures found.None? ==> forall i :: 0 <= i < |starts| ==> !Contains(starts[i], totals[i], x)
  {
    if starts == [] {
      return None;
    }
    var upper := 0;
    while upper < |starts| && starts[upper] <= x
      invariant 0 <= upper <= |starts|
      invariant forall j :: 0 <= j < upper ==> starts[j] <= x
    {
      upper := upper + 1;
    }
    if upper > 0 && Contains(starts[upper - 1], totals[upper - 1], x) {
      return Some(upper - 1);
    }
    var last := |starts| - 1;
    if Contains(starts[last], totals[last], x) {
      return Some(last);
    }
    forall i | 0 <= i < |starts| ensures !Contains(starts[i], totals[i], x) {
      if Contains(starts[i], totals[i], x) {
        CoverIsPrevOrLast(starts, totals, upper, x, i);
      }
    }
    return None;
  }
}

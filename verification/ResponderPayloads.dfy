/** What becomes of the committed responses of a respond_mode call: each waits, rides on
    one credit, or went out alone once (protocol/responder.c). */
module ResponderPayloads {
  import opened Prelude
  import opened Reduction
  import opened ResponderModel
  import opened ResponderCallModel
  import opened ResponderCallHistory

  /** A request that commits its offset puts the response last in the queue; any other
      request leaves the queue alone. */
  lemma CommitQueues(c: Config, s: State, o: nat, m: Arrival)
    requires ConfigOk(c) && Inv(c, s) && o < s.next && |m.payload| <= c.width
    ensures var t := ResponderCallModel.OnRequest(c, s, o, m);
            && t.cells.Keys == s.cells.Keys && o in t.cells
            && (s.cells[o].entry.committed ==> t.cells[o].entry.committed)
            && t.pending == s.pending + (if t.cells[o].entry.committed && !s.cells[o].entry.committed then [o] else [])
            && (forall x :: x in s.cells && x != o ==> t.cells[x] == s.cells[x])
            && t.cells[o].boundBy == s.cells[o].boundBy && t.cells[o].bound == s.cells[o].bound
  {
    hide MatchingInv, PendingInv, CountInv, CellsOk, CellInv, ResponderModel.OnRequest, ReachesEndTest;
    CellOk(c, s, o);
    EntryMoves(c.pull, s.cells[o], CallAt(c, o), m);
    if !s.cells[o].entry.committed {
      PendingFits(c.pull, s.cells, s.pending, o);
    }
  }

  /** A pull credit carries the response that has waited longest, if any waits; a push
      credit carries its own payload.  Nothing else about the other offsets changes. */
  lemma CreditCarries(c: Config, s: State)
    requires ConfigOk(c) && Inv(c, s) && s.next < c.total && |s.cells| < c.capacity
    ensures var (t, credit) := Issue(c, s);
            var load := if !c.pull then Some(s.next) else if s.pending == [] then None else Some(s.pending[0]);
            && credit == Some(s.next) && t.next == s.next + 1
            && t.cells.Keys == s.cells.Keys + {s.next}
            && t.cells[s.next].bound == load
            && t.pending == (if s.pending == [] then [] else s.pending[1..])
            && (forall p :: p in t.cells ==>
                  && t.cells[p].boundBy == (if load == Some(p) then Some(s.next)
                                            else if p in s.cells then s.cells[p].boundBy else None)
                  && (t.cells[p].entry.committed <==> if p in s.cells then s.cells[p].entry.committed else !c.pull))
  {
    hide CountInv, MatchingInv, PendingInv, CellInv, CellsOk, Reserve, Piggyback, TableInv;
    var k := s.next;
    FreshCredit(c, s);
    var t := s.(cells := s.cells[k := Cell(true, None, None, Reserved(CallAt(c, k)))], next := k + 1,
                outstanding := s.outstanding + 1);
    assert Reserve(c, s) == (t, Some(k));
    if c.pull {
      if s.pending != [] { HeadWaits(c, s); }
      PiggybackIs(c, t, k);
    } else {
      NoneWait(c, s);
    }
  }

  lemma NoneWait(c: Config, s: State)
    requires Inv(c, s) && !c.pull
    ensures s.pending == []
  {
  }

  lemma FreshCredit(c: Config, s: State)
    requires ConfigOk(c) && Inv(c, s) && s.next < c.total && |s.cells| < c.capacity
    ensures s.next !in s.cells
    ensures Reserve(c, s) == (s.(cells := s.cells[s.next := Cell(true, None, None, Reserved(CallAt(c, s.next)))],
                                 next := s.next + 1, outstanding := s.outstanding + 1), Some(s.next))
  {
    hide CountInv, MatchingInv, PendingInv, CellInv, CellsOk, Reserve;
    ReserveInOrder(c, s);
  }

  lemma PiggybackIs(c: Config, t: State, k: nat)
    requires k in t.cells && t.cells[k].bound == None
    requires t.pending != [] ==> t.pending[0] != k && Waits(t.cells, t.pending[0])
    ensures Piggyback(c, t, k) ==
            if t.pending == [] then t
            else var p := t.pending[0];
                 t.(cells := t.cells[k := t.cells[k].(bound := Some(p))][p := t.cells[p].(boundBy := Some(k))],
                    pending := t.pending[1..])
  {
    if t.pending != [] {
      assert t.cells[t.pending[0] := t.cells[t.pending[0]]] == t.cells;
    }
  }

  /** No credit goes out when all were, or the table is full. */
  lemma NoCredit(c: Config, s: State)
    requires ConfigOk(c) && Inv(c, s) && !(s.next < c.total && |s.cells| < c.capacity)
    ensures Issue(c, s) == (s, None)
  {
    hide CountInv, MatchingInv, PendingInv;
    ReserveInOrder(c, s);
  }

  /** The payloads an event sends on their own, not on a credit. */
  ghost function SentAlone(c: Config, s: State, ev: Event): multiset<nat> {
    if ev == FlushPending then multiset(Flush(c, s).1) else multiset{}
  }

  /** A run, and the payloads it sent on their own. */
  ghost predicate Sends(c: Config, traffic: Traffic, t: State, n: nat, alone: multiset<nat>)
    requires ConfigOk(c)
    decreases n
  {
    if n == 0 then t == START && alone == multiset{}
    else
      exists mid, ev, before ::
        && Sends(c, traffic, mid, n - 1, before) && StepsTo(c, traffic, mid, ev, t)
        && alone == before + SentAlone(c, mid, ev)
  }

  function Committed(s: State, o: nat): nat {
    if o in s.cells && s.cells[o].entry.committed then 1 else 0
  }

  /** How often the payload of `o` waits for a credit or rides on one. */
  function Placed(s: State, o: nat): nat {
    (if o in s.pending then 1 else 0) + (if o in s.cells && s.cells[o].boundBy.Some? then 1 else 0)
  }

  lemma {:induction false} CountDistinct(xs: seq<nat>, o: nat)
    requires Distinct(xs)
    ensures multiset(xs)[o] == if o in xs then 1 else 0
  {
    if xs != [] {
      var front, last := xs[..|xs| - 1], xs[|xs| - 1];
      assert xs == front + [last] && last !in front;
      CountDistinct(front, o);
    }
  }

  lemma IssuePlaces(c: Config, s: State, o: nat)
    requires ConfigOk(c) && Inv(c, s)
    ensures var t := Issue(c, s).0;
            Placed(t, o) - Placed(s, o) == Committed(t, o) - Committed(s, o)
  {
    hide ConfigOk, Inv, CellInv, CellsOk, Issue, Distinct;
    if s.next < c.total && |s.cells| < c.capacity {
      AllWait(c, s);
      if s.pending != [] {
        HeadLeaves(s.pending, o);
      }
      FreshCredit(c, s);
      IssuedAt(c, s, o);
    } else {
      NoCredit(c, s);
    }
  }

  lemma IssuedAt(c: Config, s: State, o: nat)
    requires ConfigOk(c) && Inv(c, s) && s.next < c.total && |s.cells| < c.capacity
    ensures var t := Issue(c, s).0;
            && t.pending == (if s.pending == [] then [] else s.pending[1..])
            && (o in t.cells <==> o in s.cells || o == s.next)
            && (o in s.cells ==> t.cells[o].entry.committed == s.cells[o].entry.committed)
            && (o in s.cells ==> (t.cells[o].boundBy.Some? <==>
                                  s.cells[o].boundBy.Some? || (s.pending != [] && o == s.pending[0])))
            && (o == s.next && o !in s.cells ==>
                  t.cells[o].boundBy.Some? == t.cells[o].entry.committed == !c.pull)
  {
    hide ConfigOk, Inv, CellInv, CellsOk, Issue;
    CreditCarries(c, s);
    if s.pending != [] {
      HeadWaits(c, s);
    }
    FreshCredit(c, s);
  }

  lemma HeadLeaves(xs: seq<nat>, o: nat)
    requires Distinct(xs) && xs != []
    ensures o in xs <==> o == xs[0] || o in xs[1..]
    ensures xs[0] !in xs[1..]
  {
    assert xs == [xs[0]] + xs[1..];
  }

  lemma AllWait(c: Config, s: State)
    requires Inv(c, s)
    ensures forall o :: o in s.pending ==> o in s.cells && s.cells[o].boundBy == None && s.cells[o].entry.committed
    ensures Distinct(s.pending)
    ensures !c.pull ==> s.pending == []
  {
    hide TableInv, CountInv, MatchingInv;
    forall o | o in s.pending ensures o in s.cells && s.cells[o].boundBy == None && s.cells[o].entry.committed {
      var i :| 0 <= i < |s.pending| && s.pending[i] == o;
      assert Waits(s.cells, s.pending[i]);
    }
  }

  lemma HeadWaits(c: Config, s: State)
    requires Inv(c, s) && s.pending != []
    ensures var p := s.pending[0]; c.pull && p in s.cells && s.cells[p].boundBy == None && s.cells[p].entry.committed
  {
    hide TableInv, CountInv, MatchingInv, Distinct;
    assert Waits(s.cells, s.pending[0]);
  }

  lemma StepPlaces(c: Config, s: State, ev: Event, o: nat)
    requires ConfigOk(c) && Inv(c, s) && EventOk(c, s, ev)
    ensures var t := Step(c, s, ev);
            Placed(t, o) - Placed(s, o) + SentAlone(c, s, ev)[o] == Committed(t, o) - Committed(s, o)
  {
    hide Inv, CellsOk, CellInv, Distinct, Flush, Issue, ResponderCallModel.OnRequest, OnTimeout, EnterRepair;
    AllWait(c, s);
    match ev
    case IssueCredit => IssuePlaces(c, s, o);
    case Request(x, m) => RequestPlaces(c, s, x, m, o);
    case FlushPending =>
      FlushSendsAllHere(c, s);
      CountDistinct(s.pending, o);
    case AggMiss(x) => MissPlaces(c, s, x, o);
    case Timeout(due) => TimeoutPlaces(s, due, o);
  }

  lemma RequestPlaces(c: Config, s: State, x: nat, m: Arrival, o: nat)
    requires ConfigOk(c) && Inv(c, s) && x < s.next && |m.payload| <= c.width
    ensures var t := ResponderCallModel.OnRequest(c, s, x, m);
            Placed(t, o) - Placed(s, o) == Committed(t, o) - Committed(s, o)
  {
    hide Inv, CellsOk, CellInv, Distinct, ResponderCallModel.OnRequest;
    CommitQueues(c, s, x, m);
    AllWait(c, s);
  }

  lemma MissPlaces(c: Config, s: State, x: nat, o: nat)
    requires Inv(c, s) && x < s.next
    ensures var t := OnAggMiss(c, s, x);
            Placed(t, o) == Placed(s, o) && Committed(t, o) == Committed(s, o)
  {
    hide CountInv, MatchingInv, PendingInv, CellsOk, CellInv;
  }

  lemma TimeoutPlaces(s: State, due: set<nat>, o: nat)
    ensures var t := OnTimeout(s, due);
            Placed(t, o) == Placed(s, o) && Committed(t, o) == Committed(s, o)
  {
  }

  lemma NothingPlaced(o: nat)
    ensures Placed(START, o) == Committed(START, o) == 0
  {
  }

  lemma {:induction false} Places(c: Config, traffic: Traffic, t: State, n: nat, alone: multiset<nat>, o: nat)
    requires ConfigOk(c) && Sends(c, traffic, t, n, alone)
    ensures Inv(c, t) && Placed(t, o) + alone[o] == Committed(t, o)
    decreases n
  {
    hide ConfigOk, Inv, CellsOk, Step, EventOk, Allowed, Placed, Committed, SentAlone;
    if n == 0 {
      StartHolds(c);
      NothingPlaced(o);
    } else {
      var mid, ev, before :| Sends(c, traffic, mid, n - 1, before) && StepsTo(c, traffic, mid, ev, t)
        && alone == before + SentAlone(c, mid, ev);
      Places(c, traffic, mid, n - 1, before, o);
      StepKeeps(c, mid, ev);
      StepPlaces(c, mid, ev, o);
    }
  }

  /** Conservation of responses, over every run: the payload of an offset is in exactly one
      place once it is committed, and nowhere before: waiting for a credit, riding on one
      credit, or sent alone, once. */
  lemma ResponsesAreConserved(c: Config, traffic: Traffic, t: State, n: nat, alone: multiset<nat>, o: nat)
    requires ConfigOk(c) && Sends(c, traffic, t, n, alone)
    ensures (if o in t.pending then 1 else 0) + (if o in t.cells && t.cells[o].boundBy.Some? then 1 else 0) + alone[o]
            == if o in t.cells && t.cells[o].entry.committed then 1 else 0
  {
    Places(c, traffic, t, n, alone, o);
  }

  lemma {:induction false} RunSends(c: Config, traffic: Traffic, t: State, n: nat)
    requires ConfigOk(c) && RunsTo(c, traffic, START, t, n)
    ensures exists alone :: Sends(c, traffic, t, n, alone)
    decreases n
  {
    hide ConfigOk, CellsOk, Step, EventOk, Allowed, StepsTo;
    if n == 0 {
      assert Sends(c, traffic, t, 0, multiset{});
    } else {
      var mid, ev :| RunsTo(c, traffic, START, mid, n - 1) && StepsTo(c, traffic, mid, ev, t);
      RunSends(c, traffic, mid, n - 1);
      var before :| Sends(c, traffic, mid, n - 1, before);
      assert Sends(c, traffic, t, n, before + SentAlone(c, mid, ev));
    }
  }
}

/** Routers, network and any number of responder calls together: the table of each
    call holds the entries AggregationSystem.dfy speaks of, and END is the call's. */
module WholeSystem {
  import opened Prelude
  import opened Reduction
  import A = AggregationSystem
  import P = ResponderModel
  import H = ResponderHistory
  import M = ResponderCallModel
  import C = ResponderCallHistory

  /** The offsets of the calls and the keys their packets carry: each call and offset
      has its own port and sequence number. */
  datatype Plan = Plan(
    agg: A.Config,
    call: nat -> M.Config,
    callOf: A.Key -> nat,
    offsetOf: A.Key -> nat,
    keyOf: (nat, nat) -> A.Key)

  ghost predicate PlanOk(p: Plan) {
    A.ConfigOk(p.agg) && (forall id: nat :: CallOk(p, id)) && forall k: A.Key :: Agrees(p, k)
  }

  ghost predicate CallOk(p: Plan, id: nat) {
    M.ConfigOk(p.call(id)) && forall o: nat :: p.callOf(p.keyOf(id, o)) == id && p.offsetOf(p.keyOf(id, o)) == o
  }

  /** A key's packets are reduced as the call it belongs to asks. */
  ghost predicate Agrees(p: Plan, k: A.Key) {
    && p.keyOf(p.callOf(k), p.offsetOf(k)) == k
    && A.CallOf(p.agg, k) == M.CallAt(p.call(p.callOf(k)), p.offsetOf(k))
    && p.agg.pull(k) == p.call(p.callOf(k)).pull && p.agg.width == p.call(p.callOf(k)).width
  }

  datatype Whole = Whole(sys: A.System, calls: map<nat, M.State>)

  ghost predicate Knows(p: Plan, calls: map<nat, M.State>, k: A.Key) {
    p.callOf(k) in calls && p.offsetOf(k) in calls[p.callOf(k)].cells
  }

  /** The entries are those in the calls' tables. */
  ghost predicate Linked(p: Plan, w: Whole) {
    && (forall k: A.Key :: k in w.sys.entries <==> Knows(p, w.calls, k))
    && (forall k: A.Key :: k in w.sys.entries && Knows(p, w.calls, k) ==>
          w.sys.entries[k] == w.calls[p.callOf(k)].cells[p.offsetOf(k)].entry)
  }

  // ------------------------------------------------------------------- steps

  /** The network and the routers move; the calls do not notice. */
  ghost predicate Travels(p: Plan, w: Whole, w': Whole)
    requires A.ConfigOk(p.agg)
  {
    && w'.calls == w.calls && w'.sys.entries == w.sys.entries
    && ( || (exists token :: A.LoseCredit(w.sys, w'.sys, token))
         || (exists k, r, id, q :: A.SendRequest(p.agg, w.sys, w'.sys, k, r, id, q))
         || (exists id :: A.LoseRequest(w.sys, w'.sys, id))
         || (exists i, k, responder :: A.RouterCredit(p.agg, w.sys, w'.sys, i, k, responder))
         || (exists i, id, bypass :: A.RouterRequest(p.agg, w.sys, w'.sys, i, id, bypass)))
  }

  ghost predicate Opens(p: Plan, w: Whole, w': Whole, id: nat) {
    id !in w.calls && w' == w.(calls := w.calls[id := M.START])
  }

  /** One call moves: its state becomes `t`, the rest of the system `s` keeps its entries. */
  ghost predicate CallMoves(w: Whole, w': Whole, id: nat, t: M.State, s: A.System) {
    id in w.calls && w'.calls == w.calls[id := t] && w'.sys == s.(entries := w'.sys.entries)
  }

  ghost predicate Issues(p: Plan, w: Whole, w': Whole, id: nat)
    requires M.ConfigOk(p.call(id))
  {
    && id in w.calls
    && var (t, credit) := M.Issue(p.call(id), w.calls[id]);
       CallMoves(w, w', id, t,
                 if credit == None then w.sys
                 else var k := p.keyOf(id, credit.value);
                      w.sys.(credits := w.sys.credits + A.Tokens(k, p.agg.requesters(k))))
  }

  /** A message of the call arrives: `ev` is what it makes of it. */
  ghost predicate Handles(p: Plan, w: Whole, w': Whole, id: nat, ev: C.Event, s: A.System)
    requires M.ConfigOk(p.call(id))
  {
    && id in w.calls && M.CellsOk(p.call(id), w.calls[id].cells) && C.EventOk(p.call(id), w.calls[id], ev)
    && CallMoves(w, w', id, C.Step(p.call(id), w.calls[id], ev), s)
  }

  ghost predicate Delivers(p: Plan, w: Whole, w': Whole, pid: nat)
    requires PlanOk(p)
  {
    && pid in w.sys.net
    && var q := w.sys.net[pid].packet;
       var k := A.KeyOf(q);
       assert CallOk(p, p.callOf(k));
       Handles(p, w, w', p.callOf(k), C.Request(p.offsetOf(k), A.ArrivalOf(q)), A.Arrive(w.sys, pid))
  }

  ghost predicate Repairs(p: Plan, w: Whole, w': Whole, k: A.Key, r: nat)
    requires PlanOk(p)
  {
    && r in p.agg.requesters(k)
    && assert CallOk(p, p.callOf(k));
       Handles(p, w, w', p.callOf(k), C.Request(p.offsetOf(k), A.RepairArrival(p.agg, k, r)),
               w.sys.(repaired := w.sys.repaired + {(k, r)}))
  }

  /** An AGG_MISS that a router reported, a timeout or a flush. */
  ghost predicate Manages(p: Plan, w: Whole, w': Whole, id: nat, ev: C.Event)
    requires M.ConfigOk(p.call(id))
  {
    && !ev.Request? && !ev.IssueCredit? && Handles(p, w, w', id, ev, w.sys)
    && (ev.AggMiss? ==> exists ranks :: A.Report(p.keyOf(id, ev.offset), ranks) in w.sys.reports)
  }

  ghost predicate Next(p: Plan, w: Whole, w': Whole)
    requires PlanOk(p)
  {
    && Linked(p, w')
    && ( || Travels(p, w, w')
         || (exists id: nat :: Opens(p, w, w', id))
         || (exists id: nat :: (assert CallOk(p, id); Issues(p, w, w', id)))
         || (exists pid :: Delivers(p, w, w', pid))
         || (exists k, r :: Repairs(p, w, w', k, r))
         || (exists id: nat, ev :: (assert CallOk(p, id); Manages(p, w, w', id, ev))))
  }

  ghost predicate Init(p: Plan, w: Whole) {
    A.Init(p.agg, w.sys) && w.calls == map[]
  }

  ghost predicate ReachedIn(p: Plan, w: Whole, n: nat)
    requires PlanOk(p)
    decreases n
  {
    if n == 0 then Init(p, w)
    else exists before :: ReachedIn(p, before, n - 1) && Next(p, before, w)
  }

  ghost predicate Reachable(p: Plan, w: Whole)
    requires PlanOk(p)
  {
    exists n: nat :: ReachedIn(p, w, n)
  }

  // --------------------------------------------------------------- invariant

  ghost predicate CallsOk(p: Plan, calls: map<nat, M.State>) {
    forall id :: id in calls ==> C.Inv(p.call(id), calls[id])
  }

  ghost predicate Inv(p: Plan, w: Whole)
    requires PlanOk(p)
  {
    A.Inv(p.agg, w.sys) && CallsOk(p, w.calls) && Linked(p, w)
  }

  lemma PlanParts(p: Plan, k: A.Key)
    requires PlanOk(p)
    ensures A.ConfigOk(p.agg) && CallOk(p, p.callOf(k)) && Agrees(p, k) && P.CallOk(A.CallOf(p.agg, k))
  {
    assert A.KeyOk(p.agg, k);
  }

  // ----------------------------------------------- what a call does to its table

  ghost function Fresh(c: M.Config, o: nat): P.Entry
    requires M.ConfigOk(c)
  {
    if c.pull then P.Reserved(M.CallAt(c, o)) else P.SelfCommitted(M.CallAt(c, o))
  }

  /** A credit adds its own entry, fresh, and leaves the others alone. */
  ghost predicate AddsFresh(c: M.Config, s: M.State, t: M.State, credit: Option<nat>)
    requires M.ConfigOk(c)
  {
    match credit
    case None => t == s
    case Some(o) =>
      && o !in s.cells && t.cells.Keys == s.cells.Keys + {o} && t.cells[o].entry == Fresh(c, o)
      && forall x :: x in s.cells ==> t.cells[x].entry == s.cells[x].entry
  }

  /** Binding a payload to a credit changes no entry. */
  lemma PiggybackEntries(c: M.Config, s: M.State, k: nat)
    requires k in s.cells && (s.pending != [] ==> s.pending[0] in s.cells)
    ensures var t := M.Piggyback(c, s, k);
      t.cells.Keys == s.cells.Keys && forall o :: o in s.cells ==> t.cells[o].entry == s.cells[o].entry
  {
  }

  lemma PullIssueEntries(c: M.Config, s: M.State)
    requires M.ConfigOk(c) && c.pull && C.TableInv(c, s.cells, s.next) && C.PendingInv(true, s.cells, s.pending)
    ensures AddsFresh(c, s, M.Issue(c, s).0, M.Issue(c, s).1)
  {
    hide M.ConfigOk, M.CellsOk, C.CellInv, M.Reserve, M.Piggyback, C.Distinct, P.Reserved;
    C.ReserveInOrder(c, s);
    var (t, credit) := M.Reserve(c, s);
    if credit.Some? {
      if s.pending != [] { assert C.Waits(s.cells, s.pending[0]); }
      PiggybackEntries(c, t, s.next);
    }
  }

  lemma PushIssueEntries(c: M.Config, s: M.State)
    requires M.ConfigOk(c) && !c.pull && C.TableInv(c, s.cells, s.next)
    ensures AddsFresh(c, s, M.Issue(c, s).0, M.Issue(c, s).1)
  {
    hide M.ConfigOk, M.CellsOk, C.CellInv, M.Reserve;
    C.ReserveInOrder(c, s);
  }

  lemma IssueEntries(c: M.Config, s: M.State)
    requires M.ConfigOk(c) && C.Inv(c, s)
    ensures AddsFresh(c, s, M.Issue(c, s).0, M.Issue(c, s).1)
  {
    hide AddsFresh, C.TableInv, C.CountInv, C.MatchingInv, M.Issue;
    if c.pull { PullIssueEntries(c, s); } else { PushIssueEntries(c, s); }
  }

  /** Managing a call changes no entry except by putting it on the repair path. */
  lemma ManageEntries(c: M.Config, s: M.State, ev: C.Event)
    requires M.ConfigOk(c) && C.Inv(c, s) && C.EventOk(c, s, ev) && !ev.Request? && !ev.IssueCredit?
    ensures var t := C.Step(c, s, ev);
      && t.cells.Keys == s.cells.Keys
      && forall o :: o in s.cells ==>
           t.cells[o].entry == s.cells[o].entry || t.cells[o].entry == P.EnterRepair(s.cells[o].entry)
  {
    hide C.CountInv, C.MatchingInv, C.PendingInv, C.CellInv, P.EnterRepair, M.CellsOk, M.Flush, M.OnTimeout,
         M.OnAggMiss;
    match ev
    case FlushPending => C.FlushSendsAllHere(c, s);
    case AggMiss(o) => MissEntries(c, s, o);
    case Timeout(due) => DueEntries(s, due);
  }

  lemma MissEntries(c: M.Config, s: M.State, o: nat)
    requires C.Inv(c, s) && o < s.next
    ensures var t := M.OnAggMiss(c, s, o);
      && t.cells.Keys == s.cells.Keys
      && forall x :: x in s.cells ==>
           t.cells[x].entry == s.cells[x].entry || t.cells[x].entry == P.EnterRepair(s.cells[x].entry)
  {
    hide C.CountInv, C.MatchingInv, C.PendingInv, C.CellInv, P.EnterRepair, M.CellsOk;
  }

  lemma DueEntries(s: M.State, due: set<nat>)
    ensures var t := M.OnTimeout(s, due);
      && t.cells.Keys == s.cells.Keys
      && forall x :: x in s.cells ==>
           t.cells[x].entry == s.cells[x].entry || t.cells[x].entry == P.EnterRepair(s.cells[x].entry)
  {
    hide P.EnterRepair;
  }

  lemma RequestEntries(c: M.Config, s: M.State, o: nat, m: P.Arrival)
    requires M.ConfigOk(c) && C.Inv(c, s) && o < s.next && |m.payload| <= c.width
    ensures o in s.cells && P.EntryOk(M.CallAt(c, o), s.cells[o].entry)
    ensures var t := M.OnRequest(c, s, o, m);
      && t.cells.Keys == s.cells.Keys
      && t.cells[o].entry == P.OnRequest(M.CallAt(c, o), s.cells[o].entry, m).entry
      && forall x :: x in s.cells && x != o ==> t.cells[x].entry == s.cells[x].entry
  {
    hide C.CountInv, C.MatchingInv, C.PendingInv, C.CellInv, P.OnRequest;
  }

  // ------------------------------------------------------ each step keeps it

  lemma TravelsKeeps(p: Plan, w: Whole, w': Whole)
    requires PlanOk(p) && Inv(p, w) && Linked(p, w') && Travels(p, w, w')
    ensures Inv(p, w')
  {
    hide PlanOk, CallsOk, Linked, A.Inv, A.ConfigOk;
    assert A.ConfigOk(p.agg) by { PlanParts(p, A.Key(0, 0)); }
    if token :| A.LoseCredit(w.sys, w'.sys, token) {
      A.LoseCreditKeepsInv(p.agg, w.sys, w'.sys, token);
    } else if k, r, id, q :| A.SendRequest(p.agg, w.sys, w'.sys, k, r, id, q) {
      A.SendKeepsInv(p.agg, w.sys, w'.sys, k, r, id, q);
    } else if id :| A.LoseRequest(w.sys, w'.sys, id) {
      A.LoseRequestKeepsInv(p.agg, w.sys, w'.sys, id);
    } else if i, k, responder :| A.RouterCredit(p.agg, w.sys, w'.sys, i, k, responder) {
      A.RouterCreditKeepsInv(p.agg, w.sys, w'.sys, i, k, responder);
    } else {
      var i, id, bypass :| A.RouterRequest(p.agg, w.sys, w'.sys, i, id, bypass);
      A.RouterRequestKeepsInv(p.agg, w.sys, w'.sys, i, id, bypass);
    }
  }

  /** The tables of two linked states say which entries differ. */
  lemma EntriesFollow(p: Plan, w: Whole, w': Whole, id: nat, k: A.Key)
    requires Linked(p, w) && Linked(p, w') && id in w.calls && id in w'.calls
    requires w'.calls == w.calls[id := w'.calls[id]]
    ensures p.callOf(k) != id ==>
              (k in w'.sys.entries <==> k in w.sys.entries)
                  && (k in w.sys.entries ==> w'.sys.entries[k] == w.sys.entries[k])
    ensures p.callOf(k) == id ==>
              && (k in w.sys.entries <==> p.offsetOf(k) in w.calls[id].cells)
              && (k in w'.sys.entries <==> p.offsetOf(k) in w'.calls[id].cells)
              && (k in w.sys.entries ==> w.sys.entries[k] == w.calls[id].cells[p.offsetOf(k)].entry)
              && (k in w'.sys.entries ==> w'.sys.entries[k] == w'.calls[id].cells[p.offsetOf(k)].entry)
  {
  }

  lemma IssuesKeeps(p: Plan, w: Whole, w': Whole, id: nat)
    requires PlanOk(p) && Inv(p, w) && Linked(p, w') && CallOk(p, id) && Issues(p, w, w', id)
    ensures Inv(p, w')
  {
    hide PlanOk, Linked, A.Inv, A.ConfigOk, C.Inv, M.Issue, M.ConfigOk, Agrees;
    var c, s := p.call(id), w.calls[id];
    C.IssueKeeps(c, s);
    IssueEntries(c, s);
    var (t, credit) := M.Issue(c, s);
    assert A.ConfigOk(p.agg) by { PlanParts(p, A.Key(0, 0)); }
    if credit == None {
      forall k ensures k in w'.sys.entries <==> k in w.sys.entries
               ensures k in w.sys.entries ==> w'.sys.entries[k] == w.sys.entries[k] { EntriesFollow(p, w, w', id, k); }
      assert w'.sys.entries == w.sys.entries;
    } else {
      var k := p.keyOf(id, credit.value);
      IssuedIs(p, id, credit.value);
      forall x ensures x in w'.sys.entries <==> x in w.sys.entries || x == k
               ensures x in w'.sys.entries ==> w'.sys.entries[x] == if x == k then A.Issued(p.agg, k)
                       else w.sys.entries[x]
      {
        EntriesFollow(p, w, w', id, x);
        SameKey(p, x, id, credit.value);
      }
      assert w'.sys.entries == w.sys.entries[k := A.Issued(p.agg, k)];
      EntriesFollow(p, w, w', id, k);
      A.IssueKeepsInv(p.agg, w.sys, w'.sys, k);
    }
  }

  lemma SameKey(p: Plan, x: A.Key, id: nat, o: nat)
    requires PlanOk(p)
    ensures x == p.keyOf(id, o) <==> p.callOf(x) == id && p.offsetOf(x) == o
  {
    assert CallOk(p, id) && Agrees(p, x);
  }

  lemma IssuedIs(p: Plan, id: nat, o: nat)
    requires PlanOk(p) && CallOk(p, id)
    ensures A.ConfigOk(p.agg) && A.Issued(p.agg, p.keyOf(id, o)) == Fresh(p.call(id), o)
  {
    hide A.ConfigOk, M.ConfigOk;
    assert Agrees(p, p.keyOf(id, o));
  }

  /** A request changes the one entry it is for. */
  lemma RequestFollows(p: Plan, w: Whole, w': Whole, k: A.Key, m: P.Arrival, s: A.System)
    requires PlanOk(p) && Inv(p, w) && Linked(p, w') && CallOk(p, p.callOf(k)) && s.entries == w.sys.entries
    requires Handles(p, w, w', p.callOf(k), C.Request(p.offsetOf(k), m), s)
    ensures A.EntryStep(p.agg, s, w'.sys, k, H.Request(m))
  {
    hide PlanOk, Linked, A.Inv, C.Inv, M.ConfigOk, P.OnRequest, A.ConfigOk, M.OnRequest;
    var id, o := p.callOf(k), p.offsetOf(k);
    PlanParts(p, k);
    RequestEntries(p.call(id), w.calls[id], o, m);
    EntriesFollow(p, w, w', id, k);
    var e' := H.Step(A.CallOf(p.agg, k), w.sys.entries[k], H.Request(m));
    forall x ensures x in w'.sys.entries <==> x in w.sys.entries
             ensures x in w'.sys.entries ==> w'.sys.entries[x] == if x == k then e' else w.sys.entries[x]
    {
      EntriesFollow(p, w, w', id, x);
      SameKey(p, x, id, o);
      SameKey(p, k, id, o);
    }
    assert w'.sys.entries == w.sys.entries[k := e'];
  }

  lemma CallKept(p: Plan, w: Whole, w': Whole, id: nat, ev: C.Event, s: A.System)
    requires CallsOk(p, w.calls) && CallOk(p, id) && Handles(p, w, w', id, ev, s)
    ensures CallsOk(p, w'.calls)
  {
    hide C.Inv, M.ConfigOk, C.Step, C.EventOk;
    C.StepKeeps(p.call(id), w.calls[id], ev);
  }

  lemma DeliversKeeps(p: Plan, w: Whole, w': Whole, pid: nat)
    requires PlanOk(p) && Inv(p, w) && Linked(p, w') && Delivers(p, w, w', pid)
    ensures Inv(p, w')
  {
    hide PlanOk, Linked, A.Inv, A.ConfigOk, CallOk, CallsOk, Handles, Agrees;
    var q := w.sys.net[pid].packet;
    var k := A.KeyOf(q);
    PlanParts(p, k);
    CallKept(p, w, w', p.callOf(k), C.Request(p.offsetOf(k), A.ArrivalOf(q)), A.Arrive(w.sys, pid));
    RequestFollows(p, w, w', k, A.ArrivalOf(q), A.Arrive(w.sys, pid));
    A.DeliverKeepsInv(p.agg, w.sys, w'.sys, pid);
  }

  lemma RepairsKeeps(p: Plan, w: Whole, w': Whole, k: A.Key, r: nat)
    requires PlanOk(p) && Inv(p, w) && Linked(p, w') && Repairs(p, w, w', k, r)
    ensures Inv(p, w')
  {
    hide PlanOk, Linked, A.Inv, A.ConfigOk, CallOk, CallsOk, Handles, Agrees;
    PlanParts(p, k);
    var s := w.sys.(repaired := w.sys.repaired + {(k, r)});
    CallKept(p, w, w', p.callOf(k), C.Request(p.offsetOf(k), A.RepairArrival(p.agg, k, r)), s);
    RequestFollows(p, w, w', k, A.RepairArrival(p.agg, k, r), s);
    A.DeliverRepairKeepsInv(p.agg, w.sys, w'.sys, k, r);
  }

  lemma ManagesKeeps(p: Plan, w: Whole, w': Whole, id: nat, ev: C.Event)
    requires PlanOk(p) && Inv(p, w) && Linked(p, w') && CallOk(p, id) && Manages(p, w, w', id, ev)
    ensures Inv(p, w')
  {
    hide PlanOk, Linked, C.Inv, M.ConfigOk, C.Step, P.EnterRepair, A.EntryExact, A.PacketInv, A.RouterInv, A.Disjoint;
    CallKept(p, w, w', id, ev, w.sys);
    ManageEntries(p.call(id), w.calls[id], ev);
    forall k | k in w'.sys.entries ensures A.EntryExact(p.agg, w'.sys, k, w'.sys.entries[k]) {
      EntriesFollow(p, w, w', id, k);
      PlanParts(p, k);
      ManagedIsExact(p, w.sys, w'.sys, k, w'.sys.entries[k]);
    }
    forall k ensures k in w.sys.entries ==> k in w'.sys.entries { EntriesFollow(p, w, w', id, k); }
    assert w.sys.entries.Keys <= w'.sys.entries.Keys;
    PlanParts(p, A.Key(0, 0));
    A.EntriesChangedOnly(p.agg, w.sys, w'.sys);
  }

  lemma ManagedIsExact(p: Plan, s: A.System, s': A.System, k: A.Key, e: P.Entry)
    requires A.ConfigOk(p.agg) && A.EntriesInv(p.agg, s) && k in s.entries
    requires s'.arrived == s.arrived && s'.repaired == s.repaired
    requires e == s.entries[k] || e == P.EnterRepair(s.entries[k])
    ensures A.EntryExact(p.agg, s', k, e)
  {
    hide P.EnterRepair;
    A.SameEntry(p.agg, s, s', k);
    A.RepairKeepsExact(p.agg, s', k, s.entries[k]);
  }

  lemma OpensKeeps(p: Plan, w: Whole, w': Whole, id: nat)
    requires PlanOk(p) && Inv(p, w) && CallOk(p, id) && Linked(p, w') && Opens(p, w, w', id)
    ensures Inv(p, w')
  {
    hide PlanOk, Linked, A.Inv, M.ConfigOk, C.Inv;
    C.StartHolds(p.call(id));
  }

  lemma NextKeeps(p: Plan, w: Whole, w': Whole)
    requires PlanOk(p) && Inv(p, w) && Next(p, w, w')
    ensures Inv(p, w')
  {
    hide Inv, Linked, Travels, Opens, Delivers, Repairs, Issues, Manages, A.ConfigOk, M.ConfigOk, Agrees;
    if Travels(p, w, w') {
      TravelsKeeps(p, w, w');
    } else if id: nat :| Opens(p, w, w', id) {
      assert CallOk(p, id);
      OpensKeeps(p, w, w', id);
    } else if pid :| Delivers(p, w, w', pid) {
      DeliversKeeps(p, w, w', pid);
    } else if k, r :| Repairs(p, w, w', k, r) {
      RepairsKeeps(p, w, w', k, r);
    } else if id: nat :| (assert CallOk(p, id); Issues(p, w, w', id)) {
      IssuesKeeps(p, w, w', id);
    } else {
      var id: nat, ev :| (assert CallOk(p, id); Manages(p, w, w', id, ev));
      ManagesKeeps(p, w, w', id, ev);
    }
  }

  lemma InitHolds(p: Plan, w: Whole)
    requires PlanOk(p) && Init(p, w)
    ensures Inv(p, w)
  {
    hide PlanOk;
    PlanParts(p, A.Key(0, 0));
    assert A.ReachedIn(p.agg, w.sys, 0);
    A.ReachedInv(p.agg, w.sys, 0);
  }

  lemma {:induction false} ReachedHolds(p: Plan, w: Whole, n: nat)
    requires PlanOk(p) && ReachedIn(p, w, n)
    ensures Inv(p, w)
    decreases n
  {
    hide PlanOk, Init, Next, Inv;
    if n == 0 {
      InitHolds(p, w);
    } else {
      var before :| ReachedIn(p, before, n - 1) && Next(p, before, w);
      ReachedHolds(p, before, n - 1);
      NextKeeps(p, before, w);
    }
  }

  /** The answer to an offset of a call in the whole system, the responder being rank `own`. */
  ghost predicate Answered(p: Plan, w: Whole, id: nat, o: nat, own: nat)
    requires PlanOk(p) && id in w.calls && o in w.calls[id].cells
  {
    PlanParts(p, p.keyOf(id, o));
    SameKey(p, p.keyOf(id, o), id, o);
    var k, e := p.keyOf(id, o), w.calls[id].cells[o].entry;
    if p.call(id).pull then
      && A.KeyOk(p.agg, k)
      && P.HoldsReduction(A.CallOf(p.agg, k), p.agg.inputs(k), p.agg.bound, own, e.result)
    else
      && P.HoldsOwn(A.CallOf(p.agg, k), e.result)
      && ( || (forall r :: r in p.agg.requesters(k) ==> w.sys.arrived[(k, r)] == 1)
           || (forall r :: r in p.agg.requesters(k) ==> (k, r) in w.sys.repaired))
  }

  /** Whatever is lost, reordered, overwritten or repaired on the way, in every state in
      which a call has sent END: each of its offsets is in its table, and, when it
      pulls, every word of it is the reduction over the requesters and the responder, each
      once; when it pushes, it holds the responder's data and has been acknowledged by
      every requester. */
  lemma EndMeansAnswered(p: Plan, w: Whole, id: nat, o: nat, own: nat)
    requires PlanOk(p) && Reachable(p, w) && id in w.calls && w.calls[id].endSent && o < p.call(id).total
    requires own !in p.agg.requesters(p.keyOf(id, o))
    ensures o in w.calls[id].cells && Answered(p, w, id, o, own)
  {
    hide PlanOk, Inv, Answered, C.Inv, A.Inv;
    var n: nat :| ReachedIn(p, w, n);
    ReachedHolds(p, w, n);
    CallsFit(p, w, id);
    C.AllDoneAtEnd(p.call(id), w.calls[id]);
    DoneIsAnswered(p, w, id, o, own);
  }

  lemma CallsFit(p: Plan, w: Whole, id: nat)
    requires PlanOk(p) && Inv(p, w) && id in w.calls
    ensures C.Inv(p.call(id), w.calls[id])
  {
    hide PlanOk, A.Inv, Linked, C.Inv;
  }

  lemma DoneIsAnswered(p: Plan, w: Whole, id: nat, o: nat, own: nat)
    requires PlanOk(p) && Inv(p, w) && id in w.calls && o in w.calls[id].cells
    requires w.calls[id].cells[o].entry.done && w.calls[id].cells[o].entry.committed
    requires own !in p.agg.requesters(p.keyOf(id, o))
    ensures Answered(p, w, id, o, own)
  {
    hide P.HoldsReduction, P.HoldsOwn;
    hide PlanOk, A.Disjoint, A.PacketInv, A.RouterInv, CallsOk, A.ConfigOk, M.ConfigOk;
    var k := p.keyOf(id, o);
    PlanParts(p, k);
    SameKey(p, k, id, o);
    assert k in w.sys.entries;
    assert A.EntryExact(p.agg, w.sys, k, w.sys.entries[k]);
    assert A.KeyOk(p.agg, k);
    A.ExactIsReduction(p.agg, w.sys, k, own, w.sys.entries[k]);
  }
}

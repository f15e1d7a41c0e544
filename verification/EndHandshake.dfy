/** The END handshake of a channel between C hosts over all its messages
    (protocol/responder.c, protocol/requester.c, protocol/host.c): END names a message
    by an 8-bit id and by its first sequence number, 24 bits of it, and an
    acknowledgement says no more. */
module EndHandshake {
  import opened Prelude
  import S = SequenceSpace
  import Q = Requester

  /** Both ends go through the same messages in order, `totals` packets each. */
  datatype Plan = Plan(requesters: nat, totals: seq<nat>)

  ghost predicate PlanOk(p: Plan) {
    p.requesters > 0 && forall k :: 0 <= k < |p.totals| ==> 0 < p.totals[k] <= S.HALF
  }

  function Start(p: Plan, n: nat): nat
    requires n <= |p.totals|
  {
    if n == 0 then 0 else Start(p, n - 1) + p.totals[n - 1]
  }

  function Epoch(p: Plan, n: nat): nat
    requires n < |p.totals|
  {
    Start(p, n) % S.SPACE
  }

  /** Ids are given out in rotation. */
  function Id(n: nat): (id: nat)
    ensures id < Q.MESSAGE_IDS
  {
    n % Q.MESSAGE_IDS
  }

  // A row of the responder's table of messages, by id.
  datatype Slot = Slot(inUse: bool, reuse: bool, epoch: nat, registered: set<nat>, acked: set<nat>)

  const BLANK: Slot := Slot(false, false, 0, {}, {})

  // A call at the responder, and the acknowledgements it has seen.
  datatype Call = Call(done: bool, acked: set<nat>, returned: bool)

  // A requester: messages submitted, calls still open, messages received in full, ENDs
  // waiting in its queue, calls that saw their END, and tombstones by id.
  datatype Side = Side(
    begun: nat, live: set<nat>, held: set<nat>, queue: set<End>, ended: set<nat>, tombs: map<nat, nat>)

  datatype End = End(id: nat, epoch: nat)

  datatype Note = Note(rank: nat, end: End)

  // Packets stay available: they may be lost, late, repeated, or left in a queue.
  datatype System = System(
    slots: seq<Slot>, calls: seq<Call>, sides: seq<Side>, registers: set<Note>, ends: set<End>, acks: set<Note>)

  datatype Event =
    | RespondOpens
    | RegisterPopped(call: nat, note: Note)
    | Finishes(call: nat, partly: bool)
    | AckPopped(call: nat, note: Note)
    | Returns(call: nat)
    | RequestOpens(rank: nat)
    | Receives(rank: nat, call: nat)
    | EndArrives(rank: nat, end: End)
    | EndPopped(rank: nat, call: nat, end: End)
    | Closes(rank: nat, call: nat)

  function Everyone(p: Plan): set<nat> {
    Range(0, p.requesters)
  }

  predicate Live(s: System, n: nat) {
    n < |s.calls| && !s.calls[n].returned
  }

  ghost predicate Shaped(p: Plan, s: System) {
    && |s.slots| == Q.MESSAGE_IDS && |s.sides| == p.requesters && |s.calls| <= |p.totals|
    && forall r :: 0 <= r < |s.sides| ==>
         && s.sides[r].begun <= |p.totals|
         && forall m :: m in s.sides[r].live ==> m < s.sides[r].begun
  }

  predicate Entombed(side: Side, end: End) {
    end.id in side.tombs && side.tombs[end.id] == end.epoch
  }

  function EndOf(p: Plan, n: nat): End
    requires n < |p.totals|
  {
    End(Id(n), Epoch(p, n))
  }

  ghost predicate Enabled(p: Plan, s: System, ev: Event)
    requires Shaped(p, s)
  {
    match ev
    case RespondOpens =>
      var n := |s.calls|;
      && n < |p.totals| && (!s.slots[Id(n)].inUse || s.slots[Id(n)].reuse)
      && (n >= Q.MESSAGE_IDS ==> s.calls[n - Q.MESSAGE_IDS].returned)
    case RegisterPopped(n, note) => Live(s, n) && note in s.registers && note.end == EndOf(p, n)
    case Finishes(n, _) => Live(s, n) && !s.calls[n].done && s.slots[Id(n)].registered == Everyone(p)
    case AckPopped(n, note) => Live(s, n) && note in s.acks && note.end.id == Id(n)
    case Returns(n) => Live(s, n) && s.calls[n].done && s.calls[n].acked == Everyone(p)
    case RequestOpens(r) =>
      && r < |s.sides| && s.sides[r].begun < |p.totals|
      && (s.sides[r].begun >= Q.MESSAGE_IDS ==> s.sides[r].begun - Q.MESSAGE_IDS !in s.sides[r].live)
    case Receives(r, n) => r < |s.sides| && n in s.sides[r].live
    case EndArrives(r, end) => r < |s.sides| && end in s.ends
    case EndPopped(r, n, end) => r < |s.sides| && n in s.sides[r].live && end in s.sides[r].queue && end.id == Id(n)
    case Closes(r, n) => r < |s.sides| && n in s.sides[r].live && n in s.sides[r].ended && n in s.sides[r].held
  }

  /** REGISTER for a message: the row is cleared if it still says another epoch. */
  function Upserted(slot: Slot, note: Note): Slot {
    var row := if slot.inUse && slot.epoch == note.end.epoch then slot else BLANK;
    row.(inUse := true, reuse := false, epoch := note.end.epoch, registered := row.registered + {note.rank})
  }

  function Step(p: Plan, s: System, ev: Event): System
    requires Shaped(p, s) && Enabled(p, s, ev)
  {
    match ev
    case RespondOpens =>
      s.(slots := s.slots[Id(|s.calls|) := BLANK.(inUse := true)], calls := s.calls + [Call(false, {}, false)])
    case RegisterPopped(n, note) =>
      s.(slots := s.slots[Id(n) := Upserted(s.slots[Id(n)], note)])
    case Finishes(n, partly) =>
      // A subchannel on which not everyone has registered yet names epoch 0.
      s.(calls := s.calls[n := s.calls[n].(done := true)],
         ends := s.ends + {EndOf(p, n)} + if partly then {End(Id(n), 0)} else {})
    case AckPopped(n, note) =>
      var slot := s.slots[Id(n)];
      if !slot.inUse || note.end.epoch != slot.epoch then s
      else
        var acked := slot.acked + {note.rank};
        s.(slots := s.slots[Id(n) := slot.(acked := acked, reuse := slot.reuse || acked == Everyone(p))],
           calls := s.calls[n := s.calls[n].(acked := acked)])
    case Returns(n) =>
      s.(calls := s.calls[n := s.calls[n].(returned := true)])
    case RequestOpens(r) =>
      var side := s.sides[r];
      s.(sides := s.sides[r := side.(begun := side.begun + 1, live := side.live + {side.begun})],
         registers := s.registers + {Note(r, EndOf(p, side.begun))})
    case Receives(r, n) =>
      s.(sides := s.sides[r := s.sides[r].(held := s.sides[r].held + {n})])
    case EndArrives(r, end) =>
      // The receiving thread answers from the tombstones, or queues the packet.
      if Entombed(s.sides[r], end) then s.(acks := s.acks + {Note(r, end)})
      else s.(sides := s.sides[r := s.sides[r].(queue := s.sides[r].queue + {end})])
    case EndPopped(r, n, end) =>
      if end == EndOf(p, n) then s.(sides := s.sides[r := s.sides[r].(ended := s.sides[r].ended + {n})])
      else if Entombed(s.sides[r], end) then s.(acks := s.acks + {Note(r, end)})
      else s
    case Closes(r, n) =>
      var side := s.sides[r];
      s.(sides := s.sides[r := side.(live := side.live - {n}, tombs := side.tombs[Id(n) := Epoch(p, n)])],
         acks := s.acks + {Note(r, EndOf(p, n))})
  }

  function Init(p: Plan): System {
    System(seq(Q.MESSAGE_IDS, _ => BLANK), [], seq(p.requesters, _ => Side(0, {}, {}, {}, {}, map[])), {}, {}, {})
  }

  ghost predicate Within(p: Plan, s: System, k: nat)
    decreases k
  {
    if k == 0 then s == Init(p)
    else exists before, ev :: Within(p, before, k - 1) && Leads(p, before, ev, s)
  }

  ghost predicate Leads(p: Plan, s: System, ev: Event, t: System) {
    Shaped(p, s) && Enabled(p, s, ev) && t == Step(p, s, ev)
  }

  ghost predicate Reachable(p: Plan, s: System) {
    exists k: nat :: Within(p, s, k)
  }

  // --------------------------------------------------------------- invariant

  /** What acknowledgements and tombstones rest on: a closed call with that name. */
  ghost predicate Witnessed(p: Plan, side: Side, end: End)
    requires side.begun <= |p.totals|
  {
    exists m: nat :: m < side.begun && m !in side.live && end == EndOf(p, m)
  }

  ghost predicate SideOk(p: Plan, side: Side) {
    && side.begun <= |p.totals|
    && (forall m :: m in side.live || m in side.held ==> m < side.begun)
    && (forall m: nat :: m < side.begun && m !in side.live ==> m in side.held)
    && (forall m: nat :: m + Q.MESSAGE_IDS < side.begun ==> m !in side.live)
    && (forall end :: Entombed(side, end) ==> Witnessed(p, side, end))
  }

  ghost predicate Inv(p: Plan, s: System) {
    && Shaped(p, s)
    && (forall r :: 0 <= r < |s.sides| ==> SideOk(p, s.sides[r]))
    && (forall a :: a in s.acks ==> a.rank < |s.sides| && Witnessed(p, s.sides[a.rank], a.end))
    && (forall m: nat :: m + Q.MESSAGE_IDS < |s.calls| ==> s.calls[m].returned)
  }

  lemma InitKeeps(p: Plan)
    ensures Inv(p, Init(p))
  {
  }

  ghost predicate WitnessesKept(p: Plan, a: Side, b: Side) {
    && a.begun <= b.begun <= |p.totals| && a.held <= b.held
    && forall m: nat :: m < a.begun && m !in a.live ==> m !in b.live
  }

  lemma WitnessKept(p: Plan, a: Side, b: Side, end: End)
    requires WitnessesKept(p, a, b) && Witnessed(p, a, end)
    ensures Witnessed(p, b, end)
  {
    var m: nat :| m < a.begun && m !in a.live && end == EndOf(p, m);
    assert m < b.begun && m !in b.live;
  }

  lemma SideKeeps(p: Plan, s: System, ev: Event, r: nat)
    requires Inv(p, s) && Enabled(p, s, ev) && r < |s.sides|
    ensures var t := Step(p, s, ev);
            |t.sides| == |s.sides| && SideOk(p, t.sides[r]) && WitnessesKept(p, s.sides[r], t.sides[r])
  {
    var a, b := s.sides[r], Step(p, s, ev).sides[r];
    assert SideOk(p, a);
    assert WitnessesKept(p, a, b);
    forall end | Entombed(b, end) ensures Witnessed(p, b, end) {
      if Entombed(a, end) {
        WitnessKept(p, a, b, end);
      } else {
        assert ev.Closes? && end == EndOf(p, ev.call);
      }
    }
  }

  lemma AcksKeep(p: Plan, s: System, ev: Event)
    requires Inv(p, s) && Enabled(p, s, ev)
    ensures var t := Step(p, s, ev);
            forall a :: a in t.acks ==>
              a.rank < |t.sides| && t.sides[a.rank].begun <= |p.totals| && Witnessed(p, t.sides[a.rank], a.end)
  {
    var t := Step(p, s, ev);
    forall a | a in t.acks
      ensures a.rank < |t.sides| && t.sides[a.rank].begun <= |p.totals| && Witnessed(p, t.sides[a.rank], a.end)
    {
      if a in s.acks || !ev.Closes? {
        SideKeeps(p, s, ev, a.rank);
        assert Witnessed(p, s.sides[a.rank], a.end);
        WitnessKept(p, s.sides[a.rank], t.sides[a.rank], a.end);
      } else {
        SideKeeps(p, s, ev, ev.rank);
        assert ev.call < t.sides[a.rank].begun && ev.call !in t.sides[a.rank].live;
      }
    }
  }

  lemma StepKeeps(p: Plan, s: System, ev: Event)
    requires Inv(p, s) && Enabled(p, s, ev)
    ensures Inv(p, Step(p, s, ev))
  {
    var t := Step(p, s, ev);
    AcksKeep(p, s, ev);
    forall r | 0 <= r < |t.sides| ensures SideOk(p, t.sides[r]) {
      SideKeeps(p, s, ev, r);
    }
  }

  // ------------------------------------------------------------------ safety

  ghost predicate Held(s: System, r: nat, n: nat) {
    r < |s.sides| && n in s.sides[r].held
  }

  /** No earlier message under the same id starts at this one's number, or at 0. */
  ghost predicate Clear(p: Plan, n: nat)
    requires n < |p.totals|
  {
    forall m: nat :: m < n && Id(m) == Id(n) ==> Epoch(p, m) != Epoch(p, n) && Epoch(p, m) != 0
  }

  /** What call `n` and its row have taken for acknowledged is held. */
  ghost predicate CallOk(p: Plan, s: System, n: nat)
    requires Shaped(p, s) && n < |p.totals|
  {
    n < |s.calls| ==>
      && (forall r :: r in s.calls[n].acked ==> Held(s, r, n))
      && (s.calls[n].returned ==> s.calls[n].acked == Everyone(p))
      && (!s.calls[n].returned ==>
            && (s.slots[Id(n)].epoch == 0 || s.slots[Id(n)].epoch == Epoch(p, n))
            && forall r :: r in s.slots[Id(n)].acked ==> Held(s, r, n))
  }

  lemma SameIdFarApart(m: nat, n: nat)
    requires m < n && Id(m) == Id(n)
    ensures m + Q.MESSAGE_IDS <= n
  {
  }

  /** Two calls under way do not share a row. */
  lemma OneCallPerId(p: Plan, s: System, m: nat, n: nat)
    requires Inv(p, s) && Live(s, m) && Live(s, n) && Id(m) == Id(n)
    ensures m == n
  {
    if m < n { SameIdFarApart(m, n); }
    if n < m { SameIdFarApart(n, m); }
  }

  lemma HeldKept(p: Plan, s: System, ev: Event, r: nat, n: nat)
    requires Inv(p, s) && Enabled(p, s, ev) && Held(s, r, n)
    ensures Held(Step(p, s, ev), r, n)
  {
    SideKeeps(p, s, ev, r);
  }

  /** The heart of the matter: an acknowledgement that fits the row of a clear message
      comes from someone who holds it, for a later message under the same id is begun
      only when the earlier one is closed. */
  lemma AckIsHonest(p: Plan, s: System, n: nat, note: Note)
    requires Inv(p, s) && n < |p.totals| && Clear(p, n) && note in s.acks && note.end.id == Id(n)
    requires note.end.epoch == 0 || note.end.epoch == Epoch(p, n)
    ensures Held(s, note.rank, n)
  {
    var side := s.sides[note.rank];
    assert SideOk(p, side);
    assert Witnessed(p, side, note.end);
    var m: nat :| m < side.begun && m !in side.live && note.end == EndOf(p, m);
    if m > n {
      SameIdFarApart(n, m);
    }
    assert m >= n;
  }

  lemma StepKeepsCall(p: Plan, s: System, ev: Event, n: nat)
    requires Inv(p, s) && Enabled(p, s, ev) && n < |p.totals| && Clear(p, n) && CallOk(p, s, n)
    ensures CallOk(p, Step(p, s, ev), n)
  {
    var t := Step(p, s, ev);
    StepKeeps(p, s, ev);
    hide Inv, Clear, Witnessed;
    if n < |t.calls| {
      forall r | Held(s, r, n) ensures Held(t, r, n) { HeldKept(p, s, ev, r, n); }
      if ev.AckPopped? && ev.note.end.epoch == s.slots[Id(n)].epoch && Id(ev.call) == Id(n) && Live(s, n) {
        OneCallPerId(p, s, ev.call, n);
        AckIsHonest(p, s, n, ev.note);
      } else if ev.RegisterPopped? && Id(ev.call) == Id(n) && Live(s, n) {
        OneCallPerId(p, s, ev.call, n);
      } else if ev.AckPopped? && Id(ev.call) == Id(n) && Live(s, n) {
        OneCallPerId(p, s, ev.call, n);
      }
    }
  }

  ghost predicate AllOk(p: Plan, s: System) {
    Inv(p, s) && forall n: nat :: n < |p.totals| && Clear(p, n) ==> CallOk(p, s, n)
  }

  lemma {:induction false} RunKeeps(p: Plan, s: System, k: nat)
    requires Within(p, s, k)
    ensures AllOk(p, s)
    decreases k
  {
    hide Inv, Clear, CallOk, Step;
    if k == 0 {
      InitKeeps(p);
      forall n: nat | n < |p.totals| ensures CallOk(p, s, n) { NoCallYet(p, n); }
    } else {
      var before, ev :| Within(p, before, k - 1) && Leads(p, before, ev, s);
      RunKeeps(p, before, k - 1);
      StepKeeps(p, before, ev);
      forall n: nat | n < |p.totals| && Clear(p, n) ensures CallOk(p, s, n) {
        StepKeepsCall(p, before, ev, n);
      }
    }
  }

  lemma NoCallYet(p: Plan, n: nat)
    requires n < |p.totals|
    ensures Inv(p, Init(p)) && CallOk(p, Init(p), n)
  {
    InitKeeps(p);
  }

  lemma ReachableInv(p: Plan, s: System)
    requires Reachable(p, s)
    ensures AllOk(p, s)
  {
    var k: nat :| Within(p, s, k);
    RunKeeps(p, s, k);
  }

  ghost predicate HeldByAll(p: Plan, s: System, n: nat) {
    forall r :: 0 <= r < p.requesters ==> Held(s, r, n)
  }

  /** A call for a clear message returns only when every requester holds the message. */
  lemma ReturnedIsHeld(p: Plan, s: System, n: nat)
    requires Reachable(p, s) && n < |s.calls| && s.calls[n].returned
    ensures n < |p.totals| && (Clear(p, n) ==> HeldByAll(p, s, n))
  {
    ReachableInv(p, s);
    if Clear(p, n) {
      assert CallOk(p, s, n);
      forall r | 0 <= r < p.requesters ensures Held(s, r, n) { assert r in Everyone(p); }
    }
  }

  // ------------------------------------------------- END and its tombstones

  /** What waits at a requester was sent, and so was the END of every message it takes as
      ended. */
  ghost predicate EndsOk(p: Plan, s: System) {
    && Shaped(p, s)
    && forall r :: 0 <= r < |s.sides| ==>
         && s.sides[r].queue <= s.ends
         && forall n :: n in s.sides[r].ended ==> n < |p.totals| && EndOf(p, n) in s.ends
  }

  lemma StepKeepsEnds(p: Plan, s: System, ev: Event)
    requires Inv(p, s) && EndsOk(p, s) && Enabled(p, s, ev)
    ensures EndsOk(p, Step(p, s, ev))
  {
    StepKeeps(p, s, ev);
    hide Inv, SideOk;
    var t := Step(p, s, ev);
    forall r | 0 <= r < |t.sides|
      ensures t.sides[r].queue <= t.ends
      ensures forall n :: n in t.sides[r].ended ==> n < |p.totals| && EndOf(p, n) in t.ends
    {
      assert s.sides[r].queue <= s.ends;
    }
  }

  lemma {:induction false} RunKeepsEnds(p: Plan, s: System, k: nat)
    requires Within(p, s, k)
    ensures EndsOk(p, s) && Inv(p, s)
    decreases k
  {
    hide Inv, Step, EndsOk;
    if k == 0 {
      InitKeeps(p);
      InitEnds(p);
    } else {
      var before, ev :| Within(p, before, k - 1) && Leads(p, before, ev, s);
      RunKeepsEnds(p, before, k - 1);
      StepKeepsEnds(p, before, ev);
      StepKeeps(p, before, ev);
    }
  }

  lemma InitEnds(p: Plan)
    ensures EndsOk(p, Init(p))
  {
  }

  /** Over every run a requester takes a message as ended only if END was sent with both its
      id and its first sequence number. */
  lemma EndedMeansSent(p: Plan, s: System, r: nat, n: nat)
    requires Reachable(p, s) && r < |s.sides| && n in s.sides[r].ended
    ensures n < |p.totals| && End(Id(n), Epoch(p, n)) in s.ends
  {
    hide Inv, Within;
    var k: nat :| Within(p, s, k);
    RunKeepsEnds(p, s, k);
  }

  /** A lost END_ACK is made good: END of a message whose tombstone still stands is
      acknowledged whenever it comes again, by the receiving thread or by a later call, and
      does nothing else. */
  lemma TombstoneAnswers(p: Plan, s: System, ev: Event)
    requires Shaped(p, s) && Enabled(p, s, ev)
    requires ev.EndArrives? || (ev.EndPopped? && ev.end != EndOf(p, ev.call))
    requires Entombed(s.sides[ev.rank], ev.end)
    ensures Step(p, s, ev) == s.(acks := s.acks + {Note(ev.rank, ev.end)})
  {
  }

  // ----------------------------------------------------------- honest runs

  lemma Then(p: Plan, s: System, ev: Event)
    requires Reachable(p, s) && Shaped(p, s) && Enabled(p, s, ev)
    ensures Reachable(p, Step(p, s, ev)) && Shaped(p, Step(p, s, ev))
  {
    var k: nat :| Within(p, s, k);
    assert Leads(p, s, ev, Step(p, s, ev));
    var next := k + 1;
    assert Within(p, Step(p, s, ev), next);
    ReachableInv(p, s);
    StepKeeps(p, s, ev);
  }

  function Begun(side: Side, n: nat): Side {
    side.(begun := n + 1, live := side.live + {n})
  }

  /** Every requester submits message `n` and the responder hears of it. */
  lemma OpenAll(p: Plan, s: System, n: nat) returns (t: System)
    requires Reachable(p, s) && Shaped(p, s) && p.requesters > 0 && Live(s, n) && n < |p.totals|
    requires s.slots[Id(n)].registered == {}
    requires s.slots[Id(n)].inUse
    requires forall r :: 0 <= r < p.requesters ==> s.sides[r].begun == n && s.sides[r].live == {}
    ensures Reachable(p, t) && Shaped(p, t)
    ensures t == s.(slots := t.slots, sides := t.sides, registers := t.registers)
    ensures forall r :: 0 <= r < p.requesters ==> t.sides[r] == Begun(s.sides[r], n)
    ensures t.slots == s.slots[Id(n) := t.slots[Id(n)]]
    ensures t.slots[Id(n)] == Slot(true, false, Epoch(p, n), Everyone(p),
                                   if s.slots[Id(n)].epoch == Epoch(p, n) then s.slots[Id(n)].acked else {})
  {
    t := s;
    var i := 0;
    while i < p.requesters
      invariant 0 <= i <= p.requesters
      invariant Reachable(p, t) && Shaped(p, t)
      invariant t == s.(slots := t.slots, sides := t.sides, registers := t.registers)
      invariant forall r :: 0 <= r < p.requesters ==> t.sides[r] == if r < i then Begun(s.sides[r], n) else s.sides[r]
      invariant t.slots == s.slots[Id(n) := t.slots[Id(n)]]
      invariant t.slots[Id(n)] == if i == 0 then s.slots[Id(n)] else
                Slot(true, false, Epoch(p, n), Range(0, i),
                     if s.slots[Id(n)].epoch == Epoch(p, n) then s.slots[Id(n)].acked else {})
    {
      var opens, registers := RequestOpens(i), RegisterPopped(n, Note(i, EndOf(p, n)));
      Then(p, t, opens);
      var u := Step(p, t, opens);
      Then(p, u, registers);
      assert Range(0, i + 1) == Range(0, i) + {i};
      t := Step(p, u, registers);
      i := i + 1;
    }
  }

  /** Call `n` and its row after the acknowledgements of the first `i` requesters. */
  function Taken(p: Plan, s: System, n: nat, i: nat): System
    requires n < |s.calls| && |s.slots| == Q.MESSAGE_IDS
  {
    var row := s.slots[Id(n)];
    s.(slots := s.slots[Id(n) := row.(acked := Range(0, i), reuse := row.reuse || i == p.requesters)],
       calls := s.calls[n := s.calls[n].(acked := Range(0, i))])
  }

  lemma TakeOne(p: Plan, s: System, n: nat, end: End, i: nat)
    requires Shaped(p, s) && Live(s, n) && n < |p.totals| && s.slots[Id(n)].inUse && i < p.requesters
    requires end == End(Id(n), s.slots[Id(n)].epoch) && Note(i, end) in s.acks
    requires Reachable(p, Taken(p, s, n, i)) && Shaped(p, Taken(p, s, n, i))
    ensures Reachable(p, Taken(p, s, n, i + 1)) && Shaped(p, Taken(p, s, n, i + 1))
  {
    assert Range(0, i + 1) == Range(0, i) + {i};
    assert i + 1 < p.requesters ==> i + 1 in Everyone(p) && i + 1 !in Range(0, i + 1);
    var pops := AckPopped(n, Note(i, end));
    Then(p, Taken(p, s, n, i), pops);
    var t, u := Step(p, Taken(p, s, n, i), pops), Taken(p, s, n, i + 1);
    assert t.slots == u.slots && t.calls == u.calls;
  }

  lemma TakeNone(p: Plan, s: System, n: nat)
    requires p.requesters > 0 && n < |s.calls| && |s.slots| == Q.MESSAGE_IDS
    requires s.slots[Id(n)].acked == {} && s.calls[n].acked == {}
    ensures Taken(p, s, n, 0) == s
  {
    var t := Taken(p, s, n, 0);
    assert t.slots == s.slots && t.calls == s.calls;
  }

  /** A row takes the acknowledgements that lie around. */
  lemma AckAll(p: Plan, s: System, n: nat, end: End) returns (t: System)
    requires Reachable(p, s) && Shaped(p, s) && p.requesters > 0 && Live(s, n) && n < |p.totals|
    requires s.slots[Id(n)].inUse && s.slots[Id(n)].acked == {} && s.calls[n].acked == {}
    requires end == End(Id(n), s.slots[Id(n)].epoch)
    requires forall r: nat :: r < p.requesters ==> Note(r, end) in s.acks
    ensures Reachable(p, t) && Shaped(p, t) && t == Taken(p, s, n, p.requesters)
  {
    hide Taken, Reachable;
    t := s;
    TakeNone(p, s, n);
    var i := 0;
    while i < p.requesters
      invariant 0 <= i <= p.requesters
      invariant Reachable(p, t) && Shaped(p, t) && t == Taken(p, s, n, i)
    {
      TakeOne(p, s, n, end, i);
      i := i + 1;
      t := Taken(p, s, n, i);
    }
  }

  /** A requester receives the message and its END, and its call returns. */
  lemma AnswerOne(p: Plan, s: System, n: nat, r: nat) returns (t: System)
    requires Reachable(p, s) && Shaped(p, s) && n < |p.totals| && r < p.requesters
    requires n in s.sides[r].live && EndOf(p, n) in s.ends && !Entombed(s.sides[r], EndOf(p, n))
    ensures Reachable(p, t) && Shaped(p, t)
    ensures t == s.(sides := s.sides[r := t.sides[r]], acks := s.acks + {Note(r, EndOf(p, n))})
    ensures t.sides[r].begun == s.sides[r].begun && t.sides[r].live == s.sides[r].live - {n}
    ensures t.sides[r].tombs == s.sides[r].tombs[Id(n) := Epoch(p, n)]
  {
    var arrives, pops := EndArrives(r, EndOf(p, n)), EndPopped(r, n, EndOf(p, n));
    var receives, closes := Receives(r, n), Closes(r, n);
    Then(p, s, arrives);
    var s1 := Step(p, s, arrives);
    Then(p, s1, pops);
    var s2 := Step(p, s1, pops);
    Then(p, s2, receives);
    var s3 := Step(p, s2, receives);
    Then(p, s3, closes);
    t := Step(p, s3, closes);
  }

  lemma AnswerAll(p: Plan, s: System, n: nat) returns (t: System)
    requires Reachable(p, s) && Shaped(p, s) && n < |p.totals| && EndOf(p, n) in s.ends
    requires forall r :: 0 <= r < p.requesters ==>
               s.sides[r].begun == n + 1 && s.sides[r].live == {n} && !Entombed(s.sides[r], EndOf(p, n))
    ensures Reachable(p, t) && Shaped(p, t)
    ensures t == s.(sides := t.sides, acks := t.acks) && s.acks <= t.acks
    ensures forall r: nat :: r < p.requesters ==>
              && t.sides[r].begun == n + 1 && t.sides[r].live == {} && Note(r, EndOf(p, n)) in t.acks
              && t.sides[r].tombs == s.sides[r].tombs[Id(n) := Epoch(p, n)]
  {
    t := s;
    var i := 0;
    while i < p.requesters
      invariant 0 <= i <= p.requesters
      invariant Reachable(p, t) && Shaped(p, t)
      invariant t == s.(sides := t.sides, acks := t.acks) && s.acks <= t.acks
      invariant forall r: nat :: r < i ==>
                  && t.sides[r].begun == n + 1 && t.sides[r].live == {} && Note(r, EndOf(p, n)) in t.acks
                  && t.sides[r].tombs == s.sides[r].tombs[Id(n) := Epoch(p, n)]
      invariant forall r: nat :: i <= r < p.requesters ==> t.sides[r] == s.sides[r]
    {
      t := AnswerOne(p, t, n, i);
      i := i + 1;
    }
  }

  /** Messages 0..n-1 are over, and their acknowledgements may turn up again. */
  ghost predicate Quiet(p: Plan, s: System, n: nat)
    requires Shaped(p, s) && n <= |p.totals|
  {
    && |s.calls| == n && (forall m :: 0 <= m < n ==> s.calls[m].returned)
    && (forall id :: 0 <= id < Q.MESSAGE_IDS && s.slots[id].inUse ==> s.slots[id].reuse)
    && (forall r: nat, m: nat :: r < p.requesters && m < n ==> Note(r, EndOf(p, m)) in s.acks)
    && forall r: nat :: r < p.requesters ==> AtRest(p, s.sides[r], n)
  }

  /** Each id's tombstone is that of the last message under it. */
  ghost predicate AtRest(p: Plan, side: Side, n: nat)
    requires n <= |p.totals|
  {
    && side.begun == n && side.live == {}
    && (forall id :: id in side.tombs ==> id < n)
    && forall m: nat :: m < n <= m + Q.MESSAGE_IDS ==> Entombed(side, EndOf(p, m))
  }

  /** The message before it under its id does not start at its number. */
  ghost predicate Fresh(p: Plan, n: nat)
    requires n < |p.totals|
  {
    n >= Q.MESSAGE_IDS ==> Epoch(p, n - Q.MESSAGE_IDS) != Epoch(p, n)
  }

  lemma RestIsIdle(p: Plan, s: System, n: nat)
    requires Shaped(p, s) && n <= |p.totals| && Quiet(p, s, n)
    ensures forall r: nat :: r < p.requesters ==> s.sides[r].begun == n && s.sides[r].live == {}
  {
  }

  lemma RestIsFresh(p: Plan, side: Side, n: nat)
    requires n < |p.totals| && AtRest(p, side, n) && Fresh(p, n)
    ensures !Entombed(side, EndOf(p, n))
  {
    if n >= Q.MESSAGE_IDS {
      var m: nat := n - Q.MESSAGE_IDS;
      assert Entombed(side, EndOf(p, m)) && Id(m) == Id(n);
    }
  }

  lemma RestNext(p: Plan, side: Side, t: Side, n: nat)
    requires n < |p.totals| && AtRest(p, side, n)
    requires t.begun == n + 1 && t.live == {} && t.tombs == side.tombs[Id(n) := Epoch(p, n)]
    ensures AtRest(p, t, n + 1)
  {
    forall m: nat | m < n + 1 <= m + Q.MESSAGE_IDS ensures Entombed(t, EndOf(p, m)) {
      if m < n {
        assert Entombed(side, EndOf(p, m));
        if Id(m) == Id(n) { SameIdFarApart(m, n); }
      }
    }
  }

  lemma OpenNext(p: Plan, s: System, n: nat) returns (t: System)
    requires Reachable(p, s) && Shaped(p, s) && n < |p.totals| && Quiet(p, s, n)
    ensures Reachable(p, t) && Shaped(p, t) && Live(t, n)
    ensures t == s.(slots := s.slots[Id(n) := BLANK.(inUse := true)], calls := s.calls + [Call(false, {}, false)])
  {
    Then(p, s, RespondOpens);
    t := Step(p, s, RespondOpens);
  }

  lemma FinishNext(p: Plan, s: System, n: nat) returns (t: System)
    requires Reachable(p, s) && Shaped(p, s) && n < |p.totals| && Live(s, n) && !s.calls[n].done
    requires s.slots[Id(n)].registered == Everyone(p)
    ensures Reachable(p, t) && Shaped(p, t)
    ensures t == s.(calls := s.calls[n := s.calls[n].(done := true)], ends := s.ends + {EndOf(p, n)})
  {
    Then(p, s, Finishes(n, false));
    t := Step(p, s, Finishes(n, false));
    assert t.ends == s.ends + {EndOf(p, n)};
  }

  lemma ReturnNext(p: Plan, s: System, n: nat) returns (t: System)
    requires Reachable(p, s) && Shaped(p, s) && Live(s, n) && s.calls[n].done && s.calls[n].acked == Everyone(p)
    ensures Reachable(p, t) && Shaped(p, t)
    ensures t == s.(calls := s.calls[n := s.calls[n].(returned := true)])
  {
    Then(p, s, Returns(n));
    t := Step(p, s, Returns(n));
  }

  lemma QuietNext(p: Plan, s: System, n: nat) returns (t: System)
    requires PlanOk(p) && Reachable(p, s) && Shaped(p, s) && n < |p.totals| && Quiet(p, s, n) && Fresh(p, n)
    ensures Reachable(p, t) && Shaped(p, t) && Quiet(p, t, n + 1)
  {
    hide Reachable, AtRest, Fresh, Epoch;
    var s1 := OpenNext(p, s, n);
    assert forall r: nat :: r < p.requesters ==> s.sides[r].begun == n && s.sides[r].live == {} by {
      RestIsIdle(p, s, n);
    }
    var s2 := OpenAll(p, s1, n);
    var s3 := FinishNext(p, s2, n);
    forall r: nat | r < p.requesters ensures !Entombed(s3.sides[r], EndOf(p, n)) {
      RestIsFresh(p, s.sides[r], n);
    }
    var s4 := AnswerAll(p, s3, n);
    var s5 := AckAll(p, s4, n, EndOf(p, n));
    t := ReturnNext(p, s5, n);
    forall r: nat | r < p.requesters ensures AtRest(p, t.sides[r], n + 1) {
      RestNext(p, s.sides[r], t.sides[r], n);
    }
  }

  lemma {:induction false} QuietRun(p: Plan, n: nat) returns (s: System)
    requires PlanOk(p) && n <= |p.totals| && forall k: nat :: k < n ==> Fresh(p, k)
    ensures Reachable(p, s) && Shaped(p, s) && Quiet(p, s, n)
  {
    if n == 0 {
      s := Init(p);
      assert Within(p, s, 0);
    } else {
      var before := QuietRun(p, n - 1);
      s := QuietNext(p, before, n - 1);
    }
  }

  /** A call for a message that is not clear may return with nobody holding it. */
  lemma ReturnsEarly(p: Plan, n: nat, m: nat) returns (t: System)
    requires PlanOk(p) && n < |p.totals| && forall k: nat :: k < n ==> Fresh(p, k)
    requires m < n && Id(m) == Id(n) && (Epoch(p, m) == 0 || Epoch(p, m) == Epoch(p, n))
    ensures Reachable(p, t) && Shaped(p, t) && n < |t.calls| && t.calls[n].returned
    ensures forall r :: !Held(t, r, n)
  {
    var s := QuietRun(p, n);
    ReachableInv(p, s);
    assert forall r :: 0 <= r < |s.sides| ==> SideOk(p, s.sides[r]);
    var s1 := OpenNext(p, s, n);
    var s2;
    if Epoch(p, m) == 0 {
      var early := AckAll(p, s1, n, EndOf(p, m));
      s2 := OpenAll(p, early, n);
    } else {
      var late := OpenAll(p, s1, n);
      s2 := AckAll(p, late, n, EndOf(p, m));
    }
    var s3 := FinishNext(p, s2, n);
    t := ReturnNext(p, s3, n);
  }

  /** END safety, exactly: as long as each id's messages before start at different numbers
      than the one before them, the calls for a message always return with every
      requester holding it, if and only if the message is clear. */
  lemma ReturnMeansHeldIff(p: Plan, n: nat)
    requires PlanOk(p) && n < |p.totals| && forall k: nat :: k < n ==> Fresh(p, k)
    ensures Clear(p, n) <==> forall s :: Reachable(p, s) && n < |s.calls| && s.calls[n].returned ==> HeldByAll(p, s, n)
  {
    if Clear(p, n) {
      forall s | Reachable(p, s) && n < |s.calls| && s.calls[n].returned ensures HeldByAll(p, s, n) {
        ReturnedIsHeld(p, s, n);
      }
    } else {
      var m: nat :| m < n && Id(m) == Id(n) && (Epoch(p, m) == 0 || Epoch(p, m) == Epoch(p, n));
      var t := ReturnsEarly(p, n, m);
      assert !Held(t, 0, n);
      assert !HeldByAll(p, t, n);
    }
  }

  // ------------------------------------------------- before the numbers wrap

  lemma {:induction false} StartsGrow(p: Plan, m: nat, n: nat)
    requires PlanOk(p) && m < n <= |p.totals|
    ensures Start(p, m) < Start(p, n)
  {
    if m < n - 1 { StartsGrow(p, m, n - 1); }
  }

  lemma EpochIsStart(p: Plan, m: nat, n: nat)
    requires PlanOk(p) && m <= n < |p.totals| && Start(p, n) < S.SPACE
    ensures Epoch(p, m) == Start(p, m) && (m < n ==> Epoch(p, m) < Start(p, n)) && (m > 0 ==> Epoch(p, m) > 0)
  {
    if m < n { StartsGrow(p, m, n); }
    if m > 0 { StartsGrow(p, 0, m); }
  }

  /** Message 0 starts at 0, so until the numbers wrap the messages that are not clear are
      those that take its id again. */
  lemma ClearBeforeWrap(p: Plan, n: nat)
    requires PlanOk(p) && n < |p.totals| && Start(p, n) < S.SPACE
    ensures forall k: nat :: k <= n ==> Fresh(p, k)
    ensures Clear(p, n) <==> n == 0 || Id(n) != 0
  {
    hide Start, Epoch;
    forall k: nat | k <= n ensures Fresh(p, k) {
      EpochIsStart(p, k, n);
      if k >= Q.MESSAGE_IDS {
        EpochIsStart(p, k - Q.MESSAGE_IDS, k);
      }
    }
    EpochIsStart(p, n, n);
    forall m: nat | m < n && m > 0 ensures 0 < Epoch(p, m) < Epoch(p, n) {
      EpochIsStart(p, m, n);
    }
    MessageZero(p);
  }

  lemma MessageZero(p: Plan)
    requires |p.totals| > 0
    ensures Id(0) == 0 && Epoch(p, 0) == 0
  {
  }

  /** END safety on a whole channel: it holds exactly if the channel carries at most as
      many messages as there are ids. */
  lemma ChannelIsSafeIff(p: Plan)
    requires PlanOk(p)
    ensures |p.totals| <= Q.MESSAGE_IDS <==>
            forall s, n: nat :: Reachable(p, s) && n < |s.calls| && s.calls[n].returned ==> HeldByAll(p, s, n)
  {
    if |p.totals| <= Q.MESSAGE_IDS {
      forall s, n: nat | Reachable(p, s) && n < |s.calls| && s.calls[n].returned ensures HeldByAll(p, s, n) {
        ReturnedIsHeld(p, s, n);
        assert Clear(p, n) by {
          forall m: nat | m < n && Id(m) == Id(n) ensures false { SameIdFarApart(m, n); }
        }
      }
    } else {
      var n := Q.MESSAGE_IDS;
      assert Id(0) == Id(n) && Epoch(p, 0) == 0;
      var t := ReturnsEarly(p, n, 0);
      assert !Held(t, 0, n);
      assert !HeldByAll(p, t, n);
    }
  }
}

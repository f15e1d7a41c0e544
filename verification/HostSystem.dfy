/** One responder and its requesters over a network that loses, duplicates and
    reorders: everything ever sent may arrive at any time, any number of times. */
module HostSystem {
  import opened Prelude
  import opened HostModel
  import opened HostPlan
  import opened HostCounting
  import opened HostResponderInvariant
  import opened HostGlobal
  import Requester = HostRequesterInvariant

  datatype System = System(resp: Resp, reqs: seq<Req>)

  function Initial(env: Env): System {
    System(InitialResp(env), seq(env.n, _ => INITIAL_REQ))
  }

  datatype Event =
    // the applications submit the next message of the plan
    | SubmitAtResponder
    | SubmitAtRequester(rank: nat)
    // packets reach the responder
    | RegisterArrives(rank: nat, start: nat, sub: nat, picks: seq<nat>)
    | MasterArrives(offset: nat, contributors: set<nat>, choice: Picks)
    | InputArrives(rank: nat, offset: nat, repair: bool, choice: Picks)
    | AggMissArrives(offset: nat, funded: bool)
    | EndAckArrives(rank: nat, start: nat)
    // responder timers
    | IssueTimer(picks: seq<nat>)
    | CreditTimer(offset: nat, funded: bool)
    | EndTimer(start: nat, budget: nat)
    // requester side
    | DownArrives(rank: nat, packet: Down)
    | BeaconTick(rank: nat, start: nat, sub: nat)

  /** Which normal requests the switches let through alone: with one requester every
      fan-in is 1, and without control aggregation the header-only acknowledgements of a
      push message are passed on one by one. */
  ghost predicate LoneAllowed(env: Env, s: Resp, k: nat) {
    env.n == 1
    || (!env.controlAggregation && FindMessage(s.messages, k).Some?
        && !s.messages[FindMessage(s.messages, k).value].pull)
  }

  /** A master of `contributors` may arrive if each of them asked through the
      aggregation path; that its count is their number is proved in
      AggregationSystem.dfy, for data and for header-only acknowledgements. */
  ghost predicate Enabled(env: Env, s: System, ev: Event)
    requires |s.reqs| == env.n
  {
    match ev
    case SubmitAtResponder => s.resp.submitted < |env.plan|
    case SubmitAtRequester(rank) => rank < env.n && s.reqs[rank].submitted < |env.plan|
    case RegisterArrives(rank, start, sub, picks) =>
      rank < env.n && Register(start, sub) in s.reqs[rank].sent
      && Issuable(env, RecordRegister(env, s.resp, start, sub, rank), picks)
    case MasterArrives(offset, contributors, choice) =>
      contributors != {} && (forall r :: r in contributors ==> r < env.n && NormalRequest(offset) in s.reqs[r].sent)
      && RequestOk(env, s.resp, offset, Switches(|contributors|), choice)
    case InputArrives(rank, offset, repair, choice) =>
      rank < env.n
      && (if repair then RepairRequest(offset) in s.reqs[rank].sent
          else LoneAllowed(env, s.resp, offset) && NormalRequest(offset) in s.reqs[rank].sent)
      && RequestOk(env, s.resp, offset, Single(rank, repair), choice)
    case AggMissArrives(offset, funded) => true
    case EndAckArrives(rank, start) => rank < env.n && EndAck(start) in s.reqs[rank].sent
    case IssueTimer(picks) => Issuable(env, s.resp, picks)
    case CreditTimer(offset, funded) => true
    case EndTimer(start, budget) => true
    case DownArrives(rank, packet) => rank < env.n && packet in s.resp.sent
    case BeaconTick(rank, start, sub) => rank < env.n
  }

  ghost function Receive(q: Req, d: Down): Req {
    match d
    case Response(_, _, _, _) => OnResponse(q, d)
    case RegisterAck(start, sub) => OnRegisterAck(q, start, sub)
    case End(start, id) => OnEnd(q, start, id)
  }

  ghost function AtRequester(env: Env, q: Req, ev: Event): Req
    requires ev.SubmitAtRequester? ==> q.submitted < |env.plan|
  {
    match ev
    case SubmitAtRequester(_) => SubmitReq(env, q)
    case DownArrives(_, packet) => Receive(q, packet)
    case BeaconTick(_, start, sub) => SendRegister(q, start, sub)
    case _ => q
  }

  ghost function AtResponder(env: Env, s: System, ev: Event): Resp
    requires |s.reqs| == env.n && Enabled(env, s, ev)
  {
    match ev
    case SubmitAtResponder => SubmitResp(env, s.resp)
    case RegisterArrives(rank, start, sub, picks) => IssueAll(env, RecordRegister(env, s.resp, start, sub, rank), picks)
    case MasterArrives(offset, contributors, choice) => OnRequest(env, s.resp, offset, Switches(|contributors|), choice)
    case InputArrives(rank, offset, repair, choice) => OnRequest(env, s.resp, offset, Single(rank, repair), choice)
    case AggMissArrives(offset, funded) => OnAggMiss(s.resp, offset, funded)
    case EndAckArrives(rank, start) => OnEndAck(env, s.resp, start, rank)
    case IssueTimer(picks) => IssueAll(env, s.resp, picks)
    case CreditTimer(offset, funded) => OnCreditTimeout(s.resp, offset, funded)
    case EndTimer(start, budget) => OnEndTimeout(s.resp, start, budget)
    case _ => s.resp
  }

  predicate RequesterSide(ev: Event) {
    ev.SubmitAtRequester? || ev.DownArrives? || ev.BeaconTick?
  }

  ghost function Step(env: Env, s: System, ev: Event): (t: System)
    requires |s.reqs| == env.n && Enabled(env, s, ev)
    ensures |t.reqs| == env.n
  {
    if RequesterSide(ev) then s.(reqs := s.reqs[ev.rank := AtRequester(env, s.reqs[ev.rank], ev)])
    else s.(resp := AtResponder(env, s, ev))
  }

  ghost predicate Runs(env: Env, s: System, evs: seq<Event>)
    requires |s.reqs| == env.n
    decreases |evs|
  {
    evs == [] || (Enabled(env, s, evs[0]) && Runs(env, Step(env, s, evs[0]), evs[1..]))
  }

  ghost function RunFrom(env: Env, s: System, evs: seq<Event>): (t: System)
    requires |s.reqs| == env.n && Runs(env, s, evs)
    ensures |t.reqs| == env.n
    decreases |evs|
  {
    if evs == [] then s else RunFrom(env, Step(env, s, evs[0]), evs[1..])
  }

  // ------------------------------------------------------------ the invariant

  ghost predicate ReqsInv(env: Env, reqs: seq<Req>) {
    forall r :: 0 <= r < |reqs| ==> Requester.ReqInv(env, reqs[r])
  }

  ghost predicate SystemInv(env: Env, s: System) {
    Inv(env, s.resp, s.reqs) && s.resp.pending == [] && ReqsInv(env, s.reqs)
  }

  lemma InitialInv(env: Env)
    requires EnvOk(env)
    ensures SystemInv(env, Initial(env))
  {
    InitialRespInv(env);
  }

  // ------------------------------------------------ requester steps keep it

  lemma AtRequesterKeeps(env: Env, s: System, ev: Event)
    requires SystemInv(env, s) && |s.reqs| == env.n && Enabled(env, s, ev) && RequesterSide(ev)
    ensures Requester.ReqInv(env, AtRequester(env, s.reqs[ev.rank], ev))
  {
    hide RespInv, SentInv, RequestsInv, MarksInv, GateInv, AckInv, FinishedInv, Requester.ReqInv;
    var q := s.reqs[ev.rank];
    match ev {
      case SubmitAtRequester(_) => Requester.SubmitKeeps(env, q);
      case BeaconTick(_, start, sub) => Requester.SendRegisterKeeps(env, q, start, sub);
      case DownArrives(rank, d) =>
        match d {
          case Response(_, _, _, _) =>
            DownBelowCursor(s, d, rank);
            Requester.OnResponseKeeps(env, q, d);
          case RegisterAck(start, sub) => Requester.OnRegisterAckKeeps(env, q, start, sub);
          case End(start, id) => Requester.OnEndKeeps(env, q, start, id);
        }
    }
  }

  /** Nothing on its way to a requester is ahead of what that requester has submitted. */
  lemma DownBelowCursor(s: System, d: Down, rank: nat)
    requires GlobalInv(s.resp, s.reqs) && d in s.resp.sent && d.Response? && rank < |s.reqs|
    ensures d.payload.Some? ==> d.payload.value < s.reqs[rank].nextSeq
    ensures d.credit.Some? ==> d.credit.value < s.reqs[rank].nextSeq
  {
    hide RequestsInv, MarksInv, GateInv, AckInv, FinishedInv, Carries;
    assert GoodDown(d, s.resp.creditNext, s.resp.binding, s.reqs);
  }

  ghost predicate GrownOne(q: Req, q': Req) {
    q.held <= q'.held && q.submitted <= q'.submitted && q.nextSeq <= q'.nextSeq
  }

  /** A requester step gains, and asks only for the credit of the response it received. */
  lemma AtRequesterGrows(env: Env, s: System, ev: Event)
    requires SystemInv(env, s) && |s.reqs| == env.n && Enabled(env, s, ev) && RequesterSide(ev)
    ensures var q, q' := s.reqs[ev.rank], AtRequester(env, s.reqs[ev.rank], ev);
            && GrownOne(q, q')
            && (forall k: nat :: Asked(q', k) && !Asked(q, k) ==>
                  ev.DownArrives? && ev.packet.Response? && ev.packet.credit == Some(k)
                  && (ev.packet.payload.Some? ==> ev.packet.payload.value in q'.held))
  {
    hide RespInv, SentInv, RequestsInv, MarksInv, GateInv, AckInv, FinishedInv, Requester.ReqInv;
    var q := s.reqs[ev.rank];
    if ev.DownArrives? && ev.packet.Response? {
      hide OnResponse;
      DownBelowCursor(s, ev.packet, ev.rank);
      Requester.OnResponseHolds(env, q, ev.packet);
    }
  }

  /** A newly asked credit was issued, and the payload bound to it is held first. */
  lemma NewRequestIsGood(env: Env, s: System, ev: Event, k: nat)
    requires SystemInv(env, s) && |s.reqs| == env.n && Enabled(env, s, ev) && RequesterSide(ev)
    requires Asked(AtRequester(env, s.reqs[ev.rank], ev), k) && !Asked(s.reqs[ev.rank], k)
    ensures k < s.resp.creditNext && Took(AtRequester(env, s.reqs[ev.rank], ev), s.resp.binding, k)
  {
    hide RespInv, RequestsInv, MarksInv, GateInv, CursorInv, AckInv, FinishedInv, ReqsInv, AtRequester, Asked;
    AtRequesterGrows(env, s, ev);
    assert GoodDown(ev.packet, s.resp.creditNext, s.resp.binding, s.reqs);
  }

  lemma RequesterStepKeeps(env: Env, s: System, ev: Event)
    requires SystemInv(env, s) && |s.reqs| == env.n && Enabled(env, s, ev) && RequesterSide(ev)
    ensures SystemInv(env, Step(env, s, ev))
  {
    hide Inv, Requester.ReqInv, AtRequester, Asked, Took;
    var t := Step(env, s, ev);
    AtRequesterKeeps(env, s, ev);
    AtRequesterGrows(env, s, ev);
    forall r: nat, k: nat | r < |t.reqs| && Asked(t.reqs[r], k) && !Asked(s.reqs[r], k)
      ensures k < s.resp.creditNext && Took(t.reqs[r], s.resp.binding, k)
    {
      NewRequestIsGood(env, s, ev, k);
    }
    GrownKeeps(env, s.resp, s.reqs, t.reqs);
  }

  // ------------------------------------------------ responder steps keep it

  /** A registration speaks for a message its sender has submitted. */
  lemma RegisterIsOwn(env: Env, s: System, rank: nat, start: nat, sub: nat)
    requires SystemInv(env, s) && rank < |s.reqs| && Register(start, sub) in s.reqs[rank].sent
             && start in s.resp.messages
    ensures s.resp.messages[start].id < s.reqs[rank].submitted
  {
    hide GlobalInv;
    OwnerIdentity(env, s.resp, start);
    hide RespInv;
    var q := s.reqs[rank];
    assert Requester.ReqInv(env, q);
    var i: nat :| Requester.OwnMessage(env, q.submitted, start, i);
    PlanStartsDistinct(env, i, s.resp.messages[start].id);
  }

  /** An END acknowledgement speaks for a message its sender holds in full. */
  lemma EndAckIsHonest(env: Env, s: System, rank: nat, start: nat)
    requires SystemInv(env, s) && rank < |s.reqs| && EndAck(start) in s.reqs[rank].sent && start in s.resp.messages
    ensures Requester.HeldRange(s.reqs[rank].held, start, s.resp.messages[start].total)
  {
    hide GlobalInv;
    OwnerIdentity(env, s.resp, start);
    hide RespInv, Requester.HeldRange;
    var q := s.reqs[rank];
    assert Requester.ReqInv(env, q);
    var i: nat :| Requester.AckedMessage(env, q.submitted, q.held, start, i);
    PlanStartsDistinct(env, i, s.resp.messages[start].id);
  }

  lemma RequestIsHonest(s: System, rank: nat, k: nat)
    requires GlobalInv(s.resp, s.reqs) && rank < |s.reqs| && Asked(s.reqs[rank], k)
    ensures k < s.resp.creditNext && Took(s.reqs[rank], s.resp.binding, k)
  {
    hide SentInv, MarksInv, GateInv, CursorInv, AckInv, FinishedInv;
  }

  lemma FullContributors(env: Env, contributors: set<nat>)
    requires (forall r :: r in contributors ==> r < env.n) && |contributors| == env.n
    ensures contributors == Full(env)
  {
    RangeSize(0, env.n);
    SubsetOfEqualSize(contributors, Full(env));
  }

  lemma MasterKeeps(env: Env, s: System, ev: Event)
    requires SystemInv(env, s) && |s.reqs| == env.n && Enabled(env, s, ev) && ev.MasterArrives?
    ensures Inv(env, AtResponder(env, s, ev), s.reqs) && AtResponder(env, s, ev).pending == []
  {
    hide RespInv, GlobalInv, Requester.ReqInv, Took, Recorded, SettleOk, Settle;
    var k, count := ev.offset, |ev.contributors|;
    forall r | r in ev.contributors ensures k < s.resp.creditNext && Took(s.reqs[r], s.resp.binding, k) {
      RequestIsHonest(s, r, k);
    }
    if count == env.n { FullContributors(env, ev.contributors); }
    OnRequestKeeps(env, s.resp, k, Switches(count), ev.choice);
    OnRequestGlobal(env, s.resp, k, Switches(count), ev.choice, s.reqs);
  }

  lemma InputKeeps(env: Env, s: System, ev: Event)
    requires SystemInv(env, s) && |s.reqs| == env.n && Enabled(env, s, ev) && ev.InputArrives?
    ensures Inv(env, AtResponder(env, s, ev), s.reqs) && AtResponder(env, s, ev).pending == []
  {
    hide RespInv, GlobalInv, Requester.ReqInv, Took, Recorded, SettleOk, Settle;
    RequestIsHonest(s, ev.rank, ev.offset);
    OnRequestKeeps(env, s.resp, ev.offset, Single(ev.rank, ev.repair), ev.choice);
    OnRequestGlobal(env, s.resp, ev.offset, Single(ev.rank, ev.repair), ev.choice, s.reqs);
  }

  lemma ControlKeeps(env: Env, s: System, ev: Event)
    requires SystemInv(env, s) && |s.reqs| == env.n && Enabled(env, s, ev)
    requires ev.RegisterArrives? || ev.EndAckArrives? || ev.IssueTimer? || ev.SubmitAtResponder?
    ensures Inv(env, AtResponder(env, s, ev), s.reqs) && AtResponder(env, s, ev).pending == []
  {
    hide RespInv, GlobalInv, Requester.ReqInv, CanIssue, Requester.HeldRange;
    match ev {
      case SubmitAtResponder => SubmitGlobal(env, s.resp, s.reqs);
      case RegisterArrives(rank, start, sub, picks) =>
        if start in s.resp.messages { RegisterIsOwn(env, s, rank, start, sub); }
        RecordRegisterGlobal(env, s.resp, start, sub, rank, s.reqs);
        IssueAllGlobal(env, RecordRegister(env, s.resp, start, sub, rank), picks, s.reqs);
        IssueAllNeverQueues(env, RecordRegister(env, s.resp, start, sub, rank), picks);
      case EndAckArrives(rank, start) =>
        if start in s.resp.messages { EndAckIsHonest(env, s, rank, start); }
        OnEndAckGlobal(env, s.resp, start, rank, s.reqs);
      case IssueTimer(picks) =>
        IssueAllGlobal(env, s.resp, picks, s.reqs);
        IssueAllNeverQueues(env, s.resp, picks);
    }
  }

  lemma RecoveryKeeps(env: Env, s: System, ev: Event)
    requires SystemInv(env, s) && |s.reqs| == env.n && Enabled(env, s, ev)
    requires ev.AggMissArrives? || ev.CreditTimer? || ev.EndTimer?
    ensures Inv(env, AtResponder(env, s, ev), s.reqs) && AtResponder(env, s, ev).pending == []
  {
    hide RespInv, GlobalInv, Requester.ReqInv;
    match ev {
      case AggMissArrives(k, funded) => if k in s.resp.entries { EnterRepairGlobal(env, s.resp, k, funded, s.reqs); }
      case CreditTimer(k, funded) => if k in s.resp.entries { EnterRepairGlobal(env, s.resp, k, funded, s.reqs); }
      case EndTimer(start, budget) =>
        OnEndTimeoutGlobal(env, s.resp, start, budget, s.reqs);
        if start in s.resp.messages {
          ReplayTailSends(s.resp, start, start + s.resp.messages[start].total, budget);
        }
    }
  }

  /** Every step, whatever the network delivered, keeps the invariant. */
  lemma StepKeeps(env: Env, s: System, ev: Event)
    requires SystemInv(env, s) && |s.reqs| == env.n && Enabled(env, s, ev)
    ensures SystemInv(env, Step(env, s, ev))
  {
    hide Inv, ReqsInv, AtResponder, Enabled;
    if RequesterSide(ev) {
      RequesterStepKeeps(env, s, ev);
    } else if ev.MasterArrives? {
      MasterKeeps(env, s, ev);
    } else if ev.InputArrives? {
      InputKeeps(env, s, ev);
    } else if ev.AggMissArrives? || ev.CreditTimer? || ev.EndTimer? {
      RecoveryKeeps(env, s, ev);
    } else {
      ControlKeeps(env, s, ev);
    }
  }

  lemma {:induction false} RunKeeps(env: Env, s: System, evs: seq<Event>)
    requires SystemInv(env, s) && |s.reqs| == env.n && Runs(env, s, evs)
    ensures SystemInv(env, RunFrom(env, s, evs))
    decreases |evs|
  {
    hide SystemInv, Enabled;
    if evs != [] {
      StepKeeps(env, s, evs[0]);
      RunKeeps(env, Step(env, s, evs[0]), evs[1..]);
    }
  }

  // ----------------------------------------------------------- what it means

  /** The states reached by any run from the start. */
  ghost predicate Reachable(env: Env, s: System) {
    exists evs: seq<Event> :: Runs(env, Initial(env), evs) && s == RunFrom(env, Initial(env), evs)
  }

  lemma ReachableInv(env: Env, s: System)
    requires EnvOk(env) && Reachable(env, s)
    ensures SystemInv(env, s) && |s.reqs| == env.n
  {
    var evs: seq<Event> :| Runs(env, Initial(env), evs) && s == RunFrom(env, Initial(env), evs);
    InitialInv(env);
    RunKeeps(env, Initial(env), evs);
  }

  /** Credit `k` is done: its entry says so, or was already forgotten. */
  ghost predicate CreditDoneAt(s: Resp, k: nat) {
    k < s.creditNext && (k in s.entries ==> s.entries[k].done)
  }

  lemma DoneCreditTaken(env: Env, s: System, k: nat, p: nat)
    requires SystemInv(env, s) && CreditDoneAt(s.resp, k) && BoundTo(s.resp.binding, k, p)
    ensures AllHold(s.reqs, p)
  {
    hide MessagesInv, BindingInv, FirstSendInv, OutstandingInv, DoneInv, Live, SentInv, RequestsInv, GateInv, AckInv,
         FinishedInv, ReqsInv;
    forall r: nat | r < |s.reqs| ensures p in s.reqs[r].held {
      if k in s.resp.entries { assert EntryInv(env, s.resp.entries[k]); }
      assert Marked(s.resp.entries, k, r);
    }
  }

  /** Implicit acknowledgement: once a credit is done, the payload it carried has
      been delivered to every requester, although nobody ever acknowledged it. */
  lemma ImplicitAcknowledgement(env: Env, s: System, k: nat, p: nat)
    requires EnvOk(env) && Reachable(env, s)
    requires CreditDoneAt(s.resp, k) && BoundTo(s.resp.binding, k, p)
    ensures AllHold(s.reqs, p)
  {
    ReachableInv(env, s);
    DoneCreditTaken(env, s, k, p);
  }

  /** END is safe: when the responder has forgotten a message it submitted, all its
      credits were issued, each result was sent for the first time exactly once,
      and every requester holds every one of them. */
  lemma FinishedMessageIsDelivered(env: Env, s: System, i: nat, o: nat)
    requires EnvOk(env) && Reachable(env, s)
    requires i < s.resp.submitted <= |env.plan| && Start(env.plan, i) !in s.resp.messages
    requires Covers(Start(env.plan, i), env.plan[i].total, o)
    ensures o < s.resp.creditNext && o !in s.resp.entries && s.resp.firstSent[o] == 1 && AllHold(s.reqs, o)
  {
    ReachableInv(env, s);
    hide OutstandingInv, DoneInv, BindingInv, SentInv, RequestsInv, MarksInv, GateInv, CursorInv, AckInv, ReqsInv;
    assert Finished(env, s.resp.messages, s.resp.submitted, i);
    if Live(s.resp.messages, o) {
      var st :| st in s.resp.messages && Covers(st, s.resp.messages[st].total, o);
      OwnerIdentity(env, s.resp, st);
      PlanDisjoint(env, i, s.resp.messages[st].id, o);
    }
  }

  /** A requester that forgot a message had received all of it. */
  lemma ReclaimedMessageIsHeld(env: Env, s: System, r: nat, i: nat, o: nat)
    requires EnvOk(env) && Reachable(env, s) && r < |s.reqs|
    requires i < s.reqs[r].submitted <= |env.plan| && Start(env.plan, i) !in s.reqs[r].messages
    requires Covers(Start(env.plan, i), env.plan[i].total, o)
    ensures o in s.reqs[r].held
  {
    ReachableInv(env, s);
    hide Inv, Requester.UpInv, Requester.DeliveredInv;
    assert Requester.ReqInv(env, s.reqs[r]);
    assert Requester.Reclaimed(env, s.reqs[r].messages, s.reqs[r].submitted, i);
  }

  /** No payload is ever lost: one that somebody still misses is either carried by
      no credit, so that END-timeout replays it, or rides on a live credit that is
      not done, so that repair replays it. */
  lemma MissingPayloadIsRecoverable(env: Env, s: System, p: nat)
    requires EnvOk(env) && Reachable(env, s)
    requires p in s.resp.entries && s.resp.entries[p].committed && !AllHold(s.reqs, p)
    ensures TailPayload(s.resp, p)
            || (s.resp.entries[p].boundBy.Some?
                && var k := s.resp.entries[p].boundBy.value;
                   Rides(s.resp.entries, k, p) && !s.resp.entries[k].done)
  {
    hide Reachable, MessagesInv, FirstSendInv, OutstandingInv, DoneInv, ReqsInv, RequestsInv, GateInv, AckInv;
    ReachableInv(env, s);
    if s.resp.entries[p].boundBy.Some? {
      var k := s.resp.entries[p].boundBy.value;
      assert RiddenBy(s.resp.entries, p, k);
      assert BoundTo(s.resp.binding, k, p);
      if CreditDoneAt(s.resp, k) { DoneCreditTaken(env, s, k, p); }
    } else {
      assert EntryInv(env, s.resp.entries[p]);
    }
  }

  /** Repair resends the payload together with the credit that carries it. */
  lemma RepairReplays(env: Env, s: System, k: nat, p: nat)
    requires EnvOk(env) && Reachable(env, s) && Rides(s.resp.entries, k, p) && p in s.resp.entries
             && !s.resp.entries[k].done
    ensures Response(true, Some(p), Some(k), s.resp.entries[k].sub) in OnCreditTimeout(s.resp, k, true).sent
  {
    ReachableInv(env, s);
    hide GlobalInv, ReqsInv;
    OwnerOf(env, s.resp, k);
  }

  /** With enough budget the tail replay reaches every payload no credit carries. */
  lemma {:induction false} ReplayTailReaches(s: Resp, from: nat, end: nat, budget: nat, p: nat)
    requires from <= p < end && TailPayload(s, p) && end - from <= budget
    ensures Response(true, Some(p), None, s.entries[p].sub) in ReplayTail(s, from, end, budget).sent
    decreases end - from
  {
    if from == p {
      ReplayTailSends(Send(s, Response(true, Some(p), None, s.entries[p].sub)), p + 1, end, budget - 1);
    } else if TailPayload(s, from) {
      ReplayTailReaches(Send(s, Response(true, Some(from), None, s.entries[from].sub)), from + 1, end, budget - 1, p);
    } else {
      ReplayTailReaches(s, from + 1, end, budget, p);
    }
  }

  /** END-timeout resends every payload of its message that no credit carries. */
  lemma EndTimeoutReplays(s: Resp, st: nat, budget: nat, p: nat)
    requires st in s.messages && s.messages[st].endPending && Covers(st, s.messages[st].total, p)
    requires TailPayload(s, p) && s.messages[st].total <= budget
    ensures Response(true, Some(p), None, s.entries[p].sub) in OnEndTimeout(s, st, budget).sent
  {
    ReplayTailReaches(s, st, st + s.messages[st].total, budget, p);
  }

  /** Registration gate: nothing reaches a requester ahead of its own submissions,
      so no requester ever counts a violation, and none of the responder's
      fail-fast checks can fire. */
  lemma GateHolds(env: Env, s: System, r: nat, d: Down)
    requires EnvOk(env) && Reachable(env, s) && r < |s.reqs|
    ensures s.reqs[r].violations == 0 && !s.resp.aborted
    ensures d in s.resp.sent && d.Response? && d.payload.Some? ==> d.payload.value < s.reqs[r].nextSeq
    ensures d in s.resp.sent && d.Response? && d.credit.Some? ==> d.credit.value < s.reqs[r].nextSeq
  {
    ReachableInv(env, s);
    assert Requester.ReqInv(env, s.reqs[r]);
    hide RespInv, Requester.ReqInv, GlobalInv;
    if d in s.resp.sent && d.Response? { DownBelowCursor(s, d, r); }
  }

  /** Credit accounting: the counters equal the numbers of entries they stand for. */
  lemma CreditAccounting(env: Env, s: System)
    requires EnvOk(env) && Reachable(env, s)
    ensures s.resp.outstanding == |Undone(s.resp.entries)| == Sum(s.resp.subOut)
    ensures forall j :: 0 <= j < |s.resp.subOut| ==> s.resp.subOut[j] == |UndoneOn(s.resp.entries, j)|
    ensures forall st :: st in s.resp.messages ==>
            s.resp.messages[st].done == |DoneIn(s.resp.entries, st, s.resp.messages[st].total)|
  {
    ReachableInv(env, s);
    hide GlobalInv, ReqsInv, MessagesInv, EntriesInv, BindingInv, FirstSendInv;
  }

  /** Binding is a partial matching between live credits and live payloads. */
  lemma BindingIsMatching(env: Env, s: System, k: nat, p: nat)
    requires EnvOk(env) && Reachable(env, s) && k in s.resp.entries && p in s.resp.entries
    ensures s.resp.pending == []
    ensures s.resp.entries[k].boundPayload == Some(p) <==> s.resp.entries[p].boundBy == Some(k)
  {
    ReachableInv(env, s);
    hide GlobalInv, ReqsInv, MessagesInv, EntriesInv, FirstSendInv, OutstandingInv, DoneInv;
    assert Rides(s.resp.entries, k, p) <==> RiddenBy(s.resp.entries, p, k) by {
      if RiddenBy(s.resp.entries, p, k) { assert BoundTo(s.resp.binding, k, p); }
    }
  }

  /** Every committed result is sent for the first time exactly once, and nothing else is. */
  lemma FirstSentExactlyOnce(env: Env, s: System, p: nat)
    requires EnvOk(env) && Reachable(env, s)
    ensures s.resp.firstSent[p] == if CommittedEver(s.resp.entries, s.resp.creditNext, p) then 1 else 0
  {
    ReachableInv(env, s);
    hide GlobalInv, ReqsInv, MessagesInv, EntriesInv, BindingInv, OutstandingInv, DoneInv;
  }
}

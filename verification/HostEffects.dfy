/** What each packet and each timer does to a responder (reference/arbor-host.cc): whose
    answer counts, when an offset is done, what repair and END send, what is forgotten. */
module HostEffects {
  import opened Prelude
  import opened HostModel
  import opened HostPlan
  import opened HostResponderInvariant
  import opened HostGlobal
  import opened HostSystem
  import opened HostPackets

  // ------------------------------------------- what a cascade leaves of an offset

  /** Answers, and the switch to repair, stay; what is committed or done stays so. */
  ghost predicate EntryKept(a: Entry, b: Entry) {
    && b.bitmap == a.bitmap && b.repairMode == a.repairMode && b.sub == a.sub
    && (a.committed ==> b.committed) && (a.done ==> b.done)
  }

  ghost predicate Kept(a: map<nat, Entry>, b: map<nat, Entry>) {
    forall k :: k in a ==> k in b && EntryKept(a[k], b[k])
  }

  lemma KeptOn(a: map<nat, Entry>, b: map<nat, Entry>, c: map<nat, Entry>)
    requires Kept(a, b) && Kept(b, c)
    ensures Kept(a, c)
  {
    forall k | k in a ensures k in c && EntryKept(a[k], c[k]) {
      assert EntryKept(a[k], b[k]) && EntryKept(b[k], c[k]);
    }
  }

  lemma IssueOneKept(env: Env, s: Resp, pick: nat)
    requires CanIssue(env, s, pick)
    ensures Kept(s.entries, IssueOne(env, s, pick).entries)
  {
    hide FindMessage, Reserve, PushSelf, Piggyback, Kept;
    var k := s.creditNext;
    if k in s.entries {
      SameKept(s.entries);
    } else {
      ReserveIssues(env, s, pick);
      var t, u := Reserve(env, s, pick), IssueOne(env, s, pick);
      FreshKept(s.entries, k, pick);
      if u == PushSelf(t, k) {
        PushKept(t, k);
      } else if t.pending != [] && u == Piggyback(t, k) {
        PiggybackKept(t, k);
      } else {
        SameKept(t.entries);
      }
      KeptOn(s.entries, t.entries, u.entries);
    }
  }

  lemma FreshKept(a: map<nat, Entry>, k: nat, pick: nat)
    requires k !in a
    ensures Kept(a, a[k := FreshEntry(pick)])
  {
  }

  lemma PushKept(t: Resp, k: nat)
    requires k in t.entries
    ensures Kept(t.entries, PushSelf(t, k).entries)
  {
  }

  lemma PiggybackKept(t: Resp, k: nat)
    requires k in t.entries && t.pending != []
    ensures Kept(t.entries, Piggyback(t, k).entries)
  {
    hide FindMessage;
    var p := t.pending[0];
    if p in t.entries {
      var bound := t.entries[k := t.entries[k].(boundPayload := Some(p))];
      assert Kept(t.entries, bound) && Kept(bound, bound[p := bound[p].(boundBy := Some(k))]);
      KeptOn(t.entries, bound, bound[p := bound[p].(boundBy := Some(k))]);
    }
  }

  lemma {:induction false} IssueAllKept(env: Env, s: Resp, picks: seq<nat>)
    requires Issuable(env, s, picks)
    ensures Kept(s.entries, IssueAll(env, s, picks).entries)
    decreases |picks|
  {
    hide CanIssue, IssueOne, Kept;
    if picks != [] {
      IssueOneKept(env, s, picks[0]);
      IssueAllKept(env, IssueOne(env, s, picks[0]), picks[1..]);
      KeptOn(s.entries, IssueOne(env, s, picks[0]).entries, IssueAll(env, s, picks).entries);
    } else {
      SameKept(s.entries);
    }
  }

  lemma SameKept(a: map<nat, Entry>)
    ensures Kept(a, a)
  {
  }

  lemma MarkDoneKept(env: Env, s: Resp, k: nat)
    requires k in s.entries
    ensures Kept(s.entries, MarkDone(env, s, k).entries)
  {
    hide FindMessage, Full;
  }

  lemma ConsumeKept(env: Env, s: Resp, k: nat, picks: Picks)
    requires k in s.entries && ConsumeOk(env, s, k, picks)
    ensures Kept(s.entries, Consume(env, s, k, picks).entries)
  {
    hide Kept, MarkDone, IssueAll, Issuable;
    var some := if Finishable(env, s, k) then picks.first else [];
    MarkDoneKept(env, s, k);
    IssueAllKept(env, MarkDone(env, s, k), some);
    KeptOn(s.entries, MarkDone(env, s, k).entries, Consume(env, s, k, picks).entries);
  }

  lemma {:induction false} FlushAllKept(s: Resp)
    ensures FlushAll(s).entries == s.entries
    decreases |s.pending|
  {
    hide FindMessage;
    if s.pending != [] { FlushAllKept(FlushOne(s)); }
  }

  lemma CommitKept(env: Env, s: Resp, k: nat, picks: Picks)
    requires k in s.entries && CommitOk(env, s, k, picks)
    ensures Kept(s.entries, Commit(env, s, k, picks).entries)
  {
    hide Consume, ConsumeOk, IssueAll, Issuable, FlushAll, FindMessage;
    var c := MarkCommitted(s, k);
    assert Kept(s.entries, c.entries);
    hide Kept, MarkCommitted;
    ConsumeKept(env, c, k, picks);
    var t := Consume(env, c, k, picks);
    IssueAllKept(env, t, picks.second);
    var u := IssueAll(env, t, picks.second);
    FlushAllKept(u);
    KeptOn(s.entries, c.entries, t.entries);
    KeptOn(s.entries, t.entries, u.entries);
  }

  lemma SettleKept(env: Env, s: Resp, k: nat, picks: Picks)
    requires k in s.entries && SettleOk(env, s, k, picks)
    ensures Kept(s.entries, Settle(env, s, k, picks).entries)
  {
    hide Kept, Consume, ConsumeOk, Commit, CommitOk, FindMessage;
    SameKept(s.entries);
    if s.entries[k].committed {
      ConsumeKept(env, s, k, picks);
    } else if s.entries[k].bitmap == Full(env) {
      CommitKept(env, s, k, picks);
    }
  }

  // ---------------------------------------------------------------- requests

  lemma RecordedIs(env: Env, s: Resp, k: nat, from: Sender, picks: Picks)
    requires RequestOk(env, s, k, from, picks) && FindMessage(s.messages, k).Some? && k in s.entries
    requires !Misplaced(env, from) && Recorded(env, s, k, from).Some?
    ensures var t := Recorded(env, s, k, from).value;
            && k in t.entries && t.messages == s.messages && SettleOk(env, t, k, picks)
            && HostModel.OnRequest(env, s, k, from, picks) == Settle(env, t, k, picks)
            && t.entries == s.entries[k := s.entries[k].(bitmap := t.entries[k].bitmap)]
            && t.entries[k].bitmap == match from
                                      case Switches(_) => Full(env)
                                      case Single(rank, _) => s.entries[k].bitmap + {rank}
  {
    hide Settle, SettleOk, FindMessage, Full;
  }

  lemma RequestKept(env: Env, s: Resp, k: nat, from: Sender, picks: Picks)
    requires RequestOk(env, s, k, from, picks) && FindMessage(s.messages, k).Some? && k in s.entries
    requires !Misplaced(env, from)
    ensures var t := HostModel.OnRequest(env, s, k, from, picks);
            match Recorded(env, s, k, from)
            case None => t == s
            case Some(u) => k in t.entries && k in u.entries && t.entries[k].bitmap == u.entries[k].bitmap
  {
    hide Settle, SettleOk, FindMessage, Full, Recorded, Kept;
    if Recorded(env, s, k, from).Some? {
      RecordedIs(env, s, k, from, picks);
      var u := Recorded(env, s, k, from).value;
      SettleKept(env, u, k, picks);
      KeptBitmap(u.entries, Settle(env, u, k, picks).entries, k);
    }
  }

  lemma KeptBitmap(a: map<nat, Entry>, b: map<nat, Entry>, k: nat)
    requires Kept(a, b) && k in a
    ensures k in b && b[k].bitmap == a[k].bitmap
  {
  }

  /** A master counts for everybody exactly if its count is the number of requesters and the
      offset is not waiting for repair; then the offset is committed and done at once.
      Any other master changes nothing. */
  lemma MasterCompletes(env: Env, s: System, k: nat, contributors: set<nat>, choice: Picks)
    requires EnvOk(env) && Reachable(env, s) && |s.reqs| == env.n
    requires Enabled(env, s, MasterArrives(k, contributors, choice)) && k in s.resp.entries
    ensures var e, t := s.resp.entries[k], Step(env, s, MasterArrives(k, contributors, choice));
            if |contributors| == env.n && (e.committed || !e.repairMode)
            then k in t.resp.entries && t.resp.entries[k].committed && t.resp.entries[k].done
            else t == s
  {
    hide SystemInv, SettleOk, FindMessage, Full, AllDue, HostModel.OnRequest, Reachable;
    var ev, from := MasterArrives(k, contributors, choice), Switches(|contributors|);
    ReachableDue(env, s);
    LiveEntry(env, s, k);
    RequestKept(env, s.resp, k, from, choice);
    if Recorded(env, s.resp, k, from).Some? {
      RecordedIs(env, s.resp, k, from, choice);
      HostSystem.StepKeeps(env, s, ev);
      StepDue(env, s, ev);
      EverybodyMeansDone(env, Step(env, s, ev), k);
    }
  }

  lemma LiveEntry(env: Env, s: System, k: nat)
    requires SystemInv(env, s) && k in s.resp.entries
    ensures FindMessage(s.resp.messages, k).Some?
  {
    hide GlobalInv, ReqsInv, MessagesInv, BindingInv, FirstSendInv, HostCounting.OutstandingInv, HostCounting.DoneInv;
    assert Live(s.resp.messages, k);
  }

  lemma EverybodyMeansDone(env: Env, s: System, k: nat)
    requires SystemInv(env, s) && AllDue(env, s)
    ensures k in s.resp.entries && s.resp.entries[k].bitmap == Full(env) ==>
              s.resp.entries[k].done && s.resp.entries[k].committed
  {
    hide GlobalInv, ReqsInv, ReqDue, MessagesInv, BindingInv, FirstSendInv, HostCounting.OutstandingInv,
         HostCounting.DoneInv, ResponsesOut, RegistersAcked, EndsOut, OneOwner;
    if k in s.resp.entries { assert EntryInv(env, s.resp.entries[k]); }
  }

  /** The input of a single requester, normal or for repair, counts for that one; and when it
      was the last one missing, the offset is committed and done at once. */
  lemma InputCounts(env: Env, s: System, rank: nat, k: nat, repair: bool, choice: Picks)
    requires EnvOk(env) && Reachable(env, s) && |s.reqs| == env.n
    requires Enabled(env, s, InputArrives(rank, k, repair, choice)) && k in s.resp.entries
    requires !Misplaced(env, Single(rank, repair))
    ensures var e, t := s.resp.entries[k], Step(env, s, InputArrives(rank, k, repair, choice));
            && k in t.resp.entries && t.resp.entries[k].bitmap == e.bitmap + {rank}
            && (e.bitmap + {rank} == Full(env) ==> t.resp.entries[k].committed && t.resp.entries[k].done)
            && (rank in e.bitmap ==> t == s)
  {
    hide SystemInv, SettleOk, FindMessage, Full, AllDue, HostModel.OnRequest, Reachable;
    var ev, from := InputArrives(rank, k, repair, choice), Single(rank, repair);
    ReachableDue(env, s);
    LiveEntry(env, s, k);
    RequestKept(env, s.resp, k, from, choice);
    if Recorded(env, s.resp, k, from).Some? {
      RecordedIs(env, s.resp, k, from, choice);
    } else {
      assert s.resp.entries[k].bitmap + {rank} == s.resp.entries[k].bitmap;
    }
    HostSystem.StepKeeps(env, s, ev);
    StepDue(env, s, ev);
    EverybodyMeansDone(env, Step(env, s, ev), k);
  }

  /** The only request that stops the responder, in a consistent state: one that no switch
      merged and that is not for repair, in a group of several whose switches merge
      header-only requests as well. */
  lemma MisplacedStops(env: Env, s: Resp, k: nat, from: Sender, picks: Picks)
    requires RespInv(env, s) && s.pending == [] && RequestOk(env, s, k, from, picks)
    requires k < s.creditNext && (from.Single? ==> from.rank < env.n)
    ensures HostModel.OnRequest(env, s, k, from, picks).aborted <==>
              from.Single? && !from.repair && env.n > 1 && env.controlAggregation && FindMessage(s.messages, k).Some?
  {
    if Misplaced(env, from) {
      NotStopped(env, s);
      hide RespInv, FindMessage;
    } else {
      OnRequestKeeps(env, s, k, from, picks);
      NotStopped(env, HostModel.OnRequest(env, s, k, from, picks));
    }
  }

  lemma NotStopped(env: Env, s: Resp)
    requires RespInv(env, s)
    ensures !s.aborted
  {
  }

  // ------------------------------------------------- how many credits are out

  lemma {:induction false} IssueAllBounded(env: Env, s: Resp, picks: seq<nat>)
    requires Issuable(env, s, picks) && s.outstanding <= 0x10_0000
    ensures IssueAll(env, s, picks).outstanding <= 0x10_0000
    decreases |picks|
  {
    hide FindMessage;
    if picks != [] { IssueAllBounded(env, IssueOne(env, s, picks[0]), picks[1..]); }
  }

  lemma {:induction false} FlushAllOutstanding(s: Resp)
    ensures FlushAll(s).outstanding == s.outstanding
    decreases |s.pending|
  {
    hide FindMessage;
    if s.pending != [] { FlushAllOutstanding(FlushOne(s)); }
  }

  lemma ConsumeBounded(env: Env, s: Resp, k: nat, picks: Picks)
    requires k in s.entries && ConsumeOk(env, s, k, picks) && s.outstanding <= 0x10_0000
    ensures Consume(env, s, k, picks).outstanding <= 0x10_0000
  {
    MarkDoneOutstanding(env, s, k);
    hide MarkDone, IssueAll, Issuable;
    IssueAllBounded(env, MarkDone(env, s, k), if Finishable(env, s, k) then picks.first else []);
  }

  lemma MarkDoneOutstanding(env: Env, s: Resp, k: nat)
    requires k in s.entries
    ensures MarkDone(env, s, k).outstanding <= s.outstanding
  {
    hide FindMessage, Full;
  }

  lemma EndCheckOutstanding(s: Resp, k: nat)
    ensures EndCheck(s, k).outstanding == s.outstanding
  {
    hide FindMessage;
  }

  lemma SettleBounded(env: Env, s: Resp, k: nat, picks: Picks)
    requires k in s.entries && SettleOk(env, s, k, picks) && s.outstanding <= 0x10_0000
    ensures Settle(env, s, k, picks).outstanding <= 0x10_0000
  {
    hide Consume, ConsumeOk, IssueAll, Issuable, FlushAll, EndCheck;
    if s.entries[k].committed {
      ConsumeBounded(env, s, k, picks);
      EndCheckOutstanding(Consume(env, s, k, picks), k);
    } else if s.entries[k].bitmap == Full(env) {
      var c := MarkCommitted(s, k);
      ConsumeBounded(env, c, k, picks);
      IssueAllBounded(env, Consume(env, c, k, picks), picks.second);
      var t := IssueAll(env, Consume(env, c, k, picks), picks.second);
      FlushAllOutstanding(t);
      EndCheckOutstanding(FlushAll(t), k);
    }
  }

  lemma RequestBounded(env: Env, s: Resp, k: nat, from: Sender, picks: Picks)
    requires RequestOk(env, s, k, from, picks) && s.outstanding <= 0x10_0000
    ensures HostModel.OnRequest(env, s, k, from, picks).outstanding <= 0x10_0000
  {
    hide Settle, SettleOk, FindMessage, Full;
    if FindMessage(s.messages, k).Some? && k in s.entries && !Misplaced(env, from) {
      if Recorded(env, s, k, from).Some? { SettleBounded(env, Recorded(env, s, k, from).value, k, picks); }
    }
  }

  lemma StepBounded(env: Env, s: System, ev: Event)
    requires |s.reqs| == env.n && Enabled(env, s, ev) && s.resp.outstanding <= 0x10_0000
    ensures Step(env, s, ev).resp.outstanding <= 0x10_0000
  {
    hide HostModel.OnRequest, RequestOk, FindMessage, IssueAll, Issuable, ReplayTail, AtRequester;
    match ev {
      case RegisterArrives(rank, start, sub, picks) =>
        IssueAllBounded(env, RecordRegister(env, s.resp, start, sub, rank), picks);
      case IssueTimer(picks) => IssueAllBounded(env, s.resp, picks);
      case MasterArrives(k, contributors, choice) => RequestBounded(env, s.resp, k, Switches(|contributors|), choice);
      case InputArrives(rank, k, repair, choice) => RequestBounded(env, s.resp, k, Single(rank, repair), choice);
      case EndTimer(start, budget) => EndTimeoutSends(s.resp, start, budget, End(0, 0));
      case _ =>
    }
  }

  lemma {:induction false} RunBounded(env: Env, s: System, evs: seq<Event>)
    requires |s.reqs| == env.n && Runs(env, s, evs) && s.resp.outstanding <= 0x10_0000
    ensures RunFrom(env, s, evs).resp.outstanding <= 0x10_0000
    decreases |evs|
  {
    hide Enabled, Step;
    if evs != [] {
      StepBounded(env, s, evs[0]);
      RunBounded(env, Step(env, s, evs[0]), evs[1..]);
    }
  }

  /** In every reachable state at most 2^20 credits are out. */
  lemma OutstandingIsBounded(env: Env, s: System)
    requires EnvOk(env) && Reachable(env, s)
    ensures s.resp.outstanding <= 0x10_0000
  {
    hide Runs, RunFrom;
    var evs: seq<Event> :| Runs(env, Initial(env), evs) && s == RunFrom(env, Initial(env), evs);
    RunBounded(env, Initial(env), evs);
  }

  // ------------------------------------------------------- registration and END

  /** A registration counts for its sender, and is acknowledged, each time, exactly when
      everybody has registered. */
  lemma RegisterCounts(env: Env, s: Resp, st: nat, sub: nat, rank: nat)
    requires st in s.messages && sub < |s.messages[st].reg|
    ensures var t, m := RecordRegister(env, s, st, sub, rank), s.messages[st];
            var reg := m.reg[sub] + {rank};
            && t.messages == s.messages[st := m.(reg := m.reg[sub := reg])] && t.entries == s.entries
            && t.sent == s.sent + (if reg == Full(env) then multiset{RegisterAck(st, sub)} else multiset{})
  {
    hide Full;
  }

  /** An END acknowledgement counts for its sender; the message and all of its entries, and no
      other, are forgotten exactly when it was the last one and every offset is done. */
  lemma EndAckCounts(env: Env, s: Resp, st: nat, rank: nat)
    requires st in s.messages
    ensures var t, m := HostModel.OnEndAck(env, s, st, rank), s.messages[st];
            var acked := m.endAck + {rank};
            && t.sent == s.sent
            && if acked == Full(env) && m.done == m.total
               then t.messages == s.messages - {st} && forall k: nat ::
                      (k in t.entries <==> k in s.entries && !Covers(st, m.total, k))
                      && (k in t.entries ==> t.entries[k] == s.entries[k])
               else t.entries == s.entries && t.messages == s.messages[st := t.messages[st]]
                    && st in t.messages && t.messages[st].endAck == acked
  {
    hide Full;
  }

  /** A payload of the message that is committed and stored, and that no credit carries. */
  ghost predicate Unbound(s: Resp, st: nat, total: nat, p: nat) {
    Covers(st, total, p) && p in s.entries && s.entries[p].committed && s.entries[p].hasPayload
    && s.entries[p].boundBy == None
  }

  /** What an END timeout sends: END, and as repair without credit, on its own subchannel,
      each payload of the message that no credit carries. */
  ghost function EndResends(s: Resp, st: nat, d: Down): nat
    requires st in s.messages
  {
    if d == End(st, s.messages[st].id) then 1
    else if d.Response? && d.repair && d.credit == None && d.payload.Some?
            && Unbound(s, st, s.messages[st].total, d.payload.value) && d.sub == s.entries[d.payload.value].sub then 1
    else 0
  }

  /** With budget for the whole message, the END timeout of a pending message sends exactly
      that, once each; it changes nothing else, and for any other message nothing at all. */
  lemma EndTimeoutSends(s: Resp, st: nat, budget: nat, d: Down)
    ensures var t := HostModel.OnEndTimeout(s, st, budget);
            && t == s.(sent := t.sent)
            && if st in s.messages && s.messages[st].endPending
               then s.messages[st].total <= budget ==> t.sent[d] == s.sent[d] + EndResends(s, st, d)
               else t == s
  {
    hide TailPayload;
    if st in s.messages && s.messages[st].endPending {
      TailOnlySends(s, st, st + s.messages[st].total, budget);
      if s.messages[st].total <= budget {
        TailCounts(s, st, st + s.messages[st].total, budget, d);
        hide ReplayTail;
        TailIsUnbound(s, st, d);
      }
    }
  }

  /** With any budget, each END timeout of a pending message sends END once more. */
  lemma EndIsRepeated(s: Resp, st: nat, budget: nat)
    requires st in s.messages && s.messages[st].endPending
    ensures var d := End(st, s.messages[st].id);
            HostModel.OnEndTimeout(s, st, budget).sent[d] == s.sent[d] + 1
  {
    hide TailPayload;
    TailSendsNoEnd(s, st, st + s.messages[st].total, budget, End(st, s.messages[st].id));
  }

  ghost predicate InTail(s: Resp, from: nat, end: nat, d: Down) {
    d.Response? && d.repair && d.credit == None && d.payload.Some?
    && from <= d.payload.value < end && TailPayload(s, d.payload.value) && d.sub == s.entries[d.payload.value].sub
  }

  lemma TailIsUnbound(s: Resp, st: nat, d: Down)
    requires st in s.messages
    ensures EndResends(s, st, d) == (if InTail(s, st, st + s.messages[st].total, d) then 1 else 0)
                                    + if d == End(st, s.messages[st].id) then 1 else 0
  {
  }

  lemma {:induction false} TailOnlySends(s: Resp, p: nat, end: nat, budget: nat)
    requires p <= end
    ensures ReplayTail(s, p, end, budget) == s.(sent := ReplayTail(s, p, end, budget).sent)
    decreases end - p
  {
    if p < end {
      if !TailPayload(s, p) {
        TailOnlySends(s, p + 1, end, budget);
      } else if budget > 0 {
        TailOnlySends(Send(s, Response(true, Some(p), None, s.entries[p].sub)), p + 1, end, budget - 1);
      }
    }
  }

  lemma {:induction false} TailCounts(s: Resp, p: nat, end: nat, budget: nat, d: Down)
    requires p <= end && end - p <= budget
    ensures ReplayTail(s, p, end, budget).sent[d] == s.sent[d] + if InTail(s, p, end, d) then 1 else 0
    decreases end - p
  {
    if p < end {
      if !TailPayload(s, p) {
        TailCounts(s, p + 1, end, budget, d);
      } else {
        var t := Send(s, Response(true, Some(p), None, s.entries[p].sub));
        TailCounts(t, p + 1, end, budget - 1, d);
        SameEntriesTail(s, t, p + 1, end, d);
      }
    }
  }

  lemma SameEntriesTail(s: Resp, t: Resp, from: nat, end: nat, d: Down)
    requires t.entries == s.entries
    ensures InTail(t, from, end, d) <==> InTail(s, from, end, d)
  {
  }

  lemma {:induction false} TailSendsNoEnd(s: Resp, p: nat, end: nat, budget: nat, d: Down)
    requires p <= end && d.End?
    ensures ReplayTail(s, p, end, budget).sent[d] == s.sent[d]
    decreases end - p
  {
    if p < end {
      if !TailPayload(s, p) {
        TailSendsNoEnd(s, p + 1, end, budget, d);
      } else if budget > 0 {
        TailSendsNoEnd(Send(s, Response(true, Some(p), None, s.entries[p].sub)), p + 1, end, budget - 1, d);
      }
    }
  }

  // -------------------------------------------------------------------- repair

  /** Putting an offset on the repair path: from then on a master does not commit it, and if
      the budget covers it, one repair credit goes out, with the bound payload. */
  ghost predicate Repaired(s: Resp, t: Resp, k: nat, funded: bool) {
    k in s.entries && k in t.entries
    && t.entries == s.entries[k := t.entries[k]] && t.messages == s.messages && t.pending == s.pending
    && t.entries[k] == s.entries[k].(repairMode := true, boundPayload := t.entries[k].boundPayload)
    && t.sent == s.sent + (if funded
                           then multiset{Response(true, t.entries[k].boundPayload, Some(k), s.entries[k].sub)}
                           else multiset{})
    && (s.entries[k].boundPayload.Some? && s.entries[k].boundPayload.value in s.entries ==>
          t.entries[k].boundPayload == s.entries[k].boundPayload)
  }

  lemma EnterRepairRepairs(s: Resp, k: nat, funded: bool)
    requires k in s.entries && FindMessage(s.messages, k).Some?
    ensures Repaired(s, HostModel.EnterRepair(s, k, funded), k, funded)
  {
    hide FindMessage;
  }

  /** A credit's timer repairs its offset exactly if that is not done. */
  lemma TimeoutRepairs(env: Env, s: System, k: nat, funded: bool)
    requires EnvOk(env) && Reachable(env, s)
    ensures var t := OnCreditTimeout(s.resp, k, funded);
            if k in s.resp.entries && !s.resp.entries[k].done then Repaired(s.resp, t, k, funded) else t == s.resp
  {
    ReachableInv(env, s);
    hide SystemInv, FindMessage, Repaired, HostModel.EnterRepair;
    if k in s.resp.entries {
      LiveEntry(env, s, k);
      EnterRepairRepairs(s.resp, k, funded);
    }
  }

  /** AGG_MISS repairs its offset exactly if that is neither committed nor repairing. */
  lemma MissRepairs(env: Env, s: System, k: nat, funded: bool)
    requires EnvOk(env) && Reachable(env, s)
    ensures var t := HostModel.OnAggMiss(s.resp, k, funded);
            if k in s.resp.entries && !s.resp.entries[k].committed && !s.resp.entries[k].repairMode
            then Repaired(s.resp, t, k, funded) else t == s.resp
  {
    ReachableInv(env, s);
    if k in s.resp.entries {
      LiveEntry(env, s, k);
      DoneIsCommitted(env, s, k);
      hide SystemInv, FindMessage, Repaired, HostModel.EnterRepair;
      EnterRepairRepairs(s.resp, k, funded);
    }
  }

  lemma DoneIsCommitted(env: Env, s: System, k: nat)
    requires SystemInv(env, s) && k in s.resp.entries
    ensures s.resp.entries[k].done ==> s.resp.entries[k].committed
  {
    hide GlobalInv, ReqsInv, MessagesInv, BindingInv, FirstSendInv, HostCounting.OutstandingInv, HostCounting.DoneInv;
    assert EntryInv(env, s.resp.entries[k]);
  }
}

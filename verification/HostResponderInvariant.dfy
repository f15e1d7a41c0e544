/** What every step of the responder keeps, on its own state. */
module HostResponderInvariant {
  import opened Prelude
  import opened HostModel
  import opened HostPlan
  import opened HostCounting

  // ---------------------------------------------------------- the predicates

  ghost predicate MessageInv(env: Env, m: RespMessage, st: nat, submitted: nat)
    requires submitted <= |env.plan|
  {
    && m.start == st && m.id < submitted && st == Start(env.plan, m.id)
    && m.total == env.plan[m.id].total && m.pull == env.plan[m.id].pull
    && |m.reg| == env.nsub && (forall j :: 0 <= j < env.nsub ==> m.reg[j] <= Full(env))
    && m.endAck <= Full(env)
  }

  /** Message `i` of the plan was submitted and has been forgotten again. */
  ghost predicate Finished(env: Env, messages: map<nat, RespMessage>, submitted: nat, i: nat)
    requires submitted <= |env.plan|
  {
    i < submitted && Start(env.plan, i) !in messages
  }

  ghost predicate MessagesInv(env: Env, messages: map<nat, RespMessage>, submitted: nat, nextSeq: nat,
                              creditNext: nat) {
    && EnvOk(env)
    && submitted <= |env.plan| && nextSeq == Start(env.plan, submitted)
    && creditNext <= nextSeq
    && (forall st :: st in messages ==> MessageInv(env, messages[st], st, submitted))
    && (forall i: nat :: Finished(env, messages, submitted, i) ==> Start(env.plan, i + 1) <= creditNext)
  }

  ghost predicate Live(messages: map<nat, RespMessage>, k: nat) {
    exists st :: st in messages && Covers(st, messages[st].total, k)
  }

  ghost predicate EntryInv(env: Env, e: Entry) {
    && e.sub < env.nsub && e.bitmap <= Full(env)
    && (e.committed ==> e.hasPayload) && (e.boundBy.Some? ==> e.committed)
    && (e.done ==> e.committed && e.bitmap == Full(env))
  }

  ghost predicate EntriesInv(env: Env, messages: map<nat, RespMessage>, entries: map<nat, Entry>, creditNext: nat) {
    && (forall k :: k in entries ==> k < creditNext && EntryInv(env, entries[k]) && Live(messages, k))
    && (forall k: nat :: k < creditNext && Live(messages, k) ==> k in entries)
  }

  ghost predicate Rides(entries: map<nat, Entry>, k: nat, p: nat) {
    k in entries && entries[k].boundPayload == Some(p)
  }

  ghost predicate RiddenBy(entries: map<nat, Entry>, p: nat, k: nat) {
    p in entries && entries[p].boundBy == Some(k)
  }

  ghost predicate BoundTo(binding: map<nat, nat>, k: nat, p: nat) {
    k in binding && binding[k] == p
  }

  /** boundPayload and boundBy are inverse to each other on live entries, and
      agree with the binding recorded when the credit was issued. */
  ghost predicate BindingInv(entries: map<nat, Entry>, binding: map<nat, nat>, creditNext: nat) {
    && (forall k: nat, p: nat :: Rides(entries, k, p) ==>
        BoundTo(binding, k, p) && (p in entries ==> RiddenBy(entries, p, k)))
    && (forall k: nat, p: nat :: RiddenBy(entries, p, k) ==> BoundTo(binding, k, p))
    && (forall k: nat, p: nat :: BoundTo(binding, k, p) ==>
          k < creditNext && p < creditNext && (k in entries && p in entries ==> Rides(entries, k, p)))
  }

  ghost predicate CommittedEver(entries: map<nat, Entry>, creditNext: nat, p: nat) {
    p < creditNext && (p in entries ==> entries[p].committed)
  }

  /** Every committed payload has been first-sent once, or waits once in the queue. */
  ghost predicate FirstSendInv(entries: map<nat, Entry>, creditNext: nat, pending: seq<nat>, firstSent: multiset<nat>) {
    && (forall p: nat :: firstSent[p] + multiset(pending)[p] == if CommittedEver(entries, creditNext, p) then 1 else 0)
    && (forall p :: p in pending ==> p in entries && entries[p].boundBy.None?)
  }

  ghost predicate RespInv(env: Env, s: Resp) {
    && !s.aborted && |s.subOut| == env.nsub
    && MessagesInv(env, s.messages, s.submitted, s.nextSeq, s.creditNext)
    && EntriesInv(env, s.messages, s.entries, s.creditNext)
    && BindingInv(s.entries, s.binding, s.creditNext)
    && FirstSendInv(s.entries, s.creditNext, s.pending, s.firstSent)
    && OutstandingInv(s.entries, s.outstanding, s.subOut)
    && DoneInv(s.entries, s.messages)
  }

  // ----------------------------------------------------- the message layout

  /** An offset has one owner among the live messages. */
  lemma OwnerUnique(env: Env, messages: map<nat, RespMessage>, submitted: nat, a: nat, b: nat, o: nat)
    requires EnvOk(env) && submitted <= |env.plan| && a in messages && b in messages
    requires MessageInv(env, messages[a], a, submitted) && MessageInv(env, messages[b], b, submitted)
    requires Covers(a, messages[a].total, o) && Covers(b, messages[b].total, o)
    ensures a == b
  {
    PlanDisjoint(env, messages[a].id, messages[b].id, o);
  }

  lemma FoundIs(env: Env, messages: map<nat, RespMessage>, submitted: nat, nextSeq: nat, creditNext: nat, st: nat,
                o: nat)
    requires MessagesInv(env, messages, submitted, nextSeq, creditNext)
    requires st in messages && Covers(st, messages[st].total, o)
    ensures FindMessage(messages, o) == Some(st)
  {
    OwnerUnique(env, messages, submitted, st, FindMessage(messages, o).value, o);
  }

  lemma MessageEnd(env: Env, messages: map<nat, RespMessage>, submitted: nat, nextSeq: nat, creditNext: nat, st: nat)
    requires MessagesInv(env, messages, submitted, nextSeq, creditNext) && st in messages
    ensures st + messages[st].total <= nextSeq
  {
    StartMonotone(env.plan, messages[st].id, submitted);
  }

  // ------------------------------------------------------ rewriting one part

  ghost predicate SameIdentity(env: Env, a: RespMessage, b: RespMessage) {
    && b.id == a.id && b.start == a.start && b.total == a.total && b.pull == a.pull
    && |b.reg| == env.nsub && (forall j :: 0 <= j < env.nsub ==> b.reg[j] <= Full(env))
    && b.endAck <= Full(env)
  }

  lemma MessageRewritten(env: Env, messages: map<nat, RespMessage>, submitted: nat, nextSeq: nat, creditNext: nat,
                         st: nat, m: RespMessage)
    requires MessagesInv(env, messages, submitted, nextSeq, creditNext)
    requires st in messages && SameIdentity(env, messages[st], m)
    ensures MessagesInv(env, messages[st := m], submitted, nextSeq, creditNext)
  {
    var messages' := messages[st := m];
    forall i: nat | Finished(env, messages', submitted, i) ensures Start(env.plan, i + 1) <= creditNext {
      assert Finished(env, messages, submitted, i);
    }
  }

  lemma LayoutKept(messages: map<nat, RespMessage>, st: nat, m: RespMessage, k: nat)
    requires st in messages && m.total == messages[st].total
    ensures Live(messages[st := m], k) <==> Live(messages, k)
  {
    if Live(messages, k) {
      var x :| x in messages && Covers(x, messages[x].total, k);
      assert x in messages[st := m] && Covers(x, messages[st := m][x].total, k);
    }
    if Live(messages[st := m], k) {
      var x :| x in messages[st := m] && Covers(x, messages[st := m][x].total, k);
      assert x in messages && Covers(x, messages[x].total, k);
    }
  }

  lemma EntriesUnderRewrittenMessage(env: Env, messages: map<nat, RespMessage>, entries: map<nat, Entry>,
                                     creditNext: nat, st: nat, m: RespMessage)
    requires EntriesInv(env, messages, entries, creditNext)
    requires st in messages && m.total == messages[st].total
    ensures EntriesInv(env, messages[st := m], entries, creditNext)
  {
    forall k: nat ensures Live(messages[st := m], k) <==> Live(messages, k) {
      LayoutKept(messages, st, m, k);
    }
  }

  /** Rewriting a message without touching its identity or its done counter. */
  lemma MessageOnlyKeeps(env: Env, s: Resp, s': Resp, st: nat, m: RespMessage)
    requires RespInv(env, s) && st in s.messages
    requires SameIdentity(env, s.messages[st], m) && m.done == s.messages[st].done
    requires s' == s.(messages := s.messages[st := m], sent := s'.sent)
    ensures RespInv(env, s')
  {
    MessageRewritten(env, s.messages, s.submitted, s.nextSeq, s.creditNext, st, m);
    EntriesUnderRewrittenMessage(env, s.messages, s.entries, s.creditNext, st, m);
  }

  lemma EntryRewritten(env: Env, messages: map<nat, RespMessage>, entries: map<nat, Entry>, creditNext: nat, k: nat,
                       e: Entry)
    requires EntriesInv(env, messages, entries, creditNext)
    requires k in entries && EntryInv(env, e)
    ensures EntriesInv(env, messages, entries[k := e], creditNext)
  {
  }

  /** Rewriting an entry that is not being finished. */
  lemma EntryOnlyKeeps(env: Env, s: Resp, s': Resp, k: nat, e: Entry)
    requires RespInv(env, s) && k in s.entries
    requires EntryInv(env, e) && e.sub == s.entries[k].sub && e.done == s.entries[k].done
    requires s' == s.(entries := s.entries[k := e], sent := s'.sent, pending := s'.pending, binding := s'.binding,
                      firstSent := s'.firstSent)
    requires BindingInv(s'.entries, s'.binding, s'.creditNext)
    requires FirstSendInv(s'.entries, s'.creditNext, s'.pending, s'.firstSent)
    ensures RespInv(env, s')
  {
    hide MessagesInv, EntriesInv, BindingInv, FirstSendInv, OutstandingInv, DoneInv;
    assert EntriesInv(env, s.messages, s'.entries, s.creditNext) by {
      EntryRewritten(env, s.messages, s.entries, s.creditNext, k, e);
    }
    assert OutstandingInv(s'.entries, s.outstanding, s.subOut) && DoneInv(s'.entries, s.messages) by {
      ProgressKept(s.entries, s'.entries, s.outstanding, s.subOut, s.messages);
    }
  }

  // ------------------------------------------------------------- the steps

  lemma SubmitKeepsMessages(env: Env, s: Resp)
    requires MessagesInv(env, s.messages, s.submitted, s.nextSeq, s.creditNext) && s.submitted < |env.plan|
    ensures var t := SubmitResp(env, s); MessagesInv(env, t.messages, t.submitted, t.nextSeq, t.creditNext)
    ensures s.nextSeq !in s.messages
  {
    var t := SubmitResp(env, s);
    forall x | x in s.messages ensures x < s.nextSeq {
      MessageEnd(env, s.messages, s.submitted, s.nextSeq, s.creditNext, x);
    }
    forall i: nat | Finished(env, t.messages, t.submitted, i) ensures Start(env.plan, i + 1) <= t.creditNext {
      assert Finished(env, s.messages, s.submitted, i);
    }
  }

  lemma EntriesUnderNewMessage(env: Env, messages: map<nat, RespMessage>, entries: map<nat, Entry>, creditNext: nat,
                               st: nat, m: RespMessage)
    requires EntriesInv(env, messages, entries, creditNext) && creditNext <= st && st !in messages
    ensures EntriesInv(env, messages[st := m], entries, creditNext)
  {
    forall k: nat | k < creditNext ensures Live(messages[st := m], k) <==> Live(messages, k) {
      if Live(messages, k) {
        var x :| x in messages && Covers(x, messages[x].total, k);
        assert x in messages[st := m] && Covers(x, messages[st := m][x].total, k);
      }
      if Live(messages[st := m], k) {
        var x :| x in messages[st := m] && Covers(x, messages[st := m][x].total, k);
        assert x != st;
        assert x in messages && Covers(x, messages[x].total, k);
      }
    }
  }

  lemma DoneUnderNewMessage(entries: map<nat, Entry>, messages: map<nat, RespMessage>, st: nat, m: RespMessage)
    requires DoneInv(entries, messages) && st !in messages && m.done == 0
    requires forall k :: k in entries ==> k < st
    ensures DoneInv(entries, messages[st := m])
  {
    var messages' := messages[st := m];
    forall x | x in messages' ensures messages'[x].done == |DoneIn(entries, x, messages'[x].total)| {
      if x == st {
        assert DoneIn(entries, x, messages'[x].total) == {};
      } else {
        assert messages[x].done == |DoneIn(entries, x, messages[x].total)|;
      }
    }
  }

  lemma SubmitKeepsEntries(env: Env, s: Resp)
    requires RespInv(env, s) && s.submitted < |env.plan| && s.nextSeq !in s.messages
    ensures var t := SubmitResp(env, s);
            EntriesInv(env, t.messages, t.entries, t.creditNext) && DoneInv(t.entries, t.messages)
  {
    hide BindingInv, FirstSendInv, OutstandingInv, DoneInv;
    var m := SubmitResp(env, s).messages[s.nextSeq];
    EntriesUnderNewMessage(env, s.messages, s.entries, s.creditNext, s.nextSeq, m);
    DoneUnderNewMessage(s.entries, s.messages, s.nextSeq, m);
  }

  lemma SubmitKeeps(env: Env, s: Resp)
    requires RespInv(env, s) && s.submitted < |env.plan|
    ensures RespInv(env, SubmitResp(env, s))
  {
    SubmitKeepsMessages(env, s);
    SubmitKeepsEntries(env, s);
  }

  /** The offset at the credit cursor has no entry yet, and belongs to a live message. */
  lemma CursorIsFresh(env: Env, s: Resp, pick: nat)
    requires RespInv(env, s) && CanIssue(env, s, pick)
    ensures s.creditNext !in s.entries && s.creditNext !in s.binding && s.creditNext < s.nextSeq
    ensures s.creditNext !in s.pending
  {
    MessageEnd(env, s.messages, s.submitted, s.nextSeq, s.creditNext, FindMessage(s.messages, s.creditNext).value);
    if s.creditNext in s.binding {
      assert BoundTo(s.binding, s.creditNext, s.binding[s.creditNext]);
    }
  }

  lemma FirstSendUnderNewEntry(entries: map<nat, Entry>, k: nat, e: Entry, pending: seq<nat>, firstSent: multiset<nat>)
    requires FirstSendInv(entries, k, pending, firstSent) && k !in entries && !e.committed
    ensures FirstSendInv(entries[k := e], k + 1, pending, firstSent)
  {
    forall p: nat ensures CommittedEver(entries[k := e], k + 1, p) <==> CommittedEver(entries, k, p) {
    }
  }

  lemma BindingUnderNewEntry(entries: map<nat, Entry>, binding: map<nat, nat>, k: nat, e: Entry)
    requires BindingInv(entries, binding, k) && k !in entries && k !in binding
    requires e.boundPayload.None? && e.boundBy.None?
    ensures BindingInv(entries[k := e], binding, k + 1)
  {
    var es := entries[k := e];
    forall c: nat, p: nat ensures Rides(es, c, p) <==> Rides(entries, c, p) {}
    forall c: nat, p: nat ensures RiddenBy(es, p, c) <==> RiddenBy(entries, p, c) {}
  }

  lemma ReserveKeepsMessages(env: Env, s: Resp, pick: nat)
    requires RespInv(env, s) && CanIssue(env, s, pick) && s.creditNext < s.nextSeq
    ensures var t := Reserve(env, s, pick); MessagesInv(env, t.messages, t.submitted, t.nextSeq, t.creditNext)
  {
    var st := FindMessage(s.messages, s.creditNext).value;
    var t := Reserve(env, s, pick);
    MessageRewritten(env, s.messages, s.submitted, s.nextSeq, s.creditNext, st, t.messages[st]);
  }

  lemma ReserveKeepsEntries(env: Env, s: Resp, pick: nat)
    requires RespInv(env, s) && CanIssue(env, s, pick)
    ensures var t := Reserve(env, s, pick); EntriesInv(env, t.messages, t.entries, t.creditNext)
  {
    hide MessagesInv, BindingInv, FirstSendInv, OutstandingInv, DoneInv;
    var t := Reserve(env, s, pick);
    var k, st := s.creditNext, FindMessage(s.messages, s.creditNext).value;
    EntriesUnderRewrittenMessage(env, s.messages, s.entries, k, st, t.messages[st]);
    LayoutKept(s.messages, st, t.messages[st], k);
  }

  lemma ReserveKeepsCounts(env: Env, s: Resp, pick: nat)
    requires RespInv(env, s) && CanIssue(env, s, pick) && s.creditNext !in s.entries
    ensures var t := Reserve(env, s, pick);
            OutstandingInv(t.entries, t.outstanding, t.subOut) && DoneInv(t.entries, t.messages)
  {
    var t := Reserve(env, s, pick);
    var k, st := s.creditNext, FindMessage(s.messages, s.creditNext).value;
    var e := FreshEntry(pick);
    CreditAdded(s.entries, k, e, s.outstanding, s.subOut);
    CreditAddedDone(s.entries, k, e, t.messages);
  }

  lemma ReserveKeepsSends(env: Env, s: Resp, pick: nat)
    requires RespInv(env, s) && CanIssue(env, s, pick) && s.creditNext !in s.entries && s.creditNext !in s.binding
    ensures var t := Reserve(env, s, pick);
            BindingInv(t.entries, t.binding, t.creditNext)
                && FirstSendInv(t.entries, t.creditNext, t.pending, t.firstSent)
  {
    hide CanIssue, MessagesInv, EntriesInv, BindingInv, FirstSendInv, OutstandingInv, DoneInv, FindMessage;
    BindingUnderNewEntry(s.entries, s.binding, s.creditNext, FreshEntry(pick));
    FirstSendUnderNewEntry(s.entries, s.creditNext, FreshEntry(pick), s.pending, s.firstSent);
  }

  lemma ReserveIsFresh(env: Env, s: Resp, pick: nat)
    requires RespInv(env, s) && CanIssue(env, s, pick)
    ensures var t := Reserve(env, s, pick); Fresh(t, s.creditNext) && !t.aborted && |t.subOut| == env.nsub
  {
    CursorIsFresh(env, s, pick);
  }

  lemma ReserveKeeps(env: Env, s: Resp, pick: nat)
    requires RespInv(env, s) && CanIssue(env, s, pick)
    ensures RespInv(env, Reserve(env, s, pick)) && Fresh(Reserve(env, s, pick), s.creditNext)
  {
    hide Reserve, Fresh, CanIssue, FindMessage, MessagesInv, EntriesInv, BindingInv, FirstSendInv, OutstandingInv,
         DoneInv;
    CursorIsFresh(env, s, pick);
    ReserveKeepsMessages(env, s, pick);
    ReserveKeepsEntries(env, s, pick);
    ReserveKeepsCounts(env, s, pick);
    ReserveKeepsSends(env, s, pick);
    ReserveIsFresh(env, s, pick);
  }

  /** A freshly reserved entry: nothing is known about it yet. */
  ghost predicate Fresh(s: Resp, k: nat) {
    && k in s.entries && k < s.creditNext && k !in s.binding && k !in s.pending
    && !s.entries[k].committed && !s.entries[k].done && s.entries[k].bitmap == {}
    && s.entries[k].boundPayload == None && s.entries[k].boundBy == None
  }

  lemma PushSelfSends(entries: map<nat, Entry>, k: nat, e: Entry, creditNext: nat, pending: seq<nat>,
                      firstSent: multiset<nat>)
    requires FirstSendInv(entries, creditNext, pending, firstSent)
    requires k in entries && k < creditNext && !entries[k].committed && e.committed && k !in pending
    ensures FirstSendInv(entries[k := e], creditNext, pending, firstSent + multiset{k})
  {
    forall p: nat ensures CommittedEver(entries[k := e], creditNext, p) <==>
      p == k || CommittedEver(entries, creditNext, p) {
    }
    assert !CommittedEver(entries, creditNext, k);
  }

  lemma BindSelf(entries: map<nat, Entry>, binding: map<nat, nat>, creditNext: nat, k: nat, e: Entry)
    requires BindingInv(entries, binding, creditNext)
    requires k in entries && k !in binding && k < creditNext && entries[k].boundPayload == None
             && entries[k].boundBy == None
    requires e.boundPayload == Some(k) && e.boundBy == Some(k)
    ensures BindingInv(entries[k := e], binding[k := k], creditNext)
  {
    var es, b := entries[k := e], binding[k := k];
    forall c: nat, p: nat ensures Rides(es, c, p) <==> (Rides(entries, c, p) || c == p == k) {}
    forall c: nat, p: nat ensures RiddenBy(es, p, c) <==> (RiddenBy(entries, p, c) || c == p == k) {}
    forall c: nat, p: nat ensures BoundTo(b, c, p) <==> (BoundTo(binding, c, p) || c == p == k) {}
    forall c: nat | BoundTo(binding, c, k) && c in entries ensures RiddenBy(entries, k, c) {
      assert Rides(entries, c, k);
    }
  }

  lemma PushSelfKeeps(env: Env, s: Resp, k: nat)
    requires RespInv(env, s) && Fresh(s, k)
    ensures RespInv(env, PushSelf(s, k))
  {
    var t := PushSelf(s, k);
    PushSelfSends(s.entries, k, t.entries[k], s.creditNext, s.pending, s.firstSent);
    BindSelf(s.entries, s.binding, s.creditNext, k, t.entries[k]);
    EntryOnlyKeeps(env, s, t, k, t.entries[k]);
  }

  lemma PendingHead(entries: map<nat, Entry>, creditNext: nat, pending: seq<nat>, firstSent: multiset<nat>)
    requires FirstSendInv(entries, creditNext, pending, firstSent) && pending != []
    ensures var p := pending[0];
            && p in entries && p < creditNext && entries[p].committed && entries[p].boundBy == None
               && p !in pending[1..]
            && multiset(pending) == multiset(pending[1..]) + multiset{p}
  {
    var p := pending[0];
    assert pending == [p] + pending[1..];
    assert multiset(pending)[p] > 0;
    assert CommittedEver(entries, creditNext, p);
  }

  /** Sending the head of the queue for the first time, whether or not it is bound on the way. */
  lemma HeadSent(entries: map<nat, Entry>, entries': map<nat, Entry>, creditNext: nat, pending: seq<nat>,
                 firstSent: multiset<nat>)
    requires FirstSendInv(entries, creditNext, pending, firstSent) && pending != []
    requires entries'.Keys == entries.Keys && forall x :: x in entries ==> entries'[x].committed == entries[x].committed
    requires forall x :: x in entries && x != pending[0] ==> entries'[x].boundBy == entries[x].boundBy
    ensures FirstSendInv(entries', creditNext, pending[1..], firstSent + multiset{pending[0]})
  {
    PendingHead(entries, creditNext, pending, firstSent);
    forall x: nat ensures CommittedEver(entries', creditNext, x) <==> CommittedEver(entries, creditNext, x) {
    }
  }

  lemma BindPayload(entries: map<nat, Entry>, binding: map<nat, nat>, creditNext: nat, k: nat, p: nat)
    requires BindingInv(entries, binding, creditNext)
    requires k in entries && k !in binding && entries[k].boundPayload == None && k < creditNext
    requires p in entries && p != k && entries[p].boundBy == None && p < creditNext
    ensures BindingInv(BindEntries(entries, k, p), binding[k := p], creditNext)
  {
    var es, b := BindEntries(entries, k, p), binding[k := p];
    forall c: nat, x: nat ensures Rides(es, c, x) <==> (Rides(entries, c, x) || (c == k && x == p)) {}
    forall c: nat, x: nat ensures RiddenBy(es, x, c) <==> (RiddenBy(entries, x, c) || (c == k && x == p)) {}
    forall c: nat, x: nat ensures BoundTo(b, c, x) <==> (BoundTo(binding, c, x) || (c == k && x == p)) {}
    forall c: nat | BoundTo(binding, c, p) && c in entries ensures RiddenBy(entries, p, c) {
      assert Rides(entries, c, p);
    }
  }

  /** The head of the queue has an owner, so a piggyback never aborts. */
  lemma HeadHasOwner(env: Env, s: Resp)
    requires RespInv(env, s) && s.pending != []
    ensures s.pending[0] in s.entries && FindMessage(s.messages, s.pending[0]).Some?
  {
    hide MessagesInv, BindingInv, OutstandingInv, DoneInv;
    PendingHead(s.entries, s.creditNext, s.pending, s.firstSent);
    assert Live(s.messages, s.pending[0]);
  }

  function BindEntries(entries: map<nat, Entry>, k: nat, p: nat): map<nat, Entry>
    requires k in entries && p in entries
  {
    var bound := entries[k := entries[k].(boundPayload := Some(p))];
    bound[p := bound[p].(boundBy := Some(k))]
  }

  lemma BoundEntries(env: Env, messages: map<nat, RespMessage>, entries: map<nat, Entry>, creditNext: nat, k: nat,
                     p: nat)
    requires EntriesInv(env, messages, entries, creditNext) && k in entries && p in entries && entries[p].committed
    ensures EntriesInv(env, messages, BindEntries(entries, k, p), creditNext)
    ensures SameProgress(entries, BindEntries(entries, k, p))
  {
    hide Live;
    var bound := entries[k := entries[k].(boundPayload := Some(p))];
    EntryRewritten(env, messages, entries, creditNext, k, bound[k]);
    EntryRewritten(env, messages, bound, creditNext, p, BindEntries(entries, k, p)[p]);
  }

  lemma PiggybackKeeps(env: Env, s: Resp, k: nat)
    requires RespInv(env, s) && Fresh(s, k) && s.pending != []
    ensures RespInv(env, Piggyback(s, k))
  {
    hide MessagesInv, EntriesInv, BindingInv, FirstSendInv, OutstandingInv, DoneInv, FindMessage;
    HeadHasOwner(env, s);
    PendingHead(s.entries, s.creditNext, s.pending, s.firstSent);
    var p := s.pending[0];
    BoundEntries(env, s.messages, s.entries, s.creditNext, k, p);
    BindPayload(s.entries, s.binding, s.creditNext, k, p);
    HeadSent(s.entries, BindEntries(s.entries, k, p), s.creditNext, s.pending, s.firstSent);
    ProgressKept(s.entries, BindEntries(s.entries, k, p), s.outstanding, s.subOut, s.messages);
  }

  lemma IssueOneKeeps(env: Env, s: Resp, pick: nat)
    requires RespInv(env, s) && CanIssue(env, s, pick)
    ensures RespInv(env, IssueOne(env, s, pick))
  {
    ReserveKeeps(env, s, pick);
    CursorIsFresh(env, s, pick);
    var t := Reserve(env, s, pick);
    var k := s.creditNext;
    var m := s.messages[FindMessage(s.messages, k).value];
    if !m.pull {
      PushSelfKeeps(env, t, k);
    } else if env.piggyback && s.pending != [] {
      PiggybackKeeps(env, t, k);
    } else {
    }
  }

  lemma {:induction false} IssueAllKeeps(env: Env, s: Resp, picks: seq<nat>)
    requires RespInv(env, s) && Issuable(env, s, picks)
    ensures RespInv(env, IssueAll(env, s, picks))
    decreases |picks|
  {
    hide RespInv, CanIssue;
    if picks != [] {
      IssueOneKeeps(env, s, picks[0]);
      IssueAllKeeps(env, IssueOne(env, s, picks[0]), picks[1..]);
    }
  }

  /** Rewriting an entry without touching what it is bound to. */
  lemma BindingUntouched(entries: map<nat, Entry>, binding: map<nat, nat>, creditNext: nat, k: nat, e: Entry)
    requires BindingInv(entries, binding, creditNext) && k in entries
    requires e.boundPayload == entries[k].boundPayload && e.boundBy == entries[k].boundBy
    ensures BindingInv(entries[k := e], binding, creditNext)
  {
    var es := entries[k := e];
    forall c: nat, p: nat ensures Rides(es, c, p) <==> Rides(entries, c, p) {}
    forall c: nat, p: nat ensures RiddenBy(es, p, c) <==> RiddenBy(entries, p, c) {}
  }

  lemma FirstSendUntouched(entries: map<nat, Entry>, creditNext: nat, pending: seq<nat>, firstSent: multiset<nat>,
                           k: nat, e: Entry)
    requires FirstSendInv(entries, creditNext, pending, firstSent) && k in entries
    requires e.committed == entries[k].committed && e.boundBy == entries[k].boundBy
    ensures FirstSendInv(entries[k := e], creditNext, pending, firstSent)
  {
    forall p: nat ensures CommittedEver(entries[k := e], creditNext, p) <==> CommittedEver(entries, creditNext, p) {}
  }

  /** The live message of an entry is the only one covering it. */
  lemma OwnerOf(env: Env, s: Resp, k: nat)
    requires RespInv(env, s) && k in s.entries
    ensures FindMessage(s.messages, k).Some?
    ensures forall x :: x in s.messages ==> (Covers(x, s.messages[x].total, k) <==>
                                             Some(x) == FindMessage(s.messages, k))
  {
    hide BindingInv, FirstSendInv, OutstandingInv, DoneInv;
    assert Live(s.messages, k);
    forall x | x in s.messages && Covers(x, s.messages[x].total, k) ensures Some(x) == FindMessage(s.messages, k) {
      FoundIs(env, s.messages, s.submitted, s.nextSeq, s.creditNext, x, k);
    }
  }

  lemma FinishedParts(env: Env, s: Resp, k: nat, st: nat)
    requires RespInv(env, s) && k in s.entries && Finishable(env, s, k) && st in s.messages
    ensures EntryInv(env, s.entries[k].(done := true)) && s.entries[k].sub < env.nsub
    ensures SameIdentity(env, s.messages[st], s.messages[st].(done := s.messages[st].done + 1))
  {
    hide BindingInv, FirstSendInv, OutstandingInv, DoneInv;
    assert EntryInv(env, s.entries[k]) && MessageInv(env, s.messages[st], st, s.submitted);
  }

  lemma MarkDoneKeepsCounts(env: Env, s: Resp, k: nat)
    requires RespInv(env, s) && k in s.entries && Finishable(env, s, k) && FindMessage(s.messages, k).Some?
    ensures var t := MarkDone(env, s, k);
            !t.aborted && |t.subOut| == env.nsub && OutstandingInv(t.entries, t.outstanding, t.subOut)
                && DoneInv(t.entries, t.messages)
  {
    hide MessagesInv, EntriesInv, BindingInv, FirstSendInv, OutstandingInv, DoneInv, FindMessage, EntryInv,
         SameIdentity;
    var e := s.entries[k].(done := true);
    OwnerOf(env, s, k);
    var st := FindMessage(s.messages, k).value;
    var m := s.messages[st].(done := s.messages[st].done + 1);
    FinishedParts(env, s, k, st);
    CreditDone(s.entries, k, e, s.outstanding, s.subOut);
    CreditDoneCounted(s.entries, k, e, s.messages, st, m);
  }

  lemma MarkDoneKeepsTables(env: Env, s: Resp, k: nat)
    requires RespInv(env, s) && k in s.entries && Finishable(env, s, k) && FindMessage(s.messages, k).Some?
             && s.outstanding > 0
    ensures var t := MarkDone(env, s, k);
            && MessagesInv(env, t.messages, t.submitted, t.nextSeq, t.creditNext)
            && EntriesInv(env, t.messages, t.entries, t.creditNext)
  {
    hide MessagesInv, EntriesInv, BindingInv, FirstSendInv, OutstandingInv, DoneInv, FindMessage, EntryInv,
         SameIdentity;
    var e := s.entries[k].(done := true);
    var st := FindMessage(s.messages, k).value;
    var m := s.messages[st].(done := s.messages[st].done + 1);
    FinishedParts(env, s, k, st);
    MessageRewritten(env, s.messages, s.submitted, s.nextSeq, s.creditNext, st, m);
    EntriesUnderRewrittenMessage(env, s.messages, s.entries, s.creditNext, st, m);
    EntryRewritten(env, s.messages[st := m], s.entries, s.creditNext, k, e);
  }

  lemma MarkDoneKeeps(env: Env, s: Resp, k: nat)
    requires RespInv(env, s) && k in s.entries
    ensures RespInv(env, MarkDone(env, s, k))
  {
    hide MessagesInv, EntriesInv, BindingInv, FirstSendInv, OutstandingInv, DoneInv, FindMessage;
    if Finishable(env, s, k) {
      var e := s.entries[k].(done := true);
      OwnerOf(env, s, k);
      MarkDoneKeepsCounts(env, s, k);
      MarkDoneKeepsTables(env, s, k);
      BindingUntouched(s.entries, s.binding, s.creditNext, k, e);
      FirstSendUntouched(s.entries, s.creditNext, s.pending, s.firstSent, k, e);
    }
  }

  lemma SetBitmapKeeps(env: Env, s: Resp, k: nat, b: set<nat>)
    requires RespInv(env, s) && k in s.entries && s.entries[k].bitmap <= b <= Full(env)
    ensures RespInv(env, SetBitmap(s, k, b))
  {
    hide MessagesInv, BindingInv, FirstSendInv, OutstandingInv, DoneInv, Live;
    var e := s.entries[k].(bitmap := b);
    assert EntryInv(env, e) by { assert EntryInv(env, s.entries[k]); }
    hide EntriesInv, EntryInv;
    BindingUntouched(s.entries, s.binding, s.creditNext, k, e);
    FirstSendUntouched(s.entries, s.creditNext, s.pending, s.firstSent, k, e);
    EntryOnlyKeeps(env, s, SetBitmap(s, k, b), k, e);
  }

  lemma CommitQueues(entries: map<nat, Entry>, creditNext: nat, pending: seq<nat>, firstSent: multiset<nat>, k: nat,
                     e: Entry)
    requires FirstSendInv(entries, creditNext, pending, firstSent)
    requires k in entries && k < creditNext && !entries[k].committed && e.committed && e.boundBy.None?
    ensures FirstSendInv(entries[k := e], creditNext, pending + [k], firstSent)
  {
    assert !CommittedEver(entries, creditNext, k);
    assert multiset(pending + [k]) == multiset(pending) + multiset{k};
    forall p: nat ensures CommittedEver(entries[k := e], creditNext, p) <==>
      p == k || CommittedEver(entries, creditNext, p) {}
  }

  lemma MarkCommittedKeeps(env: Env, s: Resp, k: nat)
    requires RespInv(env, s) && k in s.entries && !s.entries[k].committed
    ensures RespInv(env, MarkCommitted(s, k))
  {
    var e := s.entries[k].(committed := true, hasPayload := true);
    assert EntryInv(env, e) && EntryInv(env, s.entries[k]);
    BindingUntouched(s.entries, s.binding, s.creditNext, k, e);
    CommitQueues(s.entries, s.creditNext, s.pending, s.firstSent, k, e);
    EntryOnlyKeeps(env, s, MarkCommitted(s, k), k, e);
  }

  lemma FlushOneKeeps(env: Env, s: Resp)
    requires RespInv(env, s) && s.pending != []
    ensures RespInv(env, FlushOne(s))
  {
    hide MessagesInv, EntriesInv, BindingInv, FirstSendInv, OutstandingInv, DoneInv, FindMessage;
    HeadHasOwner(env, s);
    HeadSent(s.entries, s.entries, s.creditNext, s.pending, s.firstSent);
  }

  lemma {:induction false} FlushAllKeeps(env: Env, s: Resp)
    requires RespInv(env, s)
    ensures RespInv(env, FlushAll(s)) && FlushAll(s).pending == []
    decreases |s.pending|
  {
    hide RespInv;
    if s.pending != [] {
      FlushOneKeeps(env, s);
      FlushAllKeeps(env, FlushOne(s));
    }
  }

  lemma StartEndKeeps(env: Env, s: Resp, st: nat)
    requires RespInv(env, s)
    ensures RespInv(env, StartEnd(s, st))
  {
    hide EntriesInv, BindingInv, FirstSendInv, OutstandingInv, DoneInv;
    if st in s.messages && s.messages[st].done == s.messages[st].total && !s.messages[st].endPending {
      var m := s.messages[st].(endPending := true);
      assert MessageInv(env, s.messages[st], st, s.submitted);
      assert SameIdentity(env, s.messages[st], m);
      MessageOnlyKeeps(env, s, StartEnd(s, st), st, m);
    }
  }

  lemma RecordRegisterKeeps(env: Env, s: Resp, st: nat, sub: nat, rank: nat)
    requires RespInv(env, s) && rank < env.n
    ensures RespInv(env, RecordRegister(env, s, st, sub, rank))
  {
    hide EntriesInv, BindingInv, FirstSendInv, OutstandingInv, DoneInv;
    if st in s.messages && sub < |s.messages[st].reg| {
      var m := s.messages[st];
      var m' := m.(reg := m.reg[sub := m.reg[sub] + {rank}]);
      assert MessageInv(env, m, st, s.submitted);
      assert SameIdentity(env, m, m');
      MessageOnlyKeeps(env, s, RecordRegister(env, s, st, sub, rank), st, m');
    }
  }

  lemma Unbind(entries: map<nat, Entry>, binding: map<nat, nat>, creditNext: nat, k: nat, e: Entry)
    requires BindingInv(entries, binding, creditNext) && k in entries && e.boundBy == entries[k].boundBy
    requires entries[k].boundPayload.Some? && entries[k].boundPayload.value !in entries && e.boundPayload.None?
    ensures BindingInv(entries[k := e], binding, creditNext)
  {
    var es := entries[k := e];
    forall c: nat, p: nat ensures Rides(es, c, p) <==> Rides(entries, c, p) && c != k {}
    forall c: nat, p: nat ensures RiddenBy(es, p, c) <==> RiddenBy(entries, p, c) {}
  }

  lemma EnterRepairKeeps(env: Env, s: Resp, k: nat, funded: bool)
    requires RespInv(env, s) && k in s.entries
    ensures RespInv(env, EnterRepair(s, k, funded))
  {
    var e := s.entries[k];
    var e' := EnterRepair(s, k, funded).entries[k];
    OwnerOf(env, s, k);
    assert EntryInv(env, e) && EntryInv(env, e');
    FirstSendUntouched(s.entries, s.creditNext, s.pending, s.firstSent, k, e');
    if e'.boundPayload == e.boundPayload {
      BindingUntouched(s.entries, s.binding, s.creditNext, k, e');
    } else {
      Unbind(s.entries, s.binding, s.creditNext, k, e');
    }
    hide MessagesInv, EntriesInv, BindingInv, FirstSendInv, OutstandingInv, DoneInv, FindMessage, RespInv;
    EntryOnlyKeeps(env, s, EnterRepair(s, k, funded), k, e');
  }

  /** Replaying the tail only sends, and only payloads no credit carries. */
  lemma {:induction false} ReplayTailSends(s: Resp, p: nat, end: nat, budget: nat)
    requires p <= end
    ensures var t := ReplayTail(s, p, end, budget);
            && t == s.(sent := t.sent) && s.sent <= t.sent
            && forall d :: d in t.sent && d !in s.sent ==>
                 d.Response? && d.repair && d.credit.None? && d.payload.Some? && p <= d.payload.value < end
                 && TailPayload(s, d.payload.value)
    decreases end - p
  {
    if p < end {
      if !TailPayload(s, p) {
        ReplayTailSends(s, p + 1, end, budget);
      } else if budget > 0 {
        ReplayTailSends(Send(s, Response(true, Some(p), None, s.entries[p].sub)), p + 1, end, budget - 1);
      }
    }
  }

  lemma OnEndTimeoutKeeps(env: Env, s: Resp, st: nat, budget: nat)
    requires RespInv(env, s)
    ensures RespInv(env, OnEndTimeout(s, st, budget))
  {
    hide MessagesInv, EntriesInv, BindingInv, FirstSendInv, OutstandingInv, DoneInv;
    if st in s.messages && s.messages[st].endPending {
      ReplayTailSends(s, st, st + s.messages[st].total, budget);
    }
  }

  // ------------------------------------------------------ forgetting a message

  /** All credits of a message whose offsets are all done have been issued. */
  lemma DoneMeansIssued(env: Env, s: Resp, st: nat)
    requires RespInv(env, s) && st in s.messages && s.messages[st].done == s.messages[st].total
    ensures st + s.messages[st].total <= s.creditNext
  {
    hide BindingInv, FirstSendInv, OutstandingInv;
    var m := s.messages[st];
    AllDone(s.entries, st, m.total);
    assert Covers(st, m.total, st + m.total - 1);
  }

  lemma MessageForgotten(env: Env, messages: map<nat, RespMessage>, submitted: nat, nextSeq: nat, creditNext: nat,
                         st: nat)
    requires MessagesInv(env, messages, submitted, nextSeq, creditNext)
    requires st in messages && st + messages[st].total <= creditNext
    ensures MessagesInv(env, messages - {st}, submitted, nextSeq, creditNext)
  {
    var m := messages[st];
    forall i: nat | Finished(env, messages - {st}, submitted, i) ensures Start(env.plan, i + 1) <= creditNext {
      if Start(env.plan, i) in messages {
        if i < m.id { StartMonotone(env.plan, i, m.id); }
        if m.id < i { StartMonotone(env.plan, m.id, i); }
      } else {
        assert Finished(env, messages, submitted, i);
      }
    }
  }

  lemma EraseKeepsMessages(env: Env, s: Resp, st: nat)
    requires RespInv(env, s) && st in s.messages && s.messages[st].done == s.messages[st].total
    ensures var t := Erase(s, st); MessagesInv(env, t.messages, t.submitted, t.nextSeq, t.creditNext)
  {
    hide EntriesInv, BindingInv, FirstSendInv, OutstandingInv, DoneInv;
    DoneMeansIssued(env, s, st);
    MessageForgotten(env, s.messages, s.submitted, s.nextSeq, s.creditNext, st);
  }

  lemma EntriesForgotten(env: Env, messages: map<nat, RespMessage>, messages': map<nat, RespMessage>,
                         entries: map<nat, Entry>,
                         creditNext: nat, gone: set<nat>)
    requires EntriesInv(env, messages, entries, creditNext)
    requires forall k: nat :: Live(messages', k) <==> Live(messages, k) && k !in gone
    ensures EntriesInv(env, messages', entries - gone, creditNext)
  {
    hide Live;
  }

  lemma EraseKeepsEntries(env: Env, s: Resp, st: nat)
    requires RespInv(env, s) && st in s.messages
    ensures var t := Erase(s, st); EntriesInv(env, t.messages, t.entries, t.creditNext)
  {
    hide EntryInv, EntriesInv, BindingInv, FirstSendInv, OutstandingInv, DoneInv;
    var t := Erase(s, st);
    forall k: nat ensures Live(t.messages, k) <==> Live(s.messages, k) && !Covers(st, s.messages[st].total, k) {
      if Live(t.messages, k) {
        var x :| x in t.messages && Covers(x, t.messages[x].total, k);
        assert x in s.messages && Covers(x, s.messages[x].total, k);
        if Covers(st, s.messages[st].total, k) {
          OwnerUnique(env, s.messages, s.submitted, st, x, k);
        }
      }
      if Live(s.messages, k) && !Covers(st, s.messages[st].total, k) {
        var x :| x in s.messages && Covers(x, s.messages[x].total, k);
        assert x in t.messages && Covers(x, t.messages[x].total, k);
      }
    }
    EntriesForgotten(env, s.messages, t.messages, s.entries, s.creditNext, Range(st, s.messages[st].total));
  }

  lemma EraseKeepsBinding(entries: map<nat, Entry>, binding: map<nat, nat>, creditNext: nat, gone: set<nat>)
    requires BindingInv(entries, binding, creditNext)
    ensures BindingInv(entries - gone, binding, creditNext)
  {
    forall k: nat, p: nat ensures Rides(entries - gone, k, p) <==> Rides(entries, k, p) && k !in gone {}
    forall k: nat, p: nat ensures RiddenBy(entries - gone, p, k) <==> RiddenBy(entries, p, k) && p !in gone {}
  }

  lemma EraseKeepsFirstSends(entries: map<nat, Entry>, creditNext: nat, firstSent: multiset<nat>, gone: set<nat>)
    requires FirstSendInv(entries, creditNext, [], firstSent)
    requires forall k :: k in gone && k in entries ==> entries[k].committed
    ensures FirstSendInv(entries - gone, creditNext, [], firstSent)
  {
    forall p: nat ensures CommittedEver(entries - gone, creditNext, p) <==> CommittedEver(entries, creditNext, p) {}
  }

  lemma EraseKeepsCounts(env: Env, s: Resp, st: nat)
    requires RespInv(env, s) && st in s.messages && s.messages[st].done == s.messages[st].total
    ensures var t := Erase(s, st); OutstandingInv(t.entries, t.outstanding, t.subOut) && DoneInv(t.entries, t.messages)
  {
    hide BindingInv, FirstSendInv, OutstandingInv;
    var total := s.messages[st].total;
    AllDone(s.entries, st, total);
    DoneEntriesErased(s.entries, st, total, s.outstanding, s.subOut);
    forall x, o: nat | x in s.messages && x != st && Covers(x, s.messages[x].total, o) ensures !Covers(st, total, o) {
      if Covers(st, total, o) { OwnerUnique(env, s.messages, s.submitted, st, x, o); }
    }
    OtherMessagesKept(s.entries, st, total, s.messages);
  }

  lemma EraseKeeps(env: Env, s: Resp, st: nat)
    requires RespInv(env, s) && st in s.messages && s.pending == [] && s.messages[st].done == s.messages[st].total
    ensures RespInv(env, Erase(s, st))
  {
    var gone := Range(st, s.messages[st].total);
    AllDone(s.entries, st, s.messages[st].total);
    assert forall k :: k in gone && k in s.entries ==> EntryInv(env, s.entries[k]) && s.entries[k].committed;
    hide MessagesInv, EntriesInv, BindingInv, FirstSendInv, OutstandingInv, DoneInv, EntryInv;
    EraseKeepsMessages(env, s, st);
    EraseKeepsEntries(env, s, st);
    EraseKeepsBinding(s.entries, s.binding, s.creditNext, gone);
    EraseKeepsFirstSends(s.entries, s.creditNext, s.firstSent, gone);
    EraseKeepsCounts(env, s, st);
  }

  lemma OnEndAckKeeps(env: Env, s: Resp, st: nat, rank: nat)
    requires RespInv(env, s) && s.pending == [] && rank < env.n
    ensures RespInv(env, OnEndAck(env, s, st, rank))
  {
    if st in s.messages {
      var m := s.messages[st];
      var acked := m.(endAck := m.endAck + {rank});
      if acked.endAck == Full(env) { acked := acked.(endPending := false); }
      assert MessageInv(env, m, st, s.submitted) && SameIdentity(env, m, acked);
      hide MessagesInv, EntriesInv, BindingInv, FirstSendInv, OutstandingInv, DoneInv, SameIdentity;
      var t := s.(messages := s.messages[st := acked]);
      MessageOnlyKeeps(env, s, t, st, acked);
      if acked.endAck == Full(env) && acked.done == acked.total {
        EraseKeeps(env, t, st);
      }
    }
  }

  // ---------------------------------------------------------- whole requests

  lemma ConsumeKeeps(env: Env, s: Resp, k: nat, picks: Picks)
    requires RespInv(env, s) && k in s.entries && ConsumeOk(env, s, k, picks)
    ensures RespInv(env, Consume(env, s, k, picks))
  {
    hide RespInv;
    MarkDoneKeeps(env, s, k);
    IssueAllKeeps(env, MarkDone(env, s, k), if Finishable(env, s, k) then picks.first else []);
  }

  lemma EndCheckKeeps(env: Env, s: Resp, k: nat)
    requires RespInv(env, s)
    ensures RespInv(env, EndCheck(s, k)) && EndCheck(s, k).pending == s.pending
  {
    hide RespInv;
    if FindMessage(s.messages, k).Some? {
      StartEndKeeps(env, s, FindMessage(s.messages, k).value);
    }
  }

  lemma CommitKeeps(env: Env, s: Resp, k: nat, picks: Picks)
    requires RespInv(env, s) && k in s.entries && !s.entries[k].committed && CommitOk(env, s, k, picks)
    ensures RespInv(env, Commit(env, s, k, picks)) && Commit(env, s, k, picks).pending == []
  {
    hide RespInv;
    var c := MarkCommitted(s, k);
    MarkCommittedKeeps(env, s, k);
    ConsumeKeeps(env, c, k, picks);
    var d := Consume(env, c, k, picks);
    IssueAllKeeps(env, d, picks.second);
    FlushAllKeeps(env, IssueAll(env, d, picks.second));
    EndCheckKeeps(env, FlushAll(IssueAll(env, d, picks.second)), k);
  }

  lemma {:induction false} IssueAllNeverQueues(env: Env, s: Resp, picks: seq<nat>)
    requires Issuable(env, s, picks) && s.pending == []
    ensures IssueAll(env, s, picks).pending == []
    decreases |picks|
  {
    if picks != [] {
      IssueAllNeverQueues(env, IssueOne(env, s, picks[0]), picks[1..]);
    }
  }

  lemma SettleKeeps(env: Env, s: Resp, k: nat, picks: Picks)
    requires RespInv(env, s) && s.pending == [] && k in s.entries && SettleOk(env, s, k, picks)
    ensures RespInv(env, Settle(env, s, k, picks)) && Settle(env, s, k, picks).pending == []
  {
    hide RespInv;
    if s.entries[k].committed {
      ConsumeKeeps(env, s, k, picks);
      IssueAllNeverQueues(env, MarkDone(env, s, k), if Finishable(env, s, k) then picks.first else []);
      EndCheckKeeps(env, Consume(env, s, k, picks), k);
    } else if s.entries[k].bitmap == Full(env) {
      CommitKeeps(env, s, k, picks);
    }
  }

  /** A request for an issued offset keeps the invariant and leaves no payload waiting. */
  lemma OnRequestKeeps(env: Env, s: Resp, k: nat, from: Sender, picks: Picks)
    requires RespInv(env, s) && s.pending == [] && RequestOk(env, s, k, from, picks)
    requires k < s.creditNext && (from.Single? ==> from.rank < env.n) && !Misplaced(env, from)
    ensures RespInv(env, OnRequest(env, s, k, from, picks)) && OnRequest(env, s, k, from, picks).pending == []
  {
    if FindMessage(s.messages, k).Some? {
      assert Live(s.messages, k) && k in s.entries && EntryInv(env, s.entries[k]);
      hide RespInv;
      match Recorded(env, s, k, from) {
        case None =>
        case Some(t) =>
          SetBitmapKeeps(env, s, k, t.entries[k].bitmap);
          SettleKeeps(env, t, k, picks);
      }
    }
  }

  lemma {:induction false} SumZeros(xs: seq<nat>)
    requires forall j :: 0 <= j < |xs| ==> xs[j] == 0
    ensures Sum(xs) == 0
  {
    if xs != [] { SumZeros(xs[1..]); }
  }

  lemma InitialRespInv(env: Env)
    requires EnvOk(env)
    ensures RespInv(env, InitialResp(env))
  {
    var s := InitialResp(env);
    SumZeros(s.subOut);
    assert Undone(s.entries) == {};
    forall j | 0 <= j < env.nsub ensures UndoneOn(s.entries, j) == {} {}
    assert OutstandingInv(s.entries, s.outstanding, s.subOut);
  }
}

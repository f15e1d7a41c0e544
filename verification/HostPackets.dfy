/** What a host has sent is exactly what its state calls for, in every reachable state
    (reference/arbor-host.cc): credits, payloads, REGISTER_ACK, END, requests and END_ACK. */
module HostPackets {
  import opened Prelude
  import opened HostModel
  import opened HostPlan
  import opened HostCounting
  import opened HostResponderInvariant
  import opened HostGlobal
  import opened HostSystem
  import Requester = HostRequesterInvariant

  // ------------------------------------------------------ the responder's packets

  ghost predicate CreditOut(sent: multiset<Down>, k: nat) {
    exists payload, sub :: Response(false, payload, Some(k), sub) in sent
  }

  ghost predicate PayloadOut(sent: multiset<Down>, p: nat) {
    exists credit, sub :: Response(false, Some(p), credit, sub) in sent
  }

  ghost predicate BoundOut(sent: multiset<Down>, k: nat, p: nat) {
    exists sub :: Response(false, Some(p), Some(k), sub) in sent
  }

  /** Every issued credit went out, every payload sent for the first time did, and a payload
      bound to a credit went out with it. */
  ghost predicate ResponsesOut(s: Resp) {
    && (forall k :: k in s.entries ==> CreditOut(s.sent, k))
    && (forall p: nat :: s.firstSent[p] > 0 ==> PayloadOut(s.sent, p))
    && (forall k, p: nat :: BoundTo(s.binding, k, p) ==> BoundOut(s.sent, k, p))
  }

  /** REGISTER_ACK went out for exactly the subchannels on which everybody registered. */
  ghost predicate RegistersAcked(env: Env, s: Resp) {
    forall st, sub: nat :: st in s.messages && sub < |s.messages[st].reg| ==>
      (RegisterAck(st, sub) in s.sent <==> s.messages[st].reg[sub] == Full(env))
  }

  predicate Exempt(m: RespMessage, st: nat, but: Option<nat>) {
    but.Some? && Covers(st, m.total, but.value)
  }

  /** END went out for exactly the messages whose offsets are all done, but for the message
      of offset `but`, which may just have become so. */
  ghost predicate EndsOut(s: Resp, but: Option<nat>) {
    forall st :: st in s.messages ==>
      var m := s.messages[st];
      && (forall id :: End(st, id) in s.sent ==> id == m.id && m.done >= m.total)
      && (m.endPending || (m.done == m.total && !Exempt(m, st, but)) ==> End(st, m.id) in s.sent)
  }

  /** An offset everybody answered is done, but for offset `but`. */
  ghost predicate FullIsDone(env: Env, entries: map<nat, Entry>, but: Option<nat>) {
    forall k :: k in entries && but != Some(k) && entries[k].bitmap == Full(env) ==> entries[k].done
  }

  ghost predicate OneOwner(messages: map<nat, RespMessage>) {
    forall a, b, o :: Owns(messages, a, o) && Owns(messages, b, o) ==> a == b
  }

  predicate Owns(messages: map<nat, RespMessage>, st: nat, o: nat) {
    st in messages && Covers(st, messages[st].total, o)
  }

  ghost predicate DownsBelow(s: Resp) {
    && (forall d :: d in s.sent && (d.RegisterAck? || d.End?) ==> d.start < s.nextSeq)
    && forall st :: st in s.messages ==> st < s.nextSeq
  }

  ghost predicate Due(env: Env, s: Resp, but: Option<nat>) {
    s.aborted
    || (&& ResponsesOut(s) && RegistersAcked(env, s) && EndsOut(s, but) && FullIsDone(env, s.entries, but)
        && OneOwner(s.messages) && DownsBelow(s))
  }

  // --------------------------------------------------- each step sends what is due

  lemma OutGrows(sent: multiset<Down>, sent': multiset<Down>, k: nat, p: nat)
    requires sent <= sent'
    ensures CreditOut(sent, k) ==> CreditOut(sent', k)
    ensures PayloadOut(sent, p) ==> PayloadOut(sent', p)
    ensures BoundOut(sent, k, p) ==> BoundOut(sent', k, p)
  {
    if CreditOut(sent, k) {
      var payload, sub :| Response(false, payload, Some(k), sub) in sent;
      assert Response(false, payload, Some(k), sub) in sent';
    }
    if PayloadOut(sent, p) {
      var credit, sub :| Response(false, Some(p), credit, sub) in sent;
      assert Response(false, Some(p), credit, sub) in sent';
    }
    if BoundOut(sent, k, p) {
      var sub :| Response(false, Some(p), Some(k), sub) in sent;
      assert Response(false, Some(p), Some(k), sub) in sent';
    }
  }

  /** One more packet leaves what went out where it was. */
  lemma SentMore(s: Resp, t: Resp, d: Down)
    requires ResponsesOut(s) && t.sent == s.sent + multiset{d}
    ensures forall k :: k in s.entries ==> CreditOut(t.sent, k)
    ensures forall p: nat :: s.firstSent[p] > 0 ==> PayloadOut(t.sent, p)
    ensures forall k, p: nat :: BoundTo(s.binding, k, p) ==> BoundOut(t.sent, k, p)
  {
    hide CreditOut, PayloadOut, BoundOut;
    forall k | k in s.entries ensures CreditOut(t.sent, k) { OutGrows(s.sent, t.sent, k, 0); }
    forall p: nat | s.firstSent[p] > 0 ensures PayloadOut(t.sent, p) { OutGrows(s.sent, t.sent, 0, p); }
    forall k, p: nat | BoundTo(s.binding, k, p) ensures BoundOut(t.sent, k, p) { OutGrows(s.sent, t.sent, k, p); }
  }

  lemma SubmitDue(env: Env, s: Resp)
    requires Due(env, s, None) && RespInv(env, s) && s.submitted < |env.plan|
    ensures Due(env, SubmitResp(env, s), None)
  {
    hide EntriesInv, BindingInv, FirstSendInv, OutstandingInv, DoneInv, CreditOut, PayloadOut, BoundOut, Owns;
    SubmitKeeps(env, s);
    var t := SubmitResp(env, s);
    OwnersApart(env, t);
    assert 0 in Full(env);
    assert t.sent == s.sent && t.entries == s.entries;
    assert forall d :: d in s.sent && (d.RegisterAck? || d.End?) ==> d.start < s.nextSeq;
  }

  lemma OwnersApart(env: Env, s: Resp)
    requires RespInv(env, s)
    ensures OneOwner(s.messages)
  {
    hide EntriesInv, BindingInv, FirstSendInv;
    forall a, b, o | Owns(s.messages, a, o) && Owns(s.messages, b, o) ensures a == b {
      OwnerUnique(env, s.messages, s.submitted, a, b, o);
    }
  }

  /** One more control packet. */
  lemma ControlSent(s: Resp, t: Resp, d: Down)
    requires ResponsesOut(s) && t.sent == s.sent + multiset{d}
    requires t.entries == s.entries && t.firstSent == s.firstSent && t.binding == s.binding
    ensures ResponsesOut(t)
  {
    hide CreditOut, PayloadOut, BoundOut;
    SentMore(s, t, d);
  }

  lemma RegisterAcked(env: Env, s: Resp, st: nat, sub: nat, rank: nat)
    requires RegistersAcked(env, s) && rank < env.n && st in s.messages && sub < |s.messages[st].reg|
    ensures RegistersAcked(env, RecordRegister(env, s, st, sub, rank))
  {
    var t := RecordRegister(env, s, st, sub, rank);
    var before, after := s.messages[st].reg[sub], t.messages[st].reg[sub];
    assert rank in Full(env);
    assert before == Full(env) ==> after == Full(env);
    forall x, j: nat | x in t.messages && j < |t.messages[x].reg|
      ensures RegisterAck(x, j) in t.sent <==> t.messages[x].reg[j] == Full(env)
    {
      assert RegisterAck(x, j) in s.sent <==> s.messages[x].reg[j] == Full(env);
    }
  }

  lemma SameEnds(s: Resp, t: Resp, but: Option<nat>)
    requires EndsOut(s, but) && t.messages.Keys == s.messages.Keys
    requires forall st, id :: End(st, id) in t.sent <==> End(st, id) in s.sent
    requires forall st :: st in s.messages ==>
               var m, m' := s.messages[st], t.messages[st];
               m'.id == m.id && m'.total == m.total && m'.done == m.done && (m'.endPending ==> m.endPending)
    ensures EndsOut(t, but)
  {
  }

  lemma SameOwners(messages: map<nat, RespMessage>, messages': map<nat, RespMessage>)
    requires OneOwner(messages) && messages'.Keys <= messages.Keys
    requires forall st :: st in messages' ==> messages'[st].total == messages[st].total
    ensures OneOwner(messages')
  {
    forall a, b, o | Owns(messages', a, o) && Owns(messages', b, o) ensures a == b {
      assert Owns(messages, a, o) && Owns(messages, b, o);
    }
  }

  lemma RegisterDue(env: Env, s: Resp, st: nat, sub: nat, rank: nat)
    requires Due(env, s, None) && rank < env.n
    ensures Due(env, RecordRegister(env, s, st, sub, rank), None)
  {
    hide ResponsesOut, RegistersAcked, EndsOut, FullIsDone, OneOwner, Full;
    var t := RecordRegister(env, s, st, sub, rank);
    RegisterFrame(env, s, st, sub, rank);
    hide RecordRegister;
    if !s.aborted && st in s.messages && sub < |s.messages[st].reg| {
      RegisterAcked(env, s, st, sub, rank);
      SameEnds(s, t, None);
      SameOwners(s.messages, t.messages);
      if t.sent == s.sent {
        NothingSent(s, t);
      } else {
        ControlSent(s, t, RegisterAck(st, sub));
      }
    }
  }

  lemma RegisterFrame(env: Env, s: Resp, st: nat, sub: nat, rank: nat)
    ensures var t := RecordRegister(env, s, st, sub, rank);
            && t.messages.Keys == s.messages.Keys && t.entries == s.entries && t.nextSeq == s.nextSeq
            && t.firstSent == s.firstSent && t.binding == s.binding && t.aborted == s.aborted
            && (forall x :: x in s.messages ==>
                  var m, m' := s.messages[x], t.messages[x];
                  m'.id == m.id && m'.total == m.total && m'.done == m.done && m'.endPending == m.endPending)
            && (t.sent == s.sent || (st in s.messages && t.sent == s.sent + multiset{RegisterAck(st, sub)}))
            && (!(st in s.messages && sub < |s.messages[st].reg|) ==> t == s)
  {
  }

  lemma NothingSent(s: Resp, t: Resp)
    requires ResponsesOut(s) && t.sent == s.sent && t.entries.Keys <= s.entries.Keys
    requires t.firstSent == s.firstSent && t.binding == s.binding
    ensures ResponsesOut(t)
  {
    hide CreditOut, PayloadOut, BoundOut;
  }

  lemma SameAcks(env: Env, s: Resp, t: Resp)
    requires RegistersAcked(env, s) && t.messages.Keys <= s.messages.Keys
    requires forall st, sub :: RegisterAck(st, sub) in t.sent <==> RegisterAck(st, sub) in s.sent
    requires forall st :: st in t.messages ==> t.messages[st].reg == s.messages[st].reg
    ensures RegistersAcked(env, t)
  {
  }

  /** A step that sends responses only, and leaves registrations and END alone. */
  ghost predicate Quietly(s: Resp, t: Resp) {
    && t.messages.Keys == s.messages.Keys && t.nextSeq == s.nextSeq
    && (forall d :: d in t.sent && d !in s.sent ==> d.Response?) && s.sent <= t.sent
    && forall st :: st in s.messages ==>
         var m, m' := s.messages[st], t.messages[st];
         m'.id == m.id && m'.total == m.total && m'.done == m.done && m'.endPending == m.endPending && m'.reg == m.reg
  }

  lemma QuietlyKeeps(env: Env, s: Resp, t: Resp, but: Option<nat>)
    requires Quietly(s, t) && RegistersAcked(env, s) && EndsOut(s, but) && OneOwner(s.messages) && DownsBelow(s)
    ensures RegistersAcked(env, t) && EndsOut(t, but) && OneOwner(t.messages) && DownsBelow(t)
  {
    hide RegistersAcked, EndsOut, OneOwner;
    SameAcks(env, s, t);
    SameEnds(s, t, but);
    SameOwners(s.messages, t.messages);
  }

  /** The packet of a fresh credit: it carries the credit, and a payload that is bound to it
      and sent for the first time. */
  ghost predicate Issued(s: Resp, t: Resp, k: nat, payload: Option<nat>, sub: nat) {
    && Quietly(s, t) && t.sent == s.sent + multiset{Response(false, payload, Some(k), sub)}
    && t.entries.Keys == s.entries.Keys + {k} && SameMarks(s.entries, t.entries)
    && (k !in s.entries ==> t.entries[k].bitmap == {})
    && match payload
       case None => t.binding == s.binding && t.firstSent == s.firstSent
       case Some(p) => t.binding == s.binding[k := p] && t.firstSent == s.firstSent + multiset{p}
  }

  ghost predicate SameMarks(a: map<nat, Entry>, b: map<nat, Entry>) {
    forall x :: x in a && x in b ==> b[x].bitmap == a[x].bitmap && b[x].done == a[x].done
  }

  lemma ReserveIssues(env: Env, s: Resp, pick: nat)
    requires CanIssue(env, s, pick) && s.creditNext !in s.entries
    ensures var t, k := Reserve(env, s, pick), s.creditNext;
            && Quietly(s, t) && t.sent == s.sent && t.entries == s.entries[k := FreshEntry(pick)]
            && t.binding == s.binding && t.firstSent == s.firstSent && t.aborted == s.aborted && t.pending == s.pending
  {
    hide FindMessage;
  }

  lemma PushIssues(s: Resp, t: Resp, k: nat, pick: nat)
    requires Quietly(s, t) && t.sent == s.sent && t.entries == s.entries[k := FreshEntry(pick)] && k !in s.entries
    requires t.binding == s.binding && t.firstSent == s.firstSent
    ensures Issued(s, PushSelf(t, k), k, Some(k), pick)
  {
  }

  lemma PiggybackIssues(s: Resp, t: Resp, k: nat, pick: nat)
    requires Quietly(s, t) && t.sent == s.sent && t.entries == s.entries[k := FreshEntry(pick)] && k !in s.entries
    requires t.binding == s.binding && t.firstSent == s.firstSent && t.pending != []
    ensures Piggyback(t, k).aborted || Issued(s, Piggyback(t, k), k, Some(t.pending[0]), pick)
  {
    hide FindMessage;
  }

  lemma IssueOneIssues(env: Env, s: Resp, pick: nat)
    requires CanIssue(env, s, pick)
    ensures var t := IssueOne(env, s, pick);
            t.aborted || exists payload, sub :: Issued(s, t, s.creditNext, payload, sub)
    ensures s.aborted ==> IssueOne(env, s, pick).aborted
  {
    hide FindMessage, Reserve, PushSelf, Piggyback, Issued, Quietly;
    var k := s.creditNext;
    if k !in s.entries {
      ReserveIssues(env, s, pick);
      var t := Reserve(env, s, pick);
      AbortStays(t, k);
      if !s.messages[FindMessage(s.messages, k).value].pull {
        assert IssueOne(env, s, pick) == PushSelf(t, k);
        PushIssues(s, t, k, pick);
      } else if env.piggyback && s.pending != [] {
        assert IssueOne(env, s, pick) == Piggyback(t, k);
        PiggybackIssues(s, t, k, pick);
      } else {
        PlainIssues(s, t, k, pick);
      }
    }
  }

  lemma AbortStays(t: Resp, k: nat)
    requires k in t.entries
    ensures PushSelf(t, k).aborted == t.aborted
    ensures t.pending != [] && t.aborted ==> Piggyback(t, k).aborted
  {
  }

  lemma PlainIssues(s: Resp, t: Resp, k: nat, pick: nat)
    requires Quietly(s, t) && t.sent == s.sent && t.entries == s.entries[k := FreshEntry(pick)] && k !in s.entries
    requires t.binding == s.binding && t.firstSent == s.firstSent
    ensures Issued(s, Send(t, Response(false, None, Some(k), pick)), k, None, pick)
  {
  }

  lemma IssuedResponses(s: Resp, t: Resp, k: nat, payload: Option<nat>, sub: nat)
    requires ResponsesOut(s) && Issued(s, t, k, payload, sub)
    ensures ResponsesOut(t)
  {
    hide CreditOut, PayloadOut, BoundOut, Quietly;
    SentMore(s, t, Response(false, payload, Some(k), sub));
    JustSent(t.sent, payload, k, sub);
  }

  lemma JustSent(sent: multiset<Down>, payload: Option<nat>, k: nat, sub: nat)
    requires Response(false, payload, Some(k), sub) in sent
    ensures CreditOut(sent, k)
    ensures payload.Some? ==> PayloadOut(sent, payload.value) && BoundOut(sent, k, payload.value)
  {
  }

  lemma SameMarksKeep(env: Env, a: map<nat, Entry>, b: map<nat, Entry>, but: Option<nat>)
    requires FullIsDone(env, a, but) && SameMarks(a, b) && env.n > 0
    requires forall x :: x in b && x !in a ==> b[x].bitmap == {}
    ensures FullIsDone(env, b, but)
  {
    assert 0 in Full(env);
  }

  lemma IssueOneDue(env: Env, s: Resp, pick: nat, but: Option<nat>)
    requires CanIssue(env, s, pick) && Due(env, s, but) && env.n > 0
    ensures Due(env, IssueOne(env, s, pick), but)
  {
    hide ResponsesOut, RegistersAcked, EndsOut, FullIsDone, OneOwner, CanIssue, IssueOne, Quietly, DownsBelow;
    var t := IssueOne(env, s, pick);
    IssueOneIssues(env, s, pick);
    if !s.aborted && !t.aborted {
      var payload, sub :| Issued(s, t, s.creditNext, payload, sub);
      QuietlyKeeps(env, s, t, but);
      IssuedResponses(s, t, s.creditNext, payload, sub);
      SameMarksKeep(env, s.entries, t.entries, but);
    }
  }

  lemma {:induction false} IssueAllDue(env: Env, s: Resp, picks: seq<nat>, but: Option<nat>)
    requires Issuable(env, s, picks) && Due(env, s, but) && env.n > 0
    ensures Due(env, IssueAll(env, s, picks), but)
    decreases |picks|
  {
    hide Due, CanIssue, IssueOne;
    if picks != [] {
      IssueOneDue(env, s, picks[0], but);
      IssueAllDue(env, IssueOne(env, s, picks[0]), picks[1..], but);
    }
  }

  // --------------------------------------------------------- requests and their end

  /** One credit retired: offset k done, and its message's counter one up. */
  ghost predicate Retired(s: Resp, t: Resp, k: nat, st: nat) {
    && Owns(s.messages, st, k)
    && t.messages == s.messages[st := s.messages[st].(done := s.messages[st].done + 1)]
    && k in s.entries && t.entries == s.entries[k := s.entries[k].(done := true)]
    && t.sent == s.sent && t.firstSent == s.firstSent && t.binding == s.binding && t.nextSeq == s.nextSeq
  }

  lemma MarkDoneRetires(env: Env, s: Resp, k: nat)
    requires k in s.entries
    ensures var t := MarkDone(env, s, k);
            && (s.aborted ==> t.aborted)
            && (t.aborted || (if Finishable(env, s, k) then exists st :: Retired(s, t, k, st) else t == s))
  {
    hide FindMessage, Full;
    var t := MarkDone(env, s, k);
    if Finishable(env, s, k) && FindMessage(s.messages, k).Some? && s.outstanding > 0 {
      assert Retired(s, t, k, FindMessage(s.messages, k).value);
    }
  }

  lemma RetiredDue(env: Env, s: Resp, t: Resp, k: nat, st: nat)
    requires !s.aborted && Due(env, s, Some(k)) && Retired(s, t, k, st)
    ensures Due(env, t, Some(k)) && Marks(s, t, k)
  {
    hide CreditOut, PayloadOut, BoundOut, Full;
    NothingSent(s, t);
    OneMoreDone(s, t, st, k);
    hide ResponsesOut, RegistersAcked, OneOwner, EndsOut;
    SameAcks(env, s, t);
    SameOwners(s.messages, t.messages);
  }

  lemma MarkDoneDue(env: Env, s: Resp, k: nat)
    requires Due(env, s, Some(k)) && k in s.entries
    ensures Due(env, MarkDone(env, s, k), Some(k))
    ensures var t := MarkDone(env, s, k);
            t.aborted || (k in t.entries && (t.entries[k].done || !Finishable(env, s, k)) && Marks(s, t, k))
  {
    hide Due, MarkDone;
    var t := MarkDone(env, s, k);
    MarkDoneRetires(env, s, k);
    if t.aborted {
      AbortedDue(env, t, Some(k));
    } else if Finishable(env, s, k) {
      var st :| Retired(s, t, k, st);
      RetiredDue(env, s, t, k, st);
    }
  }

  lemma AbortedDue(env: Env, s: Resp, but: Option<nat>)
    requires s.aborted
    ensures Due(env, s, but)
  {
  }

  /** What a step leaves of the marks of the other offsets, and of offset k's answers. */
  ghost predicate Marks(s: Resp, t: Resp, k: nat) {
    s.entries.Keys <= t.entries.Keys
    && forall x :: x in s.entries ==> t.entries[x].bitmap == s.entries[x].bitmap
  }

  lemma OneMoreDone(s: Resp, t: Resp, st: nat, k: nat)
    requires EndsOut(s, Some(k)) && Owns(s.messages, st, k) && t.sent == s.sent
    requires t.messages == s.messages[st := s.messages[st].(done := s.messages[st].done + 1)]
    ensures EndsOut(t, Some(k))
  {
  }

  /** Once offset k is done, or not everybody has answered it, nothing is owed for it. */
  lemma Caught(env: Env, entries: map<nat, Entry>, k: nat)
    requires FullIsDone(env, entries, Some(k)) && (k in entries && entries[k].bitmap == Full(env) ==> entries[k].done)
    ensures FullIsDone(env, entries, None)
  {
  }

  /** END is owed for no message but, perhaps, that of offset k, and no answer. */
  ghost predicate AllButEnd(env: Env, s: Resp, k: nat) {
    Due(env, s, Some(k)) && (s.aborted || FullIsDone(env, s.entries, None))
  }

  lemma ConsumeDue(env: Env, s: Resp, k: nat, picks: Picks)
    requires k in s.entries && ConsumeOk(env, s, k, picks) && Due(env, s, Some(k)) && env.n > 0
    requires s.entries[k].committed
    ensures AllButEnd(env, Consume(env, s, k, picks), k)
  {
    hide ResponsesOut, RegistersAcked, OneOwner, EndsOut, DownsBelow, Full, FullIsDone, MarkDone;
    MarkDoneDue(env, s, k);
    var t := MarkDone(env, s, k);
    DoneCaught(env, s, t, k);
    var some := if Finishable(env, s, k) then picks.first else [];
    IssueAllDue(env, t, some, Some(k));
    IssueAllDone(env, t, some);
  }

  lemma DoneCaught(env: Env, s: Resp, t: Resp, k: nat)
    requires k in s.entries && s.entries[k].committed && t == MarkDone(env, s, k)
    requires t.aborted || FullIsDone(env, t.entries, Some(k))
    requires t.aborted || (k in t.entries && (t.entries[k].done || !Finishable(env, s, k)))
    ensures t.aborted || FullIsDone(env, t.entries, None)
  {
    hide FindMessage, Full;
    if !t.aborted { Caught(env, t.entries, k); }
  }

  lemma {:induction false} IssueAllDone(env: Env, s: Resp, picks: seq<nat>)
    requires Issuable(env, s, picks) && env.n > 0
    requires s.aborted || FullIsDone(env, s.entries, None)
    ensures var t := IssueAll(env, s, picks); t.aborted || FullIsDone(env, t.entries, None)
    decreases |picks|
  {
    hide FullIsDone, CanIssue, IssueOne, Issued;
    if picks != [] {
      IssueOneIssues(env, s, picks[0]);
      var t := IssueOne(env, s, picks[0]);
      if !t.aborted {
        var payload, sub :| Issued(s, t, s.creditNext, payload, sub);
        IssuedMarks(env, s, t, s.creditNext, payload, sub);
      }
      IssueAllDone(env, t, picks[1..]);
    }
  }

  lemma IssuedMarks(env: Env, s: Resp, t: Resp, k: nat, payload: Option<nat>, sub: nat)
    requires Issued(s, t, k, payload, sub) && env.n > 0 && FullIsDone(env, s.entries, None)
    ensures FullIsDone(env, t.entries, None)
  {
    hide FullIsDone, Quietly;
    SameMarksKeep(env, s.entries, t.entries, None);
  }

  lemma MarkCommittedDue(env: Env, s: Resp, k: nat)
    requires Due(env, s, Some(k)) && k in s.entries
    ensures Due(env, MarkCommitted(s, k), Some(k))
    ensures var t := MarkCommitted(s, k); k in t.entries && (t.aborted || t.entries[k].committed)
  {
    hide CreditOut, PayloadOut, BoundOut, RegistersAcked, OneOwner, EndsOut;
    var t := MarkCommitted(s, k);
    if !t.aborted && !s.aborted {
      hide ResponsesOut;
      NothingSent(s, t);
      QuietlyKeeps(env, s, t, Some(k));
    }
  }

  lemma FlushOneDue(env: Env, s: Resp, k: nat)
    requires AllButEnd(env, s, k) && s.pending != []
    ensures AllButEnd(env, FlushOne(s), k)
  {
    hide CreditOut, PayloadOut, BoundOut, RegistersAcked, OneOwner, EndsOut, FullIsDone, FindMessage;
    var t, p := FlushOne(s), s.pending[0];
    if !t.aborted && !s.aborted {
      var d := Response(false, Some(p), None, s.entries[p].sub);
      SentMore(s, t, d);
      FirstOut(t.sent, p, s.entries[p].sub);
      QuietlyKeeps(env, s, t, Some(k));
    }
  }

  lemma FirstOut(sent: multiset<Down>, p: nat, sub: nat)
    requires Response(false, Some(p), None, sub) in sent
    ensures PayloadOut(sent, p)
  {
  }

  lemma {:induction false} FlushAllDue(env: Env, s: Resp, k: nat)
    requires AllButEnd(env, s, k)
    ensures AllButEnd(env, FlushAll(s), k)
    decreases |s.pending|
  {
    hide AllButEnd, FlushOne;
    if s.pending != [] {
      FlushShorter(s);
      FlushOneDue(env, s, k);
      FlushAllDue(env, FlushOne(s), k);
    }
  }

  lemma FlushShorter(s: Resp)
    requires s.pending != []
    ensures |FlushOne(s).pending| < |s.pending|
  {
    hide FindMessage;
  }

  lemma EndCheckFrame(s: Resp, k: nat)
    ensures var t := EndCheck(s, k);
            && t.messages.Keys == s.messages.Keys && t.entries == s.entries && t.nextSeq == s.nextSeq
            && t.firstSent == s.firstSent && t.binding == s.binding && t.aborted == s.aborted
            && (forall x :: x in s.messages ==>
                  t.messages[x].total == s.messages[x].total && t.messages[x].reg == s.messages[x].reg)
            && (t.sent == s.sent
                || exists st :: st in s.messages && t.sent == s.sent + multiset{End(st, s.messages[st].id)})
  {
    hide FindMessage;
  }

  /** The END check pays what was owed. */
  lemma EndCheckDue(env: Env, s: Resp, k: nat)
    requires AllButEnd(env, s, k)
    ensures Due(env, EndCheck(s, k), None)
  {
    hide ResponsesOut, RegistersAcked, FullIsDone, EndsOut, OneOwner, EndCheck;
    var t := EndCheck(s, k);
    EndCheckFrame(s, k);
    if !s.aborted {
      EndChecked(s, k);
      SameOwners(s.messages, t.messages);
      if t.sent == s.sent {
        NothingSent(s, t);
      } else {
        var st :| st in s.messages && t.sent == s.sent + multiset{End(st, s.messages[st].id)};
        ControlSent(s, t, End(st, s.messages[st].id));
      }
      SameAcks(env, s, t);
    }
  }

  lemma EndChecked(s: Resp, k: nat)
    requires EndsOut(s, Some(k)) && OneOwner(s.messages)
    ensures EndsOut(EndCheck(s, k), None)
  {
    hide FindMessage, StartEnd;
    var owner := FindMessage(s.messages, k);
    if owner.Some? { assert Owns(s.messages, owner.value, k); }
    forall st | st in s.messages && Exempt(s.messages[st], st, Some(k)) ensures owner == Some(st) {
      assert Owns(s.messages, st, k);
    }
    if owner.Some? { StartChecked(s, k, owner.value); }
  }

  lemma StartChecked(s: Resp, k: nat, own: nat)
    requires EndsOut(s, Some(k)) && own in s.messages
    requires forall st :: st in s.messages && Exempt(s.messages[st], st, Some(k)) ==> st == own
    ensures EndsOut(StartEnd(s, own), None)
  {
  }

  lemma CommitDue(env: Env, s: Resp, k: nat, picks: Picks)
    requires k in s.entries && CommitOk(env, s, k, picks) && Due(env, s, Some(k)) && env.n > 0
    ensures Due(env, Commit(env, s, k, picks), None)
  {
    hide Due, MarkCommitted, Consume, ConsumeOk, Issuable;
    var c := MarkCommitted(s, k);
    MarkCommittedDue(env, s, k);
    CommittedDue(env, c, k, picks);
    var t := Consume(env, c, k, picks);
    IssueAllDueToo(env, t, picks.second, k);
    FlushAllDue(env, IssueAll(env, t, picks.second), k);
    EndCheckDue(env, FlushAll(IssueAll(env, t, picks.second)), k);
  }

  /** Consuming after a commit, which may have found the entry committed already and stopped. */
  lemma CommittedDue(env: Env, c: Resp, k: nat, picks: Picks)
    requires k in c.entries && ConsumeOk(env, c, k, picks) && Due(env, c, Some(k)) && env.n > 0
    requires c.aborted || c.entries[k].committed
    ensures AllButEnd(env, Consume(env, c, k, picks), k)
  {
    hide Due, FullIsDone, IssueAll, Issuable, MarkDone, Full;
    if c.aborted {
      MarkDoneRetires(env, c, k);
      IssueAllAborts(env, MarkDone(env, c, k), if Finishable(env, c, k) then picks.first else []);
      AbortedDue(env, Consume(env, c, k, picks), Some(k));
    } else {
      ConsumeDue(env, c, k, picks);
    }
  }

  lemma {:induction false} IssueAllAborts(env: Env, s: Resp, picks: seq<nat>)
    requires Issuable(env, s, picks) && s.aborted
    ensures IssueAll(env, s, picks).aborted
    decreases |picks|
  {
    hide CanIssue, IssueOne;
    if picks != [] {
      IssueOneIssues(env, s, picks[0]);
      IssueAllAborts(env, IssueOne(env, s, picks[0]), picks[1..]);
    }
  }

  lemma IssueAllDueToo(env: Env, s: Resp, picks: seq<nat>, k: nat)
    requires Issuable(env, s, picks) && AllButEnd(env, s, k) && env.n > 0
    ensures AllButEnd(env, IssueAll(env, s, picks), k)
  {
    hide Due, FullIsDone, IssueAll, Issuable;
    IssueAllDue(env, s, picks, Some(k));
    IssueAllDone(env, s, picks);
  }

  lemma SettleDue(env: Env, s: Resp, k: nat, picks: Picks)
    requires k in s.entries && SettleOk(env, s, k, picks) && Due(env, s, Some(k)) && env.n > 0
    requires EndsOut(s, None) || s.aborted
    ensures Due(env, Settle(env, s, k, picks), None)
  {
    hide EndsOut, ResponsesOut, RegistersAcked, OneOwner, FullIsDone, Consume, ConsumeOk, Commit, CommitOk, EndCheck;
    if s.entries[k].committed {
      ConsumeDue(env, s, k, picks);
      EndCheckDue(env, Consume(env, s, k, picks), k);
    } else if s.entries[k].bitmap == Full(env) {
      CommitDue(env, s, k, picks);
    } else if !s.aborted {
      Caught(env, s.entries, k);
    }
  }

  lemma SetBitmapDue(env: Env, s: Resp, k: nat, b: set<nat>)
    requires Due(env, s, None) && k in s.entries
    ensures var t := SetBitmap(s, k, b);
            && k in t.entries && Due(env, t, Some(k)) && (EndsOut(t, None) || t.aborted)
  {
    hide ResponsesOut, RegistersAcked, OneOwner;
    var t := SetBitmap(s, k, b);
    if !s.aborted {
      NothingSent(s, t);
      hide EndsOut;
      QuietlyKeeps(env, s, t, None);
      EndsOutWeaker(t, k);
    }
  }

  lemma EndsOutWeaker(t: Resp, k: nat)
    requires EndsOut(t, None)
    ensures EndsOut(t, Some(k))
  {
  }

  lemma OnRequestDue(env: Env, s: Resp, k: nat, from: Sender, picks: Picks)
    requires RequestOk(env, s, k, from, picks) && Due(env, s, None) && env.n > 0
    ensures Due(env, HostModel.OnRequest(env, s, k, from, picks), None)
  {
    hide Due, Settle, SettleOk, EndsOut, FindMessage, SetBitmap, Full;
    if FindMessage(s.messages, k).Some? && k in s.entries && !Misplaced(env, from) {
      match Recorded(env, s, k, from)
      case None =>
      case Some(t) =>
        var b :| t == SetBitmap(s, k, b);
        SetBitmapDue(env, s, k, b);
        SettleDue(env, t, k, picks);
    } else if FindMessage(s.messages, k).Some? {
      AbortedDue(env, Abort(s), None);
    }
  }

  // ------------------------------------------------------------------- recovery

  /** A step that sends one more response and touches no answer, counter or registration. */
  lemma ResponseSentDue(env: Env, s: Resp, t: Resp)
    requires Due(env, s, None) && (s.aborted ==> t.aborted)
    requires t.aborted || (&& Quietly(s, t) && t.entries.Keys == s.entries.Keys && SameMarks(s.entries, t.entries)
                           && t.firstSent == s.firstSent && t.binding == s.binding
                           && (t.sent == s.sent || exists d :: t.sent == s.sent + multiset{d}))
    ensures Due(env, t, None)
  {
    hide ResponsesOut, RegistersAcked, EndsOut, OneOwner, DownsBelow, Full;
    if !t.aborted && !s.aborted {
      QuietlyKeeps(env, s, t, None);
      if t.sent == s.sent {
        NothingSent(s, t);
      } else {
        var d :| t.sent == s.sent + multiset{d};
        SentKeeps(s, t, d);
      }
    }
  }

  lemma SentKeeps(s: Resp, t: Resp, d: Down)
    requires ResponsesOut(s) && t.sent == s.sent + multiset{d}
    requires t.entries.Keys == s.entries.Keys && t.firstSent == s.firstSent && t.binding == s.binding
    ensures ResponsesOut(t)
  {
    hide CreditOut, PayloadOut, BoundOut;
    SentMore(s, t, d);
  }

  lemma EnterRepairDue(env: Env, s: Resp, k: nat, funded: bool)
    requires Due(env, s, None) && k in s.entries
    ensures Due(env, EnterRepair(s, k, funded), None)
  {
    hide Due, FindMessage;
    ResponseSentDue(env, s, EnterRepair(s, k, funded));
  }

  lemma {:induction false} ReplayTailDue(env: Env, s: Resp, p: nat, end: nat, budget: nat)
    requires p <= end && Due(env, s, None)
    ensures var t := ReplayTail(s, p, end, budget);
            Due(env, t, None) && t.messages == s.messages && t.nextSeq == s.nextSeq && (s.aborted <==> t.aborted)
    decreases end - p
  {
    hide Due;
    if p < end {
      if !TailPayload(s, p) {
        ReplayTailDue(env, s, p + 1, end, budget);
      } else if budget > 0 {
        var u := Send(s, Response(true, Some(p), None, s.entries[p].sub));
        ResponseSentDue(env, s, u);
        ReplayTailDue(env, u, p + 1, end, budget - 1);
      }
    }
  }

  lemma OnEndTimeoutDue(env: Env, s: Resp, st: nat, budget: nat)
    requires Due(env, s, None)
    ensures Due(env, HostModel.OnEndTimeout(s, st, budget), None)
  {
    hide Due, ReplayTail;
    if st in s.messages && s.messages[st].endPending {
      ReplayTailDue(env, s, st, st + s.messages[st].total, budget);
      EndSentDue(env, ReplayTail(s, st, st + s.messages[st].total, budget), st);
    }
  }

  lemma EndSentDue(env: Env, u: Resp, st: nat)
    requires Due(env, u, None) && (!u.aborted ==> st in u.messages && u.messages[st].endPending)
    ensures st in u.messages ==> Due(env, Send(u, End(st, u.messages[st].id)), None)
  {
    hide ResponsesOut, RegistersAcked, EndsOut, FullIsDone, OneOwner;
    if st in u.messages && !u.aborted {
      var d := End(st, u.messages[st].id);
      ControlSent(u, Send(u, d), d);
      SameAcks(env, u, Send(u, d));
      EndAgain(u, st);
    }
  }

  lemma EndAgain(u: Resp, st: nat)
    requires EndsOut(u, None) && st in u.messages && u.messages[st].endPending
    ensures EndsOut(Send(u, End(st, u.messages[st].id)), None)
  {
  }

  lemma OnEndAckDue(env: Env, s: Resp, st: nat, rank: nat)
    requires Due(env, s, None)
    ensures Due(env, HostModel.OnEndAck(env, s, st, rank), None)
  {
    hide CreditOut, PayloadOut, BoundOut, Full;
    var t := HostModel.OnEndAck(env, s, st, rank);
    if !s.aborted {
      EndAckFrame(env, s, st, rank);
      hide HostModel.OnEndAck;
      NothingSent(s, t);
      SameAcks(env, s, t);
      SameOwners(s.messages, t.messages);
    }
  }

  lemma EndAckFrame(env: Env, s: Resp, st: nat, rank: nat)
    ensures var t := HostModel.OnEndAck(env, s, st, rank);
            && t.messages.Keys <= s.messages.Keys && t.entries.Keys <= s.entries.Keys && t.nextSeq == s.nextSeq
            && t.sent == s.sent && t.firstSent == s.firstSent && t.binding == s.binding && t.aborted == s.aborted
            && (forall x :: x in t.entries ==> t.entries[x] == s.entries[x])
            && forall x :: x in t.messages ==> SameButAcks(s.messages[x], t.messages[x])
  {
    hide Full, Range;
    if st in s.messages {
      var m := s.messages[st].(endAck := s.messages[st].endAck + {rank});
      assert SameButAcks(s.messages[st], m) && SameButAcks(s.messages[st], m.(endPending := false));
    }
  }

  ghost predicate SameButAcks(m: RespMessage, m': RespMessage) {
    && m'.id == m.id && m'.total == m.total && m'.done == m.done && m'.reg == m.reg
    && (m'.endPending ==> m.endPending)
  }

  // ------------------------------------------------------ a requester's packets

  predicate LiveAt(messages: map<nat, ReqMessage>, st: nat, k: nat) {
    st in messages && Covers(st, messages[st].total, k)
  }

  predicate MarkedSent(offsets: map<nat, OffsetState>, k: nat) {
    k in offsets && offsets[k].sent
  }

  /** An offset of a live message is marked sent exactly if its normal request went out. */
  ghost predicate RequestsOut(q: Req) {
    && (forall st, k: nat :: LiveAt(q.messages, st, k) ==> (MarkedSent(q.offsets, k) <==> NormalRequest(k) in q.sent))
    && forall k: nat :: NormalRequest(k) in q.sent ==> k < q.nextSeq
  }

  /** END was acknowledged for exactly the submitted messages that are live no more. */
  ghost predicate AcksOut(env: Env, q: Req)
    requires q.submitted <= |env.plan|
  {
    && (forall i: nat :: Requester.Reclaimed(env, q.messages, q.submitted, i) ==> EndAck(Start(env.plan, i)) in q.sent)
    && forall st: nat :: EndAck(st) in q.sent ==> st !in q.messages && st < q.nextSeq
  }

  ghost predicate ReqDue(env: Env, q: Req) {
    q.submitted <= |env.plan| && RequestsOut(q) && AcksOut(env, q)
  }

  lemma SubmitReqDue(env: Env, q: Req)
    requires ReqDue(env, q) && Requester.ReqInv(env, q) && q.submitted < |env.plan|
    ensures ReqDue(env, SubmitReq(env, q))
  {
    hide Requester.DeliveredInv, Requester.ReclaimedInv, Requester.UpInv, Requester.LayoutInv;
    Requester.LayoutBounds(env, q);
    var t := SubmitReq(env, q);
    forall st, k: nat | LiveAt(t.messages, st, k) ensures MarkedSent(t.offsets, k) <==> NormalRequest(k) in t.sent {
      if st != q.nextSeq { assert LiveAt(q.messages, st, k); }
    }
    forall i: nat | Requester.Reclaimed(env, t.messages, t.submitted, i) ensures EndAck(Start(env.plan, i)) in t.sent {
      assert i != q.submitted;
      assert Requester.Reclaimed(env, q.messages, q.submitted, i);
    }
  }

  /** A step that sends neither a normal request nor END_ACK and marks nothing sent. */
  lemma SameRequests(env: Env, q: Req, t: Req)
    requires ReqDue(env, q) && t.nextSeq == q.nextSeq && t.submitted == q.submitted
    requires t.messages.Keys == q.messages.Keys
    requires forall st :: st in q.messages ==> t.messages[st].total == q.messages[st].total
    requires forall k :: NormalRequest(k) in t.sent <==> NormalRequest(k) in q.sent
    requires forall st :: EndAck(st) in t.sent <==> EndAck(st) in q.sent
    requires forall k :: MarkedSent(t.offsets, k) <==> MarkedSent(q.offsets, k)
    ensures ReqDue(env, t)
  {
    forall st, k: nat | LiveAt(t.messages, st, k) ensures MarkedSent(t.offsets, k) <==> NormalRequest(k) in t.sent {
      assert LiveAt(q.messages, st, k);
    }
    forall i: nat | Requester.Reclaimed(env, t.messages, t.submitted, i) ensures EndAck(Start(env.plan, i)) in t.sent {
      assert Requester.Reclaimed(env, q.messages, q.submitted, i);
    }
  }

  lemma TakePayloadDue(env: Env, q: Req, p: nat, sub: nat)
    requires ReqDue(env, q)
    ensures ReqDue(env, TakePayload(q, p, sub))
  {
    hide ReqDue, FindReqMessage;
    SameRequests(env, q, TakePayload(q, p, sub));
  }

  /** The answer to a credit of a live message. */
  function AnswerTo(q: Req, m: ReqMessage, k: nat, repair: bool): multiset<Up> {
    if m.complete && m.pull then multiset{}
    else if repair then multiset{RepairRequest(k)}
    else if MarkedSent(q.offsets, k) then multiset{}
    else multiset{NormalRequest(k)}
  }

  /** A credit for a live offset is answered unless its message is pulled and complete, or it
      is a normal one answered before; and nothing else is sent. */
  lemma CreditIsAnswered(env: Env, q: Req, k: nat, repair: bool, sub: nat, st: nat)
    requires Requester.ReqInv(env, q) && LiveAt(q.messages, st, k)
    ensures var t, m := TakeCredit(q, k, repair, sub), q.messages[st];
            && t.sent == q.sent + AnswerTo(q, m, k, repair)
            && (forall x :: MarkedSent(t.offsets, x) <==>
                  MarkedSent(q.offsets, x) || (x == k && !repair && !(m.complete && m.pull)))
            && t.messages == q.messages[st := m.(ackedSubs := m.ackedSubs + {sub})] && t.held == q.held
            && t.nextSeq == q.nextSeq && t.submitted == q.submitted
  {
    hide Requester.DeliveredInv, Requester.ReclaimedInv, Requester.UpInv;
    Requester.OwnerUnique(env, q.messages, q.submitted, q.nextSeq, st, FindReqMessage(q.messages, k).value, k);
  }

  /** A credit for an offset that is live no more is not answered; one ahead of what was
      submitted is a protocol violation. */
  lemma StrayCredit(q: Req, k: nat, repair: bool, sub: nat)
    requires forall st :: !LiveAt(q.messages, st, k)
    ensures TakeCredit(q, k, repair, sub) == if k < q.nextSeq then q else q.(violations := q.violations + 1)
  {
    if FindReqMessage(q.messages, k).Some? { assert LiveAt(q.messages, FindReqMessage(q.messages, k).value, k); }
  }

  /** So is a payload ahead of what was submitted; one of a reclaimed message changes nothing. */
  lemma StrayPayload(q: Req, p: nat, sub: nat)
    requires forall st :: !LiveAt(q.messages, st, p)
    ensures TakePayload(q, p, sub) == if p < q.nextSeq then q else q.(violations := q.violations + 1)
  {
    if FindReqMessage(q.messages, p).Some? { assert LiveAt(q.messages, FindReqMessage(q.messages, p).value, p); }
  }

  /** A payload of a live message is held, and counted exactly if it is new. */
  lemma PayloadIsTaken(env: Env, q: Req, p: nat, sub: nat, st: nat)
    requires Requester.ReqInv(env, q) && LiveAt(q.messages, st, p)
    ensures var t, isNew := TakePayload(q, p, sub), !(p in q.offsets && q.offsets[p].delivered);
            && p in t.held && t.sent == q.sent && t.messages.Keys == q.messages.Keys
            && t.messages[st].delivered == q.messages[st].delivered
               + (if isNew && !q.messages[st].complete then 1 else 0)
            && sub in t.messages[st].ackedSubs
            && forall x :: x in q.messages && x != st ==> t.messages[x] == q.messages[x]
  {
    hide Requester.ReclaimedInv, Requester.UpInv;
    Requester.OwnerUnique(env, q.messages, q.submitted, q.nextSeq, st, FindReqMessage(q.messages, p).value, p);
    if q.messages[st].complete { Requester.CompleteHeld(q.messages, q.offsets, q.held, st); }
  }

  /** A response hands over its payload first, and then answers its credit: a pulled message
      that the payload completes is not asked for again. */
  lemma ResponseIsAnswered(env: Env, q: Req, d: Down, st: nat)
    requires Requester.ReqInv(env, q) && d.Response? && d.credit.Some? && LiveAt(q.messages, st, d.credit.value)
    requires d.payload.Some? ==> d.payload.value < q.nextSeq
    ensures var t := OnResponse(q, d);
            && st in t.messages
            && t.sent == q.sent + AnswerTo(q, t.messages[st], d.credit.value, d.repair)
            && (d.payload.Some? && (exists x :: LiveAt(q.messages, x, d.payload.value)) ==> d.payload.value in t.held)
  {
    hide Requester.ReqInv, TakeCredit, TakePayload, Covers, LiveAt;
    var k := d.credit.value;
    if d.payload.None? {
      CreditIsAnswered(env, q, k, d.repair, d.sub, st);
    } else {
      var p := d.payload.value;
      var u := TakePayload(q, p, d.sub);
      Requester.TakePayloadKeeps(env, q, p, d.sub);
      PayloadMarks(q, p, d.sub, st, k);
      CreditIsAnswered(env, u, k, d.repair, d.sub, st);
      if x :| LiveAt(q.messages, x, p) { PayloadIsTaken(env, q, p, d.sub, x); }
    }
  }

  /** A payload sends nothing, ends no message, and marks nothing as sent. */
  lemma PayloadMarks(q: Req, p: nat, sub: nat, st: nat, k: nat)
    requires LiveAt(q.messages, st, k)
    ensures var t := TakePayload(q, p, sub);
            LiveAt(t.messages, st, k) && t.sent == q.sent && (MarkedSent(t.offsets, k) <==> MarkedSent(q.offsets, k))
  {
    hide FindReqMessage;
  }

  lemma TakeCreditDue(env: Env, q: Req, k: nat, repair: bool, sub: nat)
    requires ReqDue(env, q) && Requester.ReqInv(env, q)
    ensures ReqDue(env, TakeCredit(q, k, repair, sub))
  {
    hide ReqDue, Requester.ReqInv, TakeCredit;
    var t := TakeCredit(q, k, repair, sub);
    if st :| LiveAt(q.messages, st, k) {
      CreditIsAnswered(env, q, k, repair, sub, st);
      AnsweredDue(env, q, t, k, st, AnswerTo(q, q.messages[st], k, repair));
    } else {
      StrayCredit(q, k, repair, sub);
      FrameDue(env, q, t);
    }
  }

  lemma FrameDue(env: Env, q: Req, t: Req)
    requires ReqDue(env, q) && t == q.(violations := t.violations)
    ensures ReqDue(env, t)
  {
  }

  lemma AnsweredDue(env: Env, q: Req, t: Req, k: nat, st: nat, d: multiset<Up>)
    requires ReqDue(env, q) && Requester.ReqInv(env, q) && LiveAt(q.messages, st, k)
    requires t.nextSeq == q.nextSeq && t.submitted == q.submitted && t.messages.Keys == q.messages.Keys
    requires forall x :: x in q.messages ==> t.messages[x].total == q.messages[x].total
    requires t.sent == q.sent + d && d <= multiset{NormalRequest(k), RepairRequest(k)}
    requires NormalRequest(k) in d ==> MarkedSent(t.offsets, k)
    requires MarkedSent(t.offsets, k) ==> MarkedSent(q.offsets, k) || NormalRequest(k) in d
    requires forall x :: x != k ==> (MarkedSent(t.offsets, x) <==> MarkedSent(q.offsets, x))
    requires MarkedSent(q.offsets, k) ==> MarkedSent(t.offsets, k)
    ensures ReqDue(env, t)
  {
    hide Requester.DeliveredInv, Requester.ReclaimedInv, Requester.UpInv;
    Requester.MessageEnd(env, q.messages, q.submitted, q.nextSeq, st);
    forall x, y: nat | LiveAt(t.messages, x, y) ensures MarkedSent(t.offsets, y) <==> NormalRequest(y) in t.sent {
      assert LiveAt(q.messages, x, y);
    }
    forall i: nat | Requester.Reclaimed(env, t.messages, t.submitted, i) ensures EndAck(Start(env.plan, i)) in t.sent {
      assert Requester.Reclaimed(env, q.messages, q.submitted, i);
    }
  }

  lemma OnResponseDue(env: Env, q: Req, d: Down)
    requires ReqDue(env, q) && Requester.ReqInv(env, q) && d.Response?
    requires d.payload.Some? ==> d.payload.value < q.nextSeq
    ensures ReqDue(env, OnResponse(q, d))
  {
    hide ReqDue, Requester.ReqInv, TakeCredit, TakePayload;
    if d.payload.Some? {
      TakePayloadDue(env, q, d.payload.value, d.sub);
      Requester.TakePayloadKeeps(env, q, d.payload.value, d.sub);
    }
    if d.credit.Some? {
      var t := match d.payload case None => q case Some(p) => TakePayload(q, p, d.sub);
      TakeCreditDue(env, t, d.credit.value, d.repair, d.sub);
    }
  }

  predicate Entombed(tombstones: map<nat, nat>, st: nat, id: nat) {
    TombstoneSlot(id) in tombstones && tombstones[TombstoneSlot(id)] == st
  }

  /** END for a live message is acknowledged exactly if the message is complete, which is then
      forgotten, leaving a tombstone; END for another exactly if its tombstone says so. */
  lemma EndIsAnswered(q: Req, st: nat, id: nat)
    ensures var t := OnEnd(q, st, id);
            if st in q.messages && q.messages[st].complete then
              && t.sent == q.sent + multiset{EndAck(st)} && t.messages == q.messages - {st}
              && t.tombstones == q.tombstones[TombstoneSlot(q.messages[st].id) := st]
              && t.held == q.held
            else if st !in q.messages && Entombed(q.tombstones, st, id) then
              t == q.(sent := q.sent + multiset{EndAck(st)})
            else t == q
  {
  }

  lemma OnEndDue(env: Env, q: Req, st: nat, id: nat)
    requires ReqDue(env, q) && Requester.ReqInv(env, q)
    ensures ReqDue(env, OnEnd(q, st, id))
  {
    hide Requester.DeliveredInv, Requester.ReclaimedInv;
    EndIsAnswered(q, st, id);
    var t := OnEnd(q, st, id);
    if st in q.messages && q.messages[st].complete {
      ReclaimedRequests(env, q, st, id);
      Requester.MessageEnd(env, q.messages, q.submitted, q.nextSeq, st);
      MessageNotEmpty(env, q, st);
      forall i: nat | Requester.Reclaimed(env, t.messages, t.submitted, i)
        ensures EndAck(Start(env.plan, i)) in t.sent {
        assert Start(env.plan, i) != st ==> Requester.Reclaimed(env, q.messages, q.submitted, i);
      }
    } else {
      hide ReqDue, Requester.LayoutInv, Requester.UpInv;
      TombstoneDue(env, q, t, st, id);
    }
  }

  lemma MessageNotEmpty(env: Env, q: Req, st: nat)
    requires Requester.ReqInv(env, q) && st in q.messages
    ensures q.messages[st].total > 0
  {
    hide Requester.DeliveredInv, Requester.ReclaimedInv, Requester.UpInv;
    assert Requester.ReqMessageInv(env, q.messages[st], st, q.submitted);
  }

  lemma ReclaimedRequests(env: Env, q: Req, st: nat, id: nat)
    requires ReqDue(env, q) && Requester.ReqInv(env, q) && st in q.messages && q.messages[st].complete
    ensures RequestsOut(OnEnd(q, st, id))
  {
    hide Requester.DeliveredInv, Requester.ReclaimedInv, Requester.UpInv;
    var t := OnEnd(q, st, id);
    forall x, k: nat | LiveAt(t.messages, x, k) ensures MarkedSent(t.offsets, k) <==> NormalRequest(k) in t.sent {
      assert LiveAt(q.messages, x, k);
      if Covers(st, q.messages[st].total, k) {
        Requester.OwnerUnique(env, q.messages, q.submitted, q.nextSeq, x, st, k);
      }
    }
  }

  lemma TombstoneDue(env: Env, q: Req, t: Req, st: nat, id: nat)
    requires ReqDue(env, q) && Requester.ReqInv(env, q) && t == q.(sent := t.sent)
    requires t.sent == q.sent
             || (t.sent == q.sent + multiset{EndAck(st)} && Entombed(q.tombstones, st, id))
    ensures ReqDue(env, t)
  {
    hide Requester.DeliveredInv, Requester.ReclaimedInv, Requester.LayoutInv;
    SameRequests(env, q, t);
  }

  /** A beacon tick sends REGISTER exactly while the message is live, incomplete and not
      acknowledged on the subchannel. */
  lemma BeaconSends(q: Req, st: nat, sub: nat)
    ensures SendRegister(q, st, sub) ==
            if st in q.messages && !q.messages[st].complete && sub !in q.messages[st].ackedSubs
            then q.(sent := q.sent + multiset{Register(st, sub)}) else q
  {
  }

  /** Once REGISTER_ACK has come, no beacon for that subchannel is sent any more. */
  lemma AckSilencesBeacon(q: Req, st: nat, sub: nat)
    ensures var t := OnRegisterAck(q, st, sub);
            && SendRegister(t, st, sub) == t && t.sent == q.sent && t.offsets == q.offsets && t.held == q.held
            && t.messages.Keys == q.messages.Keys
            && (st in q.messages ==> sub in t.messages[st].ackedSubs)
            && forall x :: x in q.messages ==> t.messages[x] == q.messages[x].(ackedSubs := t.messages[x].ackedSubs)
  {
  }

  // ------------------------------------------------------------- in every run

  ghost predicate AllDue(env: Env, s: System) {
    Due(env, s.resp, None) && forall r :: 0 <= r < |s.reqs| ==> ReqDue(env, s.reqs[r])
  }

  lemma InitialDue(env: Env)
    requires EnvOk(env)
    ensures AllDue(env, Initial(env))
  {
  }

  lemma RequesterDue(env: Env, s: System, ev: Event)
    requires SystemInv(env, s) && |s.reqs| == env.n && Enabled(env, s, ev) && RequesterSide(ev)
    requires ReqDue(env, s.reqs[ev.rank])
    ensures ReqDue(env, AtRequester(env, s.reqs[ev.rank], ev))
  {
    hide Inv, ReqDue, Requester.ReqInv, OnResponse, OnEnd;
    var q := s.reqs[ev.rank];
    assert Requester.ReqInv(env, q);
    match ev {
      case SubmitAtRequester(_) => SubmitReqDue(env, q);
      case BeaconTick(_, start, sub) => SameRequests(env, q, SendRegister(q, start, sub));
      case DownArrives(rank, d) =>
        match d {
          case Response(_, _, _, _) =>
            BelowCursor(env, s, d, rank);
            OnResponseDue(env, q, d);
          case RegisterAck(start, sub) => SameRequests(env, q, OnRegisterAck(q, start, sub));
          case End(start, id) => OnEndDue(env, q, start, id);
        }
    }
  }

  lemma BelowCursor(env: Env, s: System, d: Down, rank: nat)
    requires SystemInv(env, s) && d in s.resp.sent && d.Response? && rank < |s.reqs|
    ensures d.payload.Some? ==> d.payload.value < s.reqs[rank].nextSeq
  {
    hide RespInv, ReqsInv;
    DownBelowCursor(s, d, rank);
  }

  lemma ResponderDue(env: Env, s: System, ev: Event)
    requires SystemInv(env, s) && |s.reqs| == env.n && Enabled(env, s, ev) && !RequesterSide(ev) && env.n > 0
    requires Due(env, s.resp, None)
    ensures Due(env, AtResponder(env, s, ev), None)
  {
    hide Due, GlobalInv, ReqsInv, RespInv, RequestOk, HostModel.OnRequest, HostModel.EnterRepair;
    match ev {
      case SubmitAtResponder => SubmitDue(env, s.resp);
      case RegisterArrives(rank, start, sub, picks) =>
        RegisterDue(env, s.resp, start, sub, rank);
        IssueAllDue(env, RecordRegister(env, s.resp, start, sub, rank), picks, None);
      case MasterArrives(k, contributors, choice) => OnRequestDue(env, s.resp, k, Switches(|contributors|), choice);
      case InputArrives(rank, k, repair, choice) => OnRequestDue(env, s.resp, k, Single(rank, repair), choice);
      case AggMissArrives(k, funded) => if k in s.resp.entries { EnterRepairDue(env, s.resp, k, funded); }
      case EndAckArrives(rank, start) => OnEndAckDue(env, s.resp, start, rank);
      case IssueTimer(picks) => IssueAllDue(env, s.resp, picks, None);
      case CreditTimer(k, funded) => if k in s.resp.entries { EnterRepairDue(env, s.resp, k, funded); }
      case EndTimer(start, budget) => OnEndTimeoutDue(env, s.resp, start, budget);
    }
  }

  lemma StepDue(env: Env, s: System, ev: Event)
    requires SystemInv(env, s) && |s.reqs| == env.n && Enabled(env, s, ev) && AllDue(env, s) && env.n > 0
    ensures AllDue(env, Step(env, s, ev))
  {
    hide SystemInv, Due, ReqDue, AtRequester, AtResponder, Enabled;
    if RequesterSide(ev) {
      RankOf(env, s, ev);
      RequesterDue(env, s, ev);
    } else {
      ResponderDue(env, s, ev);
    }
  }

  lemma RankOf(env: Env, s: System, ev: Event)
    requires |s.reqs| == env.n && Enabled(env, s, ev) && RequesterSide(ev)
    ensures ev.rank < env.n
  {
  }

  lemma {:induction false} RunDue(env: Env, s: System, evs: seq<Event>)
    requires SystemInv(env, s) && |s.reqs| == env.n && Runs(env, s, evs) && AllDue(env, s) && env.n > 0
    ensures AllDue(env, RunFrom(env, s, evs))
    decreases |evs|
  {
    hide SystemInv, Enabled, AllDue, Step;
    if evs != [] {
      StepDue(env, s, evs[0]);
      HostSystem.StepKeeps(env, s, evs[0]);
      RunDue(env, Step(env, s, evs[0]), evs[1..]);
    }
  }

  lemma ReachableDue(env: Env, s: System)
    requires EnvOk(env) && Reachable(env, s)
    ensures AllDue(env, s) && SystemInv(env, s) && |s.reqs| == env.n
  {
    hide SystemInv, AllDue, Runs, RunFrom;
    var evs: seq<Event> :| Runs(env, Initial(env), evs) && s == RunFrom(env, Initial(env), evs);
    InitialInv(env);
    InitialDue(env);
    RunDue(env, Initial(env), evs);
    ReachableInv(env, s);
  }

  /** What the responder has sent, in every reachable state: each issued credit; each
      committed payload, with the credit it is bound to if it is bound; REGISTER_ACK for
      exactly the subchannels everybody registered on; END for exactly the messages all of
      whose offsets are done; and every offset that everybody answered is done. */
  lemma ResponderSendsItsDue(env: Env, s: System)
    requires EnvOk(env) && Reachable(env, s)
    ensures forall k :: k in s.resp.entries ==> CreditOut(s.resp.sent, k)
    ensures forall p: nat :: CommittedEver(s.resp.entries, s.resp.creditNext, p) ==> PayloadOut(s.resp.sent, p)
    ensures forall k, p: nat :: BoundTo(s.resp.binding, k, p) ==> BoundOut(s.resp.sent, k, p)
    ensures forall st, sub: nat :: st in s.resp.messages && sub < env.nsub ==>
              sub < |s.resp.messages[st].reg|
              && (RegisterAck(st, sub) in s.resp.sent <==> s.resp.messages[st].reg[sub] == Full(env))
    ensures forall st :: st in s.resp.messages ==>
              (End(st, s.resp.messages[st].id) in s.resp.sent <==>
               s.resp.messages[st].done == s.resp.messages[st].total)
    ensures forall k :: k in s.resp.entries && s.resp.entries[k].bitmap == Full(env) ==> s.resp.entries[k].done
  {
    ReachableDue(env, s);
    hide GlobalInv, ReqsInv, ReqDue, EntriesInv, BindingInv, CreditOut, PayloadOut, BoundOut;
    forall st | st in s.resp.messages ensures s.resp.messages[st].done <= s.resp.messages[st].total {
      DoneWithin(env, s.resp, st);
    }
    forall st | st in s.resp.messages ensures |s.resp.messages[st].reg| == env.nsub {
      assert MessageInv(env, s.resp.messages[st], st, s.resp.submitted);
    }
    forall p: nat | CommittedEver(s.resp.entries, s.resp.creditNext, p) ensures s.resp.firstSent[p] > 0 {
      FirstSentExactlyOnce(env, s, p);
    }
  }

  lemma DoneWithin(env: Env, s: Resp, st: nat)
    requires RespInv(env, s) && st in s.messages
    ensures s.messages[st].done <= s.messages[st].total
  {
    hide MessagesInv, EntriesInv, BindingInv, FirstSendInv, OutstandingInv;
    var total := s.messages[st].total;
    RangeSize(st, total);
    SubsetSize(DoneIn(s.entries, st, total), Range(st, total));
  }

  /** What a requester has sent, in every reachable state: the normal request for exactly the
      offsets of live messages it has marked, and END_ACK for exactly the messages it has
      submitted and forgotten. */
  lemma RequesterSendsItsDue(env: Env, s: System, r: nat)
    requires EnvOk(env) && Reachable(env, s) && r < |s.reqs|
    ensures var q := s.reqs[r];
            && (forall st, k: nat :: LiveAt(q.messages, st, k) ==>
                  (MarkedSent(q.offsets, k) <==> NormalRequest(k) in q.sent))
            && q.submitted <= |env.plan|
            && forall i: nat :: i < q.submitted ==>
                 (EndAck(Start(env.plan, i)) in q.sent <==> Start(env.plan, i) !in q.messages)
  {
    ReachableDue(env, s);
    hide Inv, Due;
    var q := s.reqs[r];
    assert ReqDue(env, q);
    forall i: nat | i < q.submitted
      ensures EndAck(Start(env.plan, i)) in q.sent <==> Start(env.plan, i) !in q.messages
    {
      assert Start(env.plan, i) !in q.messages ==> Requester.Reclaimed(env, q.messages, q.submitted, i);
    }
  }
}

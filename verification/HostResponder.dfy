/** The two ends of a channel as objects that update their tables in place
    (reference/arbor-host.cc).  Every method leaves exactly the state that the
    functions of HostModel.dfy give, so what HostSystem.dfy proves of those holds
    of these. */
module HostResponder {
  import opened Prelude
  import opened HostModel
  import opened HostCounting
  import opened HostResponderInvariant
  import opened Pacing

  datatype Policy = Dynamic | StaticRoundRobin | Single

  /** What congestion control publishes for a subchannel. */
  datatype Cc = Cc(window: nat, pacing: nat, nextCredit: nat)

  /** The pacing deadlines after one credit on subchannel `pick`. */
  function Advanced(cc: seq<Cc>, pick: nat, now: nat, maxBurst: nat): (r: seq<Cc>)
    ensures |r| == |cc|
    ensures forall j :: 0 <= j < |cc| ==> r[j].window == cc[j].window && r[j].pacing == cc[j].pacing
  {
    if pick >= |cc| then cc
    else cc[pick := cc[pick].(nextCredit := AdvancePacing(cc[pick].nextCredit, now, cc[pick].pacing, maxBurst))]
  }

  predicate GateOpen(cc: seq<Cc>, pick: nat, now: nat) {
    pick < |cc| && (cc[pick].pacing == 0 || cc[pick].nextCredit <= now)
  }

  /** The deadlines after a burst of credits at one instant. */
  function AdvancedAll(cc: seq<Cc>, picks: seq<nat>, now: nat, maxBurst: nat): (r: seq<Cc>)
    ensures |r| == |cc|
    ensures forall j :: 0 <= j < |cc| ==> r[j].window == cc[j].window && r[j].pacing == cc[j].pacing
    decreases |picks|
  {
    if picks == [] then cc
    else Advanced(AdvancedAll(cc, picks[..|picks| - 1], now, maxBurst), picks[|picks| - 1], now, maxBurst)
  }

  /** Every credit of the burst found its subchannel's gate open. */
  predicate Paced(cc: seq<Cc>, picks: seq<nat>, now: nat, maxBurst: nat)
    decreases |picks|
  {
    picks == [] ||
      (Paced(cc, picks[..|picks| - 1], now, maxBurst)
       && GateOpen(AdvancedAll(cc, picks[..|picks| - 1], now, maxBurst), picks[|picks| - 1], now))
  }

  function CountOf(picks: seq<nat>, j: nat): nat
    decreases |picks|
  {
    if picks == [] then 0
    else CountOf(picks[..|picks| - 1], j) + (if picks[|picks| - 1] == j then 1 else 0)
  }

  /** Each credit of a burst pushes its subchannel's deadline one gap further. */
  lemma {:induction false} DeadlineClimbs(cc: seq<Cc>, picks: seq<nat>, now: nat, maxBurst: nat, j: nat)
    requires j < |cc| && cc[j].pacing > 0 && Paced(cc, picks, now, maxBurst)
    ensures CountOf(picks, j) == 0 ==> AdvancedAll(cc, picks, now, maxBurst)[j] == cc[j]
    ensures CountOf(picks, j) > 0 ==>
              AdvancedAll(cc, picks, now, maxBurst)[j].nextCredit >= now - Debt(cc[j].pacing, maxBurst)
                  + CountOf(picks, j) * cc[j].pacing
    decreases |picks|
  {
    if picks != [] {
      var front, last := picks[..|picks| - 1], picks[|picks| - 1];
      DeadlineClimbs(cc, front, now, maxBurst, j);
      if last == j {
        assert (CountOf(front, j) + 1) * cc[j].pacing == CountOf(front, j) * cc[j].pacing + cc[j].pacing;
      }
    }
  }

  lemma MoreGaps(m: nat, b: nat, gap: nat)
    requires gap > 0 && m >= b > 0
    ensures m * gap > gap * (b - 1)
  {
    assert m * gap - gap * (b - 1) == (m - (b - 1)) * gap;
    assert (m - (b - 1)) * gap >= 1 * gap;
  }

  /** However many credits one event issues, a paced subchannel gets at most the
      allowed burst of them at one instant. */
  lemma {:induction false} BurstPerInstant(cc: seq<Cc>, picks: seq<nat>, now: nat, maxBurst: nat, j: nat)
    requires j < |cc| && cc[j].pacing > 0 && Paced(cc, picks, now, maxBurst)
    ensures CountOf(picks, j) <= Max(1, maxBurst)
    decreases |picks|
  {
    if picks != [] {
      var front, last := picks[..|picks| - 1], picks[|picks| - 1];
      if last == j {
        DeadlineClimbs(cc, front, now, maxBurst, j);
        if CountOf(front, j) >= Max(1, maxBurst) {
          MoreGaps(CountOf(front, j), Max(1, maxBurst), cc[j].pacing);
          assert false;
        }
      } else {
        BurstPerInstant(cc, front, now, maxBurst, j);
      }
    }
  }

  /** An idle spell: the debt limit has overtaken every paced deadline. */
  ghost predicate Idle(cc: seq<Cc>, now: nat, maxBurst: nat) {
    forall j :: 0 <= j < |cc| && cc[j].pacing > 0 ==> cc[j].nextCredit + Debt(cc[j].pacing, maxBurst) <= now
  }

  /** After an idle spell each credit moves its subchannel's deadline by one gap, from the
      earliest moment the debt limit allows; subchannels without pacing are always open. */
  lemma {:induction false} IdleDeadline(cc: seq<Cc>, picks: seq<nat>, now: nat, maxBurst: nat, j: nat)
    requires j < |cc| && Idle(cc, now, maxBurst)
    ensures cc[j].pacing > 0 ==>
              AdvancedAll(cc, picks, now, maxBurst)[j].nextCredit ==
              if CountOf(picks, j) == 0 then cc[j].nextCredit
              else now - Debt(cc[j].pacing, maxBurst) + CountOf(picks, j) * cc[j].pacing
    decreases |picks|
  {
    if picks != [] && cc[j].pacing > 0 {
      var front, last := picks[..|picks| - 1], picks[|picks| - 1];
      IdleDeadline(cc, front, now, maxBurst, j);
      if last == j {
        assert (CountOf(front, j) + 1) * cc[j].pacing == CountOf(front, j) * cc[j].pacing + cc[j].pacing;
      }
    }
  }

  lemma GapsWithinDebt(n: nat, b: nat, gap: nat)
    requires gap > 0 && b > 0
    ensures n * gap <= gap * (b - 1) <==> n < b
  {
    if n >= b { MoreGaps(n, b, gap); } else { ScaleMonotone(n, b - 1, gap); }
  }

  lemma IdleGate(cc: seq<Cc>, picks: seq<nat>, now: nat, maxBurst: nat, j: nat)
    requires j < |cc| && Idle(cc, now, maxBurst)
    ensures GateOpen(AdvancedAll(cc, picks, now, maxBurst), j, now) <==>
              cc[j].pacing == 0 || CountOf(picks, j) < Max(1, maxBurst)
  {
    IdleDeadline(cc, picks, now, maxBurst, j);
    if cc[j].pacing > 0 { GapsWithinDebt(CountOf(picks, j), Max(1, maxBurst), cc[j].pacing); }
  }

  /** After an idle spell a burst passes the gates if and only if it gives each paced
      subchannel no more than the allowed burst; the others may get any number. */
  lemma {:induction false} BurstAfterIdle(cc: seq<Cc>, picks: seq<nat>, now: nat, maxBurst: nat)
    requires Idle(cc, now, maxBurst) && forall i :: 0 <= i < |picks| ==> picks[i] < |cc|
    ensures Paced(cc, picks, now, maxBurst) <==>
              forall j :: 0 <= j < |cc| && cc[j].pacing > 0 ==> CountOf(picks, j) <= Max(1, maxBurst)
    decreases |picks|
  {
    if picks != [] {
      var front, last := picks[..|picks| - 1], picks[|picks| - 1];
      BurstAfterIdle(cc, front, now, maxBurst);
      IdleGate(cc, front, now, maxBurst, last);
      assert CountOf(picks, last) == CountOf(front, last) + 1;
    }
  }

  lemma {:induction false} IssueAllSnoc(env: Env, s: Resp, picks: seq<nat>, pick: nat)
    requires Issuable(env, s, picks) && CanIssue(env, IssueAll(env, s, picks), pick)
    ensures Issuable(env, s, picks + [pick])
    ensures IssueAll(env, s, picks + [pick]) == IssueOne(env, IssueAll(env, s, picks), pick)
    decreases |picks|
  {
    hide CanIssue;
    if picks == [] {
      assert (picks + [pick])[1..] == [];
    } else {
      IssueAllSnoc(env, IssueOne(env, s, picks[0]), picks[1..], pick);
      assert (picks + [pick])[1..] == picks[1..] + [pick];
    }
  }

  lemma LastBeforeCovers(env: Env, s: Resp, starts: seq<nat>, i: nat, x: nat, o: nat)
    requires RespInv(env, s) && Index(starts, s.messages) && x in s.messages
    requires i <= |starts| && (forall j :: 0 <= j < i ==> starts[j] <= o) && (i < |starts| ==> o < starts[i])
    requires i > 0 ==> !Covers(starts[i - 1], s.messages[starts[i - 1]].total, o)
    ensures !Covers(x, s.messages[x].total, o)
  {
    hide EntriesInv, BindingInv, FirstSendInv, OutstandingInv, DoneInv;
    if Covers(x, s.messages[x].total, o) {
      var j :| 0 <= j < |starts| && starts[j] == x;
      var y := starts[i - 1];
      assert MessageInv(env, s.messages[y], y, s.submitted);
      OwnerUnique(env, s.messages, s.submitted, x, y, y);
    }
  }

  lemma NextStartIsLast(env: Env, s: Resp)
    requires RespInv(env, s)
    ensures forall x :: x in s.messages ==> x < s.nextSeq
  {
    hide EntriesInv, BindingInv, FirstSendInv, OutstandingInv, DoneInv;
    forall x | x in s.messages ensures x < s.nextSeq {
      assert MessageInv(env, s.messages[x], x, s.submitted);
      MessageEnd(env, s.messages, s.submitted, s.nextSeq, s.creditNext, x);
    }
  }

  lemma SizesOf(env: Env, s: Resp)
    requires RespInv(env, s)
    ensures |s.subOut| == env.nsub > 0
  {
  }

  lemma RegOf(env: Env, s: Resp, st: nat)
    requires RespInv(env, s) && st in s.messages
    ensures |s.messages[st].reg| == env.nsub
  {
    assert MessageInv(env, s.messages[st], st, s.submitted);
  }

  /** A piggyback binds the head of the queue, which is never the fresh credit itself. */
  lemma PiggybackIs(env: Env, s: Resp, k: nat)
    requires RespInv(env, s) && Fresh(s, k) && s.pending != []
    ensures k in s.entries && s.pending[0] in s.entries && s.pending[0] != k
    ensures var p := s.pending[0];
            && BindEntries(s.entries, k, p)[k].sub == s.entries[k].sub
            && Piggyback(s, k) == s.(pending := s.pending[1..], entries := BindEntries(s.entries, k, p),
                                     binding := s.binding[k := p],
                                     firstSent := s.firstSent + multiset{p},
                                     sent := s.sent + multiset{Response(false, Some(p), Some(k), s.entries[k].sub)})
  {
    hide RespInv, FindMessage;
    HeadHasOwner(env, s);
  }

  lemma GatesOpen(env: Env, s: Resp, pick: nat)
    requires s.outstanding < MAX_OUTSTANDING && pick < env.nsub == |s.subOut|
    requires FindMessage(s.messages, s.creditNext).Some?
    requires var m := s.messages[FindMessage(s.messages, s.creditNext).value];
             pick < |m.reg| && m.reg[pick] == Full(env)
    ensures CanIssue(env, s, pick)
  {
  }

  lemma IssueNone(env: Env, s: Resp)
    ensures Issuable(env, s, []) && IssueAll(env, s, []) == s
  {
  }

  /** A round of IssueCredits is: reserve the entry, then send its carrier. */
  lemma IssueOneIs(env: Env, s: Resp, pick: nat)
    requires RespInv(env, s) && CanIssue(env, s, pick)
    ensures FindMessage(s.messages, s.creditNext).Some?
    ensures var t, k := Reserve(env, s, pick), s.creditNext;
            && k in t.entries && t.entries[k].sub == pick
            && IssueOne(env, s, pick) == if !s.messages[FindMessage(s.messages, k).value].pull then PushSelf(t, k)
                                         else if env.piggyback && t.pending != [] then Piggyback(t, k)
                                         else Send(t, Response(false, None, Some(k), pick))
  {
    CursorIsFresh(env, s, pick);
  }

  lemma HasOwner(env: Env, s: Resp, k: nat)
    requires RespInv(env, s) && k in s.entries
    ensures FindMessage(s.messages, k).Some?
  {
    OwnerOf(env, s, k);
  }

  /** `t` is where the replay of `s` stands at offset `p`, after `replayed` payloads. */
  ghost predicate Replayed(s: Resp, st: nat, t: Resp, p: nat, end: nat, replayed: nat)
    requires st <= end && p <= end
  {
    forall more: nat :: ReplayTail(t, p, end, more) == ReplayTail(s, st, end, replayed + more)
  }

  lemma ReplayedStart(s: Resp, st: nat, end: nat)
    requires st <= end
    ensures Replayed(s, st, s, st, end, 0)
  {
  }

  lemma ReplayedSkip(s: Resp, st: nat, t: Resp, p: nat, end: nat, replayed: nat)
    requires st <= end && p < end && Replayed(s, st, t, p, end, replayed) && !TailPayload(t, p)
    ensures Replayed(s, st, t, p + 1, end, replayed)
  {
    var next := p + 1;
    forall more: nat ensures ReplayTail(t, next, end, more) == ReplayTail(s, st, end, replayed + more) {
      assert ReplayTail(t, p, end, more) == ReplayTail(t, next, end, more);
    }
  }

  lemma ReplayedOne(s: Resp, st: nat, t: Resp, p: nat, end: nat, replayed: nat)
    requires st <= end && p < end && Replayed(s, st, t, p, end, replayed) && TailPayload(t, p)
    ensures Replayed(s, st, Send(t, Response(true, Some(p), None, t.entries[p].sub)), p + 1, end, replayed + 1)
  {
    var u := Send(t, Response(true, Some(p), None, t.entries[p].sub));
    var next := p + 1;
    forall more: nat ensures ReplayTail(u, next, end, more) == ReplayTail(s, st, end, replayed + 1 + more) {
      assert ReplayTail(t, p, end, more + 1) == ReplayTail(u, next, end, more);
    }
  }

  lemma ReplayedEnd(s: Resp, st: nat, t: Resp, p: nat, end: nat, replayed: nat)
    requires st <= end && p <= end && Replayed(s, st, t, p, end, replayed) && (p == end || TailPayload(t, p))
    ensures ReplayTail(s, st, end, replayed) == t
  {
    assert ReplayTail(t, p, end, 0) == t;
  }

  /** How many payloads the replay loop sends from offset `p` on, and the tokens it leaves. */
  function Afford(s: Resp, p: nat, end: nat, tokens: real, size: nat -> real): (r: (nat, real))
    requires p <= end
    ensures tokens >= 0.0 ==> r.1 >= 0.0
    decreases end - p
  {
    if p == end then (0, tokens)
    else if !TailPayload(s, p) then Afford(s, p + 1, end, tokens, size)
    else if tokens < size(p) then (0, tokens)
    else
      var rest := Afford(s, p + 1, end, tokens - size(p), size);
      (rest.0 + 1, rest.1)
  }

  /** What replaying the whole tail costs. */
  function TailCost(s: Resp, p: nat, end: nat, size: nat -> real): real
    requires p <= end
    decreases end - p
  {
    if p == end then 0.0
    else (if TailPayload(s, p) then size(p) else 0.0) + TailCost(s, p + 1, end, size)
  }

  /** The replay goes in order and stops at the first payload the tokens left do not cover:
      everything unbound before that point is resent and paid for, and nothing after it. */
  lemma {:induction false} ReplayStops(s: Resp, p: nat, end: nat, tokens: real, size: nat -> real)
    requires p <= end
    ensures exists stop: nat :: p <= stop <= end && StopsAt(s, p, end, tokens, size, stop)
    decreases end - p
  {
    if p == end || (TailPayload(s, p) && tokens < size(p)) {
      assert TailOf(s, p, p) == {};
      assert StopsAt(s, p, end, tokens, size, p);
    } else if TailPayload(s, p) {
      var t := Send(s, Response(true, Some(p), None, s.entries[p].sub));
      ReplayStops(t, p + 1, end, tokens - size(p), size);
      var stop: nat :| p + 1 <= stop <= end && StopsAt(t, p + 1, end, tokens - size(p), size, stop);
      StopsAfterPaying(s, t, p, end, tokens, size, stop);
    } else {
      ReplayStops(s, p + 1, end, tokens, size);
      var stop: nat :| p + 1 <= stop <= end && StopsAt(s, p + 1, end, tokens, size, stop);
      StopsAfterSkipping(s, p, end, tokens, size, stop);
    }
  }

  ghost function TailOf(s: Resp, p: nat, stop: nat): set<nat> {
    set q: nat | p <= q < stop && TailPayload(s, q)
  }

  lemma StopsAfterSkipping(s: Resp, p: nat, end: nat, tokens: real, size: nat -> real, stop: nat)
    requires p < stop <= end && !TailPayload(s, p) && StopsAt(s, p + 1, end, tokens, size, stop)
    ensures StopsAt(s, p, end, tokens, size, stop)
  {
    hide TailPayload;
    assert TailOf(s, p, stop) == TailOf(s, p + 1, stop);
  }

  lemma StopsAfterPaying(s: Resp, t: Resp, p: nat, end: nat, tokens: real, size: nat -> real, stop: nat)
    requires p < stop <= end && TailPayload(s, p) && tokens >= size(p)
    requires t == Send(s, Response(true, Some(p), None, s.entries[p].sub))
    requires StopsAt(t, p + 1, end, tokens - size(p), size, stop)
    ensures StopsAt(s, p, end, tokens, size, stop)
  {
    var rest := tokens - size(p);
    SameTail(s, t, p + 1, end, rest, size);
    SameTail(s, t, p + 1, stop, rest, size);
    assert TailOf(s, p, stop) == TailOf(t, p + 1, stop) + {p};
  }

  /** The replay from `p` stops at `stop`, with the unbound payloads before it sent and paid
      for, and no tokens for the one there. */
  ghost predicate StopsAt(s: Resp, p: nat, end: nat, tokens: real, size: nat -> real, stop: nat)
    requires p <= stop <= end
  {
    var (n, left) := Afford(s, p, end, tokens, size);
    && n == |TailOf(s, p, stop)|
    && left == tokens - TailCost(s, p, stop, size)
    && (stop < end ==> TailPayload(s, stop) && left < size(stop))
    && ReplayTail(s, p, end, n) == ReplayTail(s, p, stop, n)
  }

  /** Tokens for the whole tail pay exactly its cost, and every payload in it goes out. */
  lemma {:induction false} FundedTailIsReplayed(s: Resp, p: nat, end: nat, tokens: real, size: nat -> real)
    requires p <= end && TailCost(s, p, end, size) <= tokens && forall q :: size(q) >= 0.0
    ensures Afford(s, p, end, tokens, size).1 == tokens - TailCost(s, p, end, size)
    ensures forall q: nat :: p <= q < end && TailPayload(s, q) ==>
              Response(true, Some(q), None, s.entries[q].sub) in ReplayTail(s, p, end,
                  Afford(s, p, end, tokens, size).0).sent
    decreases end - p
  {
    if p < end {
      CostIsPositive(s, p + 1, end, size);
      if TailPayload(s, p) {
        var t := Send(s, Response(true, Some(p), None, s.entries[p].sub));
        SameTail(s, t, p + 1, end, tokens - size(p), size);
        FundedTailIsReplayed(t, p + 1, end, tokens - size(p), size);
        ReplayTailSends(t, p + 1, end, Afford(t, p + 1, end, tokens - size(p), size).0);
      } else {
        FundedTailIsReplayed(s, p + 1, end, tokens, size);
      }
    }
  }

  lemma {:induction false} CostIsPositive(s: Resp, p: nat, end: nat, size: nat -> real)
    requires p <= end && forall q :: size(q) >= 0.0
    ensures TailCost(s, p, end, size) >= 0.0
    decreases end - p
  {
    if p < end { CostIsPositive(s, p + 1, end, size); }
  }

  lemma {:induction false} SameTail(s: Resp, t: Resp, p: nat, end: nat, tokens: real, size: nat -> real)
    requires p <= end && t.entries == s.entries
    ensures Afford(t, p, end, tokens, size) == Afford(s, p, end, tokens, size)
    ensures TailCost(t, p, end, size) == TailCost(s, p, end, size)
    decreases end - p
  {
    if p < end {
      SameTail(s, t, p + 1, end, tokens, size);
      SameTail(s, t, p + 1, end, tokens - size(p), size);
    }
  }

  function Without(starts: seq<nat>, st: nat): (r: seq<nat>)
    ensures forall x :: x in r <==> x in starts && x != st
  {
    if starts == [] then []
    else if starts[0] == st then Without(starts[1..], st)
    else [starts[0]] + Without(starts[1..], st)
  }

  lemma {:induction false} WithoutAscending(starts: seq<nat>, st: nat)
    requires Ascending(starts)
    ensures Ascending(Without(starts, st))
  {
    if starts != [] {
      WithoutAscending(starts[1..], st);
      var rest := Without(starts[1..], st);
      forall i | 0 <= i < |rest| ensures starts[0] < rest[i] {
        assert rest[i] in starts[1..];
        var j :| 0 <= j < |starts[1..]| && starts[1..][j] == rest[i];
        assert starts[j + 1] == rest[i];
      }
    }
  }

  lemma IndexShrunk(starts: seq<nat>, messages: map<nat, RespMessage>, st: nat)
    requires Index(starts, messages)
    ensures Index(Without(starts, st), messages - {st})
  {
    WithoutAscending(starts, st);
  }

  lemma RetireParts(env: Env, s: Resp, k: nat)
    requires RespInv(env, s) && k in s.entries && Finishable(env, s, k)
    ensures s.outstanding > 0 && s.entries[k].sub < |s.subOut| && FindMessage(s.messages, k).Some?
  {
    OwnerOf(env, s, k);
    hide MessagesInv, BindingInv, FirstSendInv, DoneInv, FindMessage;
    assert EntryInv(env, s.entries[k]);
    CreditDone(s.entries, k, s.entries[k].(done := true), s.outstanding, s.subOut);
  }

  lemma NotFinished(env: Env, s: Resp, k: nat)
    requires k in s.entries && !Finishable(env, s, k)
    ensures MarkDone(env, s, k) == s
  {
  }

  lemma IssuedHasEntry(env: Env, s: Resp, k: nat)
    requires RespInv(env, s) && k < s.creditNext && FindMessage(s.messages, k).Some?
    ensures k in s.entries
  {
    hide MessagesInv, BindingInv, FirstSendInv, OutstandingInv, DoneInv;
    assert Live(s.messages, k);
  }

  lemma RecordedKeeps(env: Env, s: Resp, k: nat, from: Sender)
    requires RespInv(env, s) && k in s.entries && (from.Single? ==> from.rank < env.n)
    requires Recorded(env, s, k, from).Some?
    ensures RespInv(env, Recorded(env, s, k, from).value)
  {
    assert EntryInv(env, s.entries[k]);
    hide RespInv;
    SetBitmapKeeps(env, s, k, Recorded(env, s, k, from).value.entries[k].bitmap);
  }

  class ResponderChannel {
    const env: Env
    const policy: Policy
    const startupWindow: nat
    const channelPacing: nat
    const maxBurst: nat
    const repairRate: real
    const repairBurst: real

    var messages: map<nat, RespMessage>
    var starts: seq<nat>
    var entries: map<nat, Entry>
    var submitted: nat
    var nextSeq: nat
    var creditNext: nat
    var outstanding: nat
    var subOut: seq<nat>
    var subRR: nat
    var cc: seq<Cc>
    var nextChannelCredit: nat
    var pending: seq<nat>
    var bucket: Bucket
    var aborted: bool
    ghost var sent: multiset<Down>
    ghost var binding: map<nat, nat>
    ghost var firstSent: multiset<nat>

    ghost function State(): Resp
      reads this
    {
      Resp(messages, entries, submitted, nextSeq, creditNext, outstanding, subOut, pending, aborted, sent, binding,
           firstSent)
    }

    ghost predicate Valid()
      reads this
    {
      RespInv(env, State()) && Index(starts, messages) && |cc| == env.nsub && repairRate > 0.0
    }

    constructor (env: Env, policy: Policy, startupWindow: nat, channelPacing: nat, maxBurst: nat, repairRate: real,
                 repairBurst: real, cc: seq<Cc>)
      requires EnvOk(env) && |cc| == env.nsub && repairRate > 0.0
      ensures Valid() && this.env == env && State() == InitialResp(env)
    {
      this.env, this.policy, this.startupWindow, this.channelPacing, this.maxBurst := env, policy, startupWindow,
          channelPacing, maxBurst;
      this.repairRate, this.repairBurst, this.cc := repairRate, repairBurst, cc;
      messages, starts, entries := map[], [], map[];
      submitted, nextSeq, creditNext, outstanding, subOut := 0, 0, 0, 0, seq(env.nsub, _ => 0);
      subRR, nextChannelCredit, pending, bucket, aborted := 0, 0, [], Bucket(repairBurst, 0), false;
      sent, binding, firstSent := multiset{}, map[], multiset{};
      new;
      InitialRespInv(env);
    }

    /** The table lookup: the last message starting at or before the offset, if it covers it. */
    method FindRespMessage(o: nat) returns (r: Option<nat>)
      requires Valid()
      ensures r == FindMessage(messages, o)
    {
      hide EntriesInv, BindingInv, FirstSendInv, OutstandingInv, DoneInv;
      var i := 0;
      while i < |starts| && starts[i] <= o
        invariant 0 <= i <= |starts|
        invariant forall j :: 0 <= j < i ==> starts[j] <= o
      {
        i := i + 1;
      }
      if i > 0 {
        var st := starts[i - 1];
        if o - st < messages[st].total {
          FoundIs(env, messages, submitted, nextSeq, creditNext, st, o);
          return Some(st);
        }
      }
      forall x | x in messages ensures !Covers(x, messages[x].total, o) {
        LastBeforeCovers(env, State(), starts, i, x, o);
      }
      return None;
    }

    /** Submit on the responder side; the credits it can issue go out at once. */
    method Submit(d: Desc, now: nat) returns (ghost picks: seq<nat>)
      requires Valid() && submitted < |env.plan| && d == env.plan[submitted]
      modifies this
      ensures Valid()
      ensures Issuable(env, SubmitResp(env, old(State())), picks)
      ensures State() == IssueAll(env, SubmitResp(env, old(State())), picks)
    {
      hide RespInv, Index;
      SubmitKeeps(env, State());
      NextStartIsLast(env, State());
      ghost var before := State();
      IndexGrown(starts, messages, nextSeq, SubmitResp(env, before).messages[nextSeq]);
      messages := messages[nextSeq := RespMessage(submitted, nextSeq, d.total, d.pull, 0, 0, seq(env.nsub, _ => {}),
                                                  false, {})];
      starts := starts + [nextSeq];
      submitted := submitted + 1;
      nextSeq := nextSeq + d.total;
      assert State() == SubmitResp(env, before);
      picks := IssueCredits(now);
    }

    function Window(j: nat): nat
      requires j < |cc| && env.nsub > 0
      reads this
    {
      if cc[j].window > 0 then cc[j].window else Max(1, startupWindow / env.nsub)
    }

    /** The three gates of one subchannel: registration, window, pacing. */
    predicate Open(m: RespMessage, j: nat, now: nat)
      requires j < |cc| && j < |m.reg| && j < |subOut| && env.nsub > 0
      reads this
    {
      m.reg[j] == Full(env) && subOut[j] < Window(j) && (cc[j].pacing == 0 || cc[j].nextCredit <= now)
    }

    /** Pick a subchannel whose gates are open, in rotation. */
    method PickSubchannel(m: RespMessage, now: nat) returns (pick: Option<nat>)
      requires env.nsub > 0 && |cc| == env.nsub && |m.reg| == env.nsub && |subOut| == env.nsub
      ensures pick.Some? ==> pick.value < env.nsub && Open(m, pick.value, now)
      ensures pick.Some? && policy.Single? ==> pick.value == 0
      ensures pick.Some? && policy.Dynamic? ==>
                exists t: nat :: t < env.nsub && pick.value == Turn(subRR, t, env.nsub)
                  && forall u: nat :: u < t ==> !Open(m, Turn(subRR, u, env.nsub), now)
      ensures pick.None? && policy.Dynamic? ==> forall j: nat :: j < env.nsub ==> !Open(m, j, now)
    {
      var candidates := if policy.Dynamic? then env.nsub else 1;
      var i := 0;
      while i < candidates
        invariant 0 <= i <= candidates
        invariant policy.Dynamic? ==> forall t: nat :: t < i ==> !Open(m, Turn(subRR, t, env.nsub), now)
      {
        var s := if policy.Single? then 0 else Turn(subRR, i, env.nsub);
        if Open(m, s, now) {
          return Some(s);
        }
        i := i + 1;
      }
      if policy.Dynamic? {
        forall j: nat | j < env.nsub ensures !Open(m, j, now) {
          RotationCovers(subRR, env.nsub, j);
        }
      }
      return None;
    }

    /** Move the rotation and the pacing deadlines past the chosen subchannel. */
    method AdvanceGates(pick: nat, now: nat)
      requires pick < |cc|
      modifies this`subRR, this`cc, this`nextChannelCredit
      ensures cc == Advanced(old(cc), pick, now, maxBurst) && subRR == pick + 1
      ensures nextChannelCredit == if channelPacing > 0
              then AdvancePacing(old(nextChannelCredit), now, channelPacing, maxBurst)
                                   else old(nextChannelCredit)
    {
      subRR := pick + 1;
      cc := cc[pick := cc[pick].(nextCredit := AdvancePacing(cc[pick].nextCredit, now, cc[pick].pacing, maxBurst))];
      if channelPacing > 0 {
        nextChannelCredit := AdvancePacing(nextChannelCredit, now, channelPacing, maxBurst);
      }
    }

    /** Account for the credit of the next offset and create its entry. */
    method ReserveCredit(st: nat, pick: nat)
      requires Valid() && CanIssue(env, State(), pick) && FindMessage(messages, creditNext) == Some(st)
      modifies this`entries, this`creditNext, this`outstanding, this`subOut, this`messages
      ensures State() == Reserve(env, old(State()), pick) && Valid() && Fresh(State(), old(creditNext))
    {
      hide RespInv, Index, FindMessage, Fresh;
      ghost var s := State();
      ReserveKeeps(env, s, pick);
      IndexKept(starts, messages, st, messages[st].(issued := messages[st].issued + 1));
      entries := entries[creditNext := FreshEntry(pick)];
      creditNext := creditNext + 1;
      outstanding := outstanding + 1;
      subOut := subOut[pick := subOut[pick] + 1];
      messages := messages[st := messages[st].(issued := messages[st].issued + 1)];
    }

    /** Send a payload for the first time, riding on a credit or alone. */
    method SendResponseFor(p: nat, credit: Option<nat>)
      requires p in entries && (credit.Some? ==> credit.value in entries)
      modifies this`sent, this`firstSent
      ensures sent == old(sent) + multiset{Response(false, Some(p), credit,
                                            entries[if credit.Some? then credit.value else p].sub)}
      ensures firstSent == old(firstSent) + multiset{p}
    {
      var sub := if credit.Some? then entries[credit.value].sub else entries[p].sub;
      sent := sent + multiset{Response(false, Some(p), credit, sub)};
      firstSent := firstSent + multiset{p};
    }

    /** Push: the credit carries its own payload, committed at once. */
    method PushData(k: nat)
      requires Valid() && Fresh(State(), k)
      modifies this`entries, this`sent, this`firstSent, this`binding
      ensures Valid() && State() == PushSelf(old(State()), k)
    {
      hide RespInv, Index;
      PushSelfKeeps(env, State(), k);
      entries := entries[k := entries[k].(hasPayload := true, committed := true, boundPayload := Some(k),
                                          boundBy := Some(k))];
      binding := binding[k := k];
      SendResponseFor(k, Some(k));
    }

    /** Pull, steady state: the credit carries the oldest waiting payload. */
    method PiggybackCredit(k: nat)
      requires Valid() && Fresh(State(), k) && pending != []
      modifies this`entries, this`pending, this`sent, this`firstSent, this`binding
      ensures Valid() && State() == Piggyback(old(State()), k)
    {
      hide RespInv, Index, FindMessage, Fresh, Piggyback;
      PiggybackKeeps(env, State(), k);
      PiggybackIs(env, State(), k);
      var p := pending[0];
      pending := pending[1..];
      entries := entries[k := entries[k].(boundPayload := Some(p))];
      entries := entries[p := entries[p].(boundBy := Some(k))];
      binding := binding[k := p];
      SendResponseFor(p, Some(k));
    }

    /** The carrier of a fresh credit `k`: its own payload, the oldest waiting one, or none. */
    method SendCredit(k: nat, pick: nat, pull: bool)
      requires Valid() && Fresh(State(), k) && entries[k].sub == pick
      modifies this`entries, this`pending, this`sent, this`firstSent, this`binding
      ensures Valid()
      ensures State() == if !pull then PushSelf(old(State()), k)
                         else if env.piggyback && old(pending) != [] then Piggyback(old(State()), k)
                         else Send(old(State()), Response(false, None, Some(k), pick))
    {
      if !pull {
        PushData(k);
      } else if env.piggyback && pending != [] {
        PiggybackCredit(k);
      } else {
        hide RespInv, Index;
        sent := sent + multiset{Response(false, None, Some(k), pick)};
      }
    }

    /** No further credit can be issued now: none is left, or every gate is shut. */
    ghost predicate Stalled(now: nat)
      requires env.nsub > 0 && |cc| == |subOut| == env.nsub
      reads this
    {
      || outstanding >= MAX_OUTSTANDING
      || FindMessage(messages, creditNext).None?
      || var m := messages[FindMessage(messages, creditNext).value];
         forall j: nat :: j < env.nsub && j < |m.reg| ==> !Open(m, j, now)
    }

    /** Issue the next credit on a subchannel whose gates are open. */
    method IssueOn(st: nat, pick: nat, now: nat)
      requires Valid() && CanIssue(env, State(), pick) && FindMessage(messages, creditNext) == Some(st)
      requires pick < |cc| == |subOut|
      modifies this
      ensures Valid() && State() == IssueOne(env, old(State()), pick)
      ensures outstanding == old(outstanding) + 1
      ensures pick < |old(subOut)| && subOut == old(subOut)[pick := old(subOut[pick]) + 1]
      ensures cc == Advanced(old(cc), pick, now, maxBurst) && subRR == pick + 1
    {
      hide RespInv, CanIssue, IssueOne, Index, Fresh;
      IssueOneIs(env, State(), pick);
      var k, pull := creditNext, messages[st].pull;
      AdvanceGates(pick, now);
      ReserveCredit(st, pick);
      SendCredit(k, pick, pull);
    }

    /** One round of IssueCredits. */
    method IssueRound(now: nat) returns (pick: Option<nat>)
      requires Valid() && outstanding < MAX_OUTSTANDING && |cc| == |subOut| == env.nsub > 0
      modifies this
      ensures Valid()
      ensures if pick.Some? then GateOpen(old(cc), pick.value, now)
              && cc == Advanced(old(cc), pick.value, now, maxBurst)
              else cc == old(cc)
      ensures pick.Some? ==>
                && CanIssue(env, old(State()), pick.value) && State() == IssueOne(env, old(State()), pick.value)
                && outstanding == old(outstanding) + 1 && pick.value < |cc| && pick.value < |old(subOut)|
                && subOut == old(subOut)[pick.value := old(subOut[pick.value]) + 1]
                   && subOut[pick.value] <= Window(pick.value)
      ensures pick.None? ==>
                State() == old(State()) && (policy.Dynamic? && channelPacing == 0 ==> Stalled(now))
    {
      hide RespInv, CanIssue, IssueOne, Index;
      ghost var s := State();
      if channelPacing > 0 && now < nextChannelCredit {
        return None;
      }
      var owner := FindRespMessage(creditNext);
      if owner.None? {
        return None;
      }
      var m := messages[owner.value];
      RegOf(env, s, owner.value);
      pick := PickSubchannel(m, now);
      if pick.Some? {
        GatesOpen(env, s, pick.value);
        IssueOn(owner.value, pick.value, now);
      }
    }

    /** Issue credits until a gate closes: never beyond a window, and under the
        dynamic policy without a channel cap never short of what the gates allow. */
    method IssueCredits(now: nat) returns (ghost picks: seq<nat>)
      requires Valid()
      modifies this
      ensures Valid() && |cc| == |subOut| == |old(subOut)| == env.nsub > 0
      ensures Issuable(env, old(State()), picks) && State() == IssueAll(env, old(State()), picks)
      ensures Paced(old(cc), picks, now, maxBurst) && cc == AdvancedAll(old(cc), picks, now, maxBurst)
      ensures forall j :: 0 <= j < |subOut| ==> subOut[j] <= old(subOut[j]) || subOut[j] <= Window(j)
      ensures policy.Dynamic? && channelPacing == 0 ==> Stalled(now)
    {
      hide RespInv, CanIssue, IssueOne, Issuable, IssueAll, Index;
      ghost var s := State();
      SizesOf(env, s);
      picks := [];
      IssueNone(env, s);
      while outstanding < MAX_OUTSTANDING
        invariant Valid() && Issuable(env, s, picks) && State() == IssueAll(env, s, picks)
        invariant Paced(old(cc), picks, now, maxBurst) && cc == AdvancedAll(old(cc), picks, now, maxBurst)
        invariant |subOut| == |cc| == |s.subOut| == env.nsub > 0
        invariant forall j :: 0 <= j < |subOut| ==> subOut[j] <= s.subOut[j] || subOut[j] <= Window(j)
        decreases MAX_OUTSTANDING - outstanding
      {
        var pick := IssueRound(now);
        if pick.None? {
          break;
        }
        IssueAllSnoc(env, s, picks, pick.value);
        assert (picks + [pick.value])[..|picks|] == picks;
        picks := picks + [pick.value];
      }
    }

    // ------------------------------------------------------------- requests

    /** First-send the payload that has waited longest. */
    method FlushHead()
      requires RespInv(env, State()) && pending != []
      modifies this`pending, this`sent, this`firstSent
      ensures State() == FlushOne(old(State())) && pending == old(pending)[1..]
    {
      hide RespInv, FindMessage;
      HeadHasOwner(env, State());
      var p := pending[0];
      pending := pending[1..];
      SendResponseFor(p, None);
    }

    /** Nothing waits any longer: first-send what no credit picked up. */
    method FlushPendingResponses()
      requires Valid()
      modifies this`pending, this`sent, this`firstSent
      ensures Valid() && State() == FlushAll(old(State()))
    {
      hide RespInv, Index, FindMessage, FlushOne;
      ghost var s := State();
      FlushAllKeeps(env, s);
      while pending != []
        invariant RespInv(env, State()) && FlushAll(s) == FlushAll(State())
        decreases |pending|
      {
        FlushOneKeeps(env, State());
        FlushHead();
      }
    }

    method StartEndHandshake(st: nat)
      requires Valid() && st in messages && messages[st].done == messages[st].total && !messages[st].endPending
      modifies this`messages, this`sent
      ensures Valid() && State() == StartEnd(old(State()), st)
    {
      hide RespInv, Index;
      StartEndKeeps(env, State(), st);
      IndexKept(starts, messages, st, messages[st].(endPending := true));
      messages := messages[st := messages[st].(endPending := true)];
      sent := sent + multiset{End(st, messages[st].id)};
    }

    method CheckEnd(k: nat)
      requires Valid()
      modifies this`messages, this`sent
      ensures Valid() && State() == EndCheck(old(State()), k)
    {
      hide RespInv, Index, FindMessage;
      var owner := FindRespMessage(k);
      if owner.Some? && messages[owner.value].done == messages[owner.value].total && !messages[owner.value].endPending {
        StartEndHandshake(owner.value);
      }
    }

    /** Retire the credit of a finished offset. */
    method RetireCredit(k: nat)
      requires Valid() && k in entries && Finishable(env, State(), k)
      modifies this`entries, this`outstanding, this`subOut, this`messages
      ensures Valid() && State() == MarkDone(env, old(State()), k)
    {
      hide RespInv, Index, FindMessage;
      ghost var s := State();
      MarkDoneKeeps(env, s, k);
      RetireParts(env, s, k);
      var st := FindRespMessage(k);
      IndexKept(starts, messages, st.value, messages[st.value].(done := messages[st.value].done + 1));
      var sub := entries[k].sub;
      entries := entries[k := entries[k].(done := true)];
      outstanding := outstanding - 1;
      if subOut[sub] > 0 {
        subOut := subOut[sub := subOut[sub] - 1];
      }
      messages := messages[st.value := messages[st.value].(done := messages[st.value].done + 1)];
    }

    /** CheckDone: a committed offset whose bitmap is full is done, and its budget is reissued. */
    method CheckDone(k: nat, now: nat) returns (ghost picks: seq<nat>)
      requires Valid() && k in entries
      modifies this
      ensures Valid()
      ensures ConsumeOk(env, old(State()), k, Picks(picks, []))
              && State() == Consume(env, old(State()), k, Picks(picks, []))
    {
      hide RespInv, Index, CanIssue, MarkDone, IssueOne;
      picks := [];
      if !entries[k].done && entries[k].committed && entries[k].bitmap == Full(env) {
        RetireCredit(k);
        picks := IssueCredits(now);
      } else {
        NotFinished(env, State(), k);
      }
    }

    /** CommitEntry: the result of an offset exists; send it, and go on. */
    method CommitEntry(k: nat, now: nat) returns (ghost picks: Picks)
      requires Valid() && k in entries && !entries[k].committed
      modifies this
      ensures Valid() && pending == []
      ensures CommitOk(env, old(State()), k, picks) && State() == Commit(env, old(State()), k, picks)
    {
      hide RespInv, Index, CanIssue, IssueOne, Issuable, IssueAll, FlushAll, EndCheck, FindMessage, MarkDone;
      ghost var s := State();
      MarkCommittedKeeps(env, s, k);
      entries := entries[k := entries[k].(committed := true, hasPayload := true)];
      pending := pending + [k];
      assert State() == MarkCommitted(s, k);
      ghost var first := CheckDone(k, now);
      ghost var second := IssueCredits(now);
      picks := Picks(first, second);
      CommitKeeps(env, s, k, picks);
      FlushPendingResponses();
      CheckEnd(k);
    }

    /** OnRequest: a master claiming a number of contributions, or one rank's input.  A
        single input that should have been aggregated stops the responder. */
    method OnRequest(k: nat, from: Sender, now: nat) returns (stopped: bool, ghost picks: Picks)
      requires Valid() && pending == [] && k < creditNext && (from.Single? ==> from.rank < env.n)
      modifies this
      ensures Valid() && pending == []
      ensures stopped <==> FindMessage(old(messages), k).Some? && Misplaced(env, from)
      ensures stopped ==> State() == old(State())
      ensures !stopped ==> RequestOk(env, old(State()), k, from, picks)
                           && State() == HostModel.OnRequest(env, old(State()), k, from, picks)
    {
      hide RespInv, Index, CanIssue, IssueOne, Issuable, IssueAll, FindMessage, ConsumeOk, Consume, CommitOk, Commit,
           EndCheck;
      stopped, picks := false, Picks([], []);
      var owner := FindRespMessage(k);
      if owner.None? {
        return;
      }
      if Misplaced(env, from) {
        stopped := true;
        return;
      }
      ghost var s := State();
      IssuedHasEntry(env, s, k);
      var e := entries[k];
      match from {
        case Switches(count) =>
          if count != env.n || (!e.committed && e.repairMode) {
            return;
          }
          entries := entries[k := e.(bitmap := Full(env))];
        case Single(rank, _) =>
          if rank in e.bitmap {
            return;
          }
          entries := entries[k := e.(bitmap := e.bitmap + {rank})];
      }
      RecordedKeeps(env, s, k, from);
      picks := SettleEntry(k, now);
    }

    /** What OnRequest does once the bitmap is updated. */
    method SettleEntry(k: nat, now: nat) returns (ghost picks: Picks)
      requires Valid() && pending == [] && k in entries
      modifies this
      ensures Valid() && pending == []
      ensures SettleOk(env, old(State()), k, picks) && State() == Settle(env, old(State()), k, picks)
    {
      hide RespInv, Index, CanIssue, IssueOne, Issuable, IssueAll, FindMessage, CommitOk, Commit, MarkDone;
      ghost var s := State();
      picks := Picks([], []);
      if !entries[k].committed {
        if entries[k].bitmap == Full(env) {
          picks := CommitEntry(k, now);
        }
      } else {
        ghost var first := CheckDone(k, now);
        picks := Picks(first, []);
        SettleKeeps(env, s, k, picks);
        CheckEnd(k);
      }
    }

    /** OnRegister: note the registration; a full bitmap is acknowledged and opens the gate. */
    method OnRegister(st: nat, sub: nat, rank: nat, now: nat) returns (ghost picks: seq<nat>)
      requires Valid() && rank < env.n
      modifies this
      ensures Valid() && Issuable(env, RecordRegister(env, old(State()), st, sub, rank), picks)
      ensures State() == IssueAll(env, RecordRegister(env, old(State()), st, sub, rank), picks)
    {
      hide RespInv, Index, CanIssue, IssueOne;
      picks := [];
      if st !in messages || sub >= |messages[st].reg| {
        return;
      }
      RecordRegisterKeeps(env, State(), st, sub, rank);
      var m := messages[st].(reg := messages[st].reg[sub := messages[st].reg[sub] + {rank}]);
      IndexKept(starts, messages, st, m);
      messages := messages[st := m];
      if m.reg[sub] == Full(env) {
        sent := sent + multiset{RegisterAck(st, sub)};
        picks := IssueCredits(now);
      }
    }

    // --------------------------------------------------------------- repair

    /** Switch an entry to repair and resend its credit with the payload bound to
        it, if the repair budget covers the `size` bytes this will cause; otherwise
        say how long to wait. */
    method EnterRepair(k: nat, now: nat, size: real) returns (funded: bool, wait: nat)
      requires Valid() && k in entries && bucket.at <= now
      modifies this`entries, this`sent, this`bucket
      ensures Valid() && State() == HostModel.EnterRepair(old(State()), k, funded)
      ensures (bucket, funded) == ChargeRepair(old(bucket), now, repairRate, repairBurst, size)
      ensures !funded ==> bucket.tokens < size && wait == RefillWait(bucket.tokens, size, repairRate)
    {
      hide RespInv, Index, FindMessage;
      ghost var s := State();
      HasOwner(env, s, k);
      var e := entries[k];
      var bound := if e.boundPayload.Some? && e.boundPayload.value !in entries then None else e.boundPayload;
      wait := 0;
      funded := false;
      entries := entries[k := e.(repairMode := true, boundPayload := bound)];
      bucket := Refill(bucket, now, repairRate, Most(repairBurst, size));
      if bucket.tokens < size {
        wait := RefillWait(bucket.tokens, size, repairRate);
        EnterRepairKeeps(env, s, k, false);
      } else {
        bucket := bucket.(tokens := bucket.tokens - size);
        funded := true;
        sent := sent + multiset{Response(true, bound, Some(k), e.sub)};
        EnterRepairKeeps(env, s, k, true);
      }
    }

    method OnCreditTimeout(k: nat, now: nat, size: real) returns (funded: bool, wait: nat)
      requires Valid() && bucket.at <= now
      modifies this`entries, this`sent, this`bucket
      ensures Valid() && State() == HostModel.OnCreditTimeout(old(State()), k, funded) && bucket.at <= now
      ensures if k in old(entries) && !old(entries[k]).done
              then (bucket, funded) == ChargeRepair(old(bucket), now, repairRate, repairBurst, size)
              else !funded && bucket == old(bucket)
    {
      funded, wait := false, 0;
      if k in entries && !entries[k].done {
        funded, wait := EnterRepair(k, now, size);
      }
    }

    method OnAggMiss(k: nat, now: nat, size: real) returns (funded: bool, wait: nat)
      requires Valid() && bucket.at <= now
      modifies this`entries, this`sent, this`bucket
      ensures Valid() && State() == HostModel.OnAggMiss(old(State()), k, funded) && bucket.at <= now
      ensures funded ==> (bucket, true) == ChargeRepair(old(bucket), now, repairRate, repairBurst, size)
      ensures !funded ==> bucket == old(bucket) || (bucket.tokens < size
                                                    && wait == RefillWait(bucket.tokens, size, repairRate))
    {
      funded, wait := false, 0;
      if k in entries && !entries[k].committed && !entries[k].done && !entries[k].repairMode {
        funded, wait := EnterRepair(k, now, size);
      }
    }

    /** The replay loop: in order and as far as the tokens go, the payloads no credit carries. */
    method ReplayTailResponses(st: nat, end: nat, size: nat -> real) returns (ghost replayed: nat)
      requires st <= end && Valid()
      modifies this`sent, this`bucket
      ensures bucket.at == old(bucket.at) && State() == ReplayTail(old(State()), st, end, replayed)
      ensures (replayed, bucket.tokens) == Afford(old(State()), st, end, old(bucket.tokens), size)
    {
      hide RespInv, Index, Replayed, ReplayTail;
      replayed := 0;
      ghost var s, full := State(), bucket.tokens;
      var p := st;
      ReplayedStart(s, st, end);
      while p < end
        invariant st <= p <= end
        invariant State() == s.(sent := sent) && bucket.at == old(bucket.at)
        invariant Replayed(s, st, State(), p, end, replayed)
        invariant Afford(s, st, end, full, size).0 == replayed + Afford(s, p, end, bucket.tokens, size).0
        invariant Afford(s, st, end, full, size).1 == Afford(s, p, end, bucket.tokens, size).1
        decreases end - p
      {
        if p in entries && entries[p].committed && entries[p].hasPayload && entries[p].boundBy.None? {
          if bucket.tokens < size(p) {
            break;
          }
          bucket := bucket.(tokens := bucket.tokens - size(p));
          ReplayedOne(s, st, State(), p, end, replayed);
          sent := sent + multiset{Response(true, Some(p), None, entries[p].sub)};
          replayed := replayed + 1;
        } else {
          ReplayedSkip(s, st, State(), p, end, replayed);
        }
        p := p + 1;
      }
      ReplayedEnd(s, st, State(), p, end, replayed);
    }

    /** OnEndTimeout: replay, in order and as far as the budget goes, the payloads of
        the message that no credit carries; then repeat END. */
    method OnEndTimeout(st: nat, now: nat, size: nat -> real) returns (ghost replayed: nat)
      requires Valid() && bucket.at <= now
      modifies this`sent, this`bucket
      ensures Valid() && State() == HostModel.OnEndTimeout(old(State()), st, replayed) && bucket.at <= now
      ensures if st in old(messages) && old(messages[st]).endPending
              then (replayed, bucket.tokens) ==
                     Afford(old(State()), st, st + old(messages[st]).total,
                            Refill(old(bucket), now, repairRate, repairBurst).tokens, size)
              else replayed == 0 && bucket == old(bucket)
    {
      hide RespInv, Index, ReplayTail, Afford;
      replayed := 0;
      if st !in messages || !messages[st].endPending {
        return;
      }
      ghost var s := State();
      bucket := Refill(bucket, now, repairRate, repairBurst);
      replayed := ReplayTailResponses(st, st + messages[st].total, size);
      OnEndTimeoutKeeps(env, s, st, replayed);
      sent := sent + multiset{End(st, messages[st].id)};
    }

    // ------------------------------------------------------------ finishing

    /** OnEndAck: once every requester acknowledged END and every offset is done, forget the message. */
    method OnEndAck(st: nat, rank: nat)
      requires Valid() && pending == [] && rank < env.n
      modifies this`messages, this`starts, this`entries
      ensures Valid() && State() == HostModel.OnEndAck(env, old(State()), st, rank)
    {
      hide RespInv, Index;
      OnEndAckKeeps(env, State(), st, rank);
      if st !in messages {
        return;
      }
      var m := messages[st].(endAck := messages[st].endAck + {rank});
      if m.endAck == Full(env) {
        m := m.(endPending := false);
      }
      IndexKept(starts, messages, st, m);
      messages := messages[st := m];
      if m.endAck == Full(env) && m.done == m.total {
        FinishMessage(st);
      }
    }

    /** Drop a finished message and its entries, offset by offset. */
    method FinishMessage(st: nat)
      requires st in messages && Index(starts, messages)
      modifies this`messages, this`starts, this`entries
      ensures Index(starts, messages) && State() == Erase(old(State()), st)
    {
      hide Index;
      var total := messages[st].total;
      ghost var before := entries;
      var i := 0;
      while i < total
        invariant 0 <= i <= total
        invariant entries == before - Range(st, i)
        invariant messages == old(messages) && starts == old(starts)
      {
        entries := entries - {st + i};
        i := i + 1;
      }
      IndexShrunk(starts, messages, st);
      starts := Without(starts, st);
      messages := messages - {st};
    }
  }
}

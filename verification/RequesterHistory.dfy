/** What a call's ring and credit queues amount to over whole runs
    (protocol/requester.c): which credits are dropped, and how often one is answered. */
module RequesterHistory {
  import opened Prelude
  import opened Requester

  // ------------------------------------------------------ the ring and its past

  /** The ring state of the residue class `residue` after a run. */
  ghost function RingState(es: seq<RingEvent>, residue: nat, n: nat): OffsetState
    requires n > 0
  {
    if es == [] then VACANT
    else
      var st := RingState(es[..|es| - 1], residue, n);
      if OffsetOf(es[|es| - 1]) % n == residue then After(st, es[|es| - 1]) else st
  }

  predicate OfClass(e: RingEvent, k: nat, n: nat)
    requires n > 0
  {
    e.Arrives? && e.credit.offset % n == k % n
  }

  /** The credit at `i` is the last one whose offset shares k's place in the ring. */
  ghost predicate LastOfClass(es: seq<RingEvent>, k: nat, n: nat, i: nat)
    requires n > 0
  {
    && i < |es| && OfClass(es[i], k, n)
    && forall j :: i < j < |es| ==> !OfClass(es[j], k, n)
  }

  ghost predicate AnsweredAfter(es: seq<RingEvent>, k: nat, i: nat) {
    exists j :: i < j < |es| && es[j] == Answered(k)
  }

  /** A normal credit, or one answered since, is what the ring takes for marked. */
  ghost predicate MarkedAt(es: seq<RingEvent>, i: nat)
    requires i < |es| && es[i].Arrives?
  {
    !es[i].credit.repair || AnsweredAfter(es, es[i].credit.offset, i)
  }

  /** The ring remembers the last credit of the class and whether it is marked. */
  ghost predicate TellsAt(es: seq<RingEvent>, k: nat, n: nat, st: OffsetState, i: nat)
    requires n > 0 && LastOfClass(es, k, n, i)
  {
    var o := es[i].credit.offset;
    Remembers(st, o) && (Suppresses(st, o) <==> MarkedAt(es, i))
  }

  ghost predicate Tells(es: seq<RingEvent>, k: nat, n: nat, st: OffsetState)
    requires n > 0
  {
    && (forall i: nat :: LastOfClass(es, k, n, i) ==> TellsAt(es, k, n, st, i))
    && ((forall i: nat :: !LastOfClass(es, k, n, i)) ==> !st.occupied)
  }

  lemma LastStays(es: seq<RingEvent>, e: RingEvent, k: nat, n: nat, i: nat)
    requires n > 0 && i < |es|
    ensures LastOfClass(es + [e], k, n, i) <==> LastOfClass(es, k, n, i) && !OfClass(e, k, n)
  {
    var all := es + [e];
    assert forall j :: 0 <= j < |es| ==> all[j] == es[j];
    assert all[|es|] == e;
  }

  lemma AnsweredStays(es: seq<RingEvent>, e: RingEvent, k: nat, i: nat)
    requires i < |es|
    ensures AnsweredAfter(es + [e], k, i) <==> AnsweredAfter(es, k, i) || e == Answered(k)
  {
    var all := es + [e];
    assert forall j :: 0 <= j < |es| ==> all[j] == es[j];
    assert all[|es|] == e;
  }

  lemma TellsAtNext(es: seq<RingEvent>, e: RingEvent, k: nat, n: nat, st: OffsetState, i: nat)
    requires n > 0 && LastOfClass(es, k, n, i) && TellsAt(es, k, n, st, i) && !OfClass(e, k, n)
    ensures LastOfClass(es + [e], k, n, i)
    ensures TellsAt(es + [e], k, n, if OffsetOf(e) % n == k % n then After(st, e) else st, i)
  {
    hide AnsweredAfter;
    LastStays(es, e, k, n, i);
    AnsweredStays(es, e, es[i].credit.offset, i);
    assert (es + [e])[i] == es[i];
  }

  lemma TellsNext(es: seq<RingEvent>, e: RingEvent, k: nat, n: nat, st: OffsetState)
    requires n > 0 && Tells(es, k, n, st)
    ensures Tells(es + [e], k, n, if OffsetOf(e) % n == k % n then After(st, e) else st)
  {
    hide LastOfClass, AnsweredAfter, TellsAt;
    var all, st' := es + [e], if OffsetOf(e) % n == k % n then After(st, e) else st;
    if OfClass(e, k, n) {
      NewLast(es, e, k, n, st);
      forall i: nat | LastOfClass(all, k, n, i) ensures i == |es| { OnlyLast(all, k, n, i, |es|); }
    } else {
      forall i: nat | LastOfClass(all, k, n, i) ensures TellsAt(all, k, n, st', i) {
        NotTheNew(es, e, k, n, i);
        LastStays(es, e, k, n, i);
        TellsAtNext(es, e, k, n, st, i);
      }
      if i: nat :| LastOfClass(es, k, n, i) {
        TellsAtNext(es, e, k, n, st, i);
      }
    }
  }

  lemma OnlyLast(es: seq<RingEvent>, k: nat, n: nat, i: nat, j: nat)
    requires n > 0 && LastOfClass(es, k, n, i) && LastOfClass(es, k, n, j)
    ensures i == j
  {
  }

  lemma NotTheNew(es: seq<RingEvent>, e: RingEvent, k: nat, n: nat, i: nat)
    requires n > 0 && !OfClass(e, k, n) && LastOfClass(es + [e], k, n, i)
    ensures i < |es|
  {
  }

  lemma NewLast(es: seq<RingEvent>, e: RingEvent, k: nat, n: nat, st: OffsetState)
    requires n > 0 && Tells(es, k, n, st) && OfClass(e, k, n)
    ensures LastOfClass(es + [e], k, n, |es|) && TellsAt(es + [e], k, n, After(st, e), |es|)
  {
    var all, c := es + [e], e.credit;
    assert !AnsweredAfter(all, c.offset, |es|);
  }

  lemma {:induction false} RingTells(es: seq<RingEvent>, k: nat, n: nat)
    requires n > 0
    ensures Tells(es, k, n, RingState(es, k % n, n))
  {
    if es != [] {
      var before := es[..|es| - 1];
      assert es == before + [es[|es| - 1]];
      RingTells(before, k, n);
      TellsNext(before, es[|es| - 1], k, n, RingState(before, k % n, n));
    }
  }

  /** The dedup of normal credits is exactly as good as the ring: a normal credit for k is
      dropped iff the last credit of k's class was for k itself, and was normal or has
      been answered since.  A repair credit for k, or any credit for an offset a multiple
      of the ring size away, makes the requester answer k again. */
  lemma SuppressedIffMarked(es: seq<RingEvent>, k: nat, n: nat)
    requires n > 0
    ensures Suppresses(RingState(es, k % n, n), k) <==>
            exists i: nat :: LastOfClass(es, k, n, i) && es[i].credit.offset == k && MarkedAt(es, i)
  {
    hide LastOfClass, AnsweredAfter;
    var st := RingState(es, k % n, n);
    RingTells(es, k, n);
    if i: nat :| LastOfClass(es, k, n, i) {
      assert TellsAt(es, k, n, st, i);
      forall j: nat | LastOfClass(es, k, n, j) ensures j == i { OnlyLast(es, k, n, i, j); }
      LastIsCredit(es, k, n, i);
    }
  }

  lemma LastIsCredit(es: seq<RingEvent>, k: nat, n: nat, i: nat)
    requires n > 0 && LastOfClass(es, k, n, i)
    ensures i < |es| && es[i].Arrives?
  {
  }

  // ---------------------------------------------------------------- whole runs

  /** The states of a run and the steps between them. */
  ghost predicate Trace(ss: seq<CallState>, es: seq<CallEvent>) {
    && |ss| == |es| + 1 && Fresh(ss[0])
    && forall i :: 0 <= i < |es| ==> Leads(ss[i], es[i], ss[i + 1])
  }

  /** In every run, an offset counts as completed exactly if its payload has come. */
  lemma {:induction false} CompletedIsReceived(ss: seq<CallState>, es: seq<CallEvent>, m: nat, o: nat)
    requires Trace(ss, es) && m <= |es| && o < |ss[0].completed|
    ensures |ss[m].completed| == |ss[0].completed|
    ensures ss[m].completed[o] <==> exists i :: 0 <= i < m && es[i] == Pays(o)
  {
    hide Dequeued;
    if m > 0 {
      CompletedIsReceived(ss, es, m - 1, o);
      assert Leads(ss[m - 1], es[m - 1], ss[m]);
    }
  }

  /** A credit changes nothing exactly for two reasons: its payload completed a pull, or it
      repeats a normal credit the ring still remembers.  Any other is noted in the ring as
      the last of its class, and goes to the end of its queue if there is room. */
  lemma CreditIsNoted(s: CallState, c: Credit, sub: nat)
    requires |s.ring| > 0 && sub < |s.queues|
    ensures var t, r := CreditTaken(s, c, sub), c.offset % |s.ring|;
            var skipped := (s.pull && c.offset < |s.completed| && s.completed[c.offset])
                           || (!c.repair && Suppresses(s.ring[r], c.offset));
            && (skipped ==> t == s)
            && (!skipped ==>
                  && |t.ring| == |s.ring| && |t.queues| == |s.queues|
                  && t == s.(ring := t.ring, queues := t.queues)
                  && Remembers(t.ring[r], c.offset) && t.ring[r].pending == !c.repair && !t.ring[r].sent
                  && (forall i :: 0 <= i < |s.ring| && i != r ==> t.ring[i] == s.ring[i])
                  && (forall j :: 0 <= j < |s.queues| && j != sub ==> t.queues[j] == s.queues[j])
                  && t.queues[sub] == s.queues[sub] + if |s.queues[sub]| < s.limit then [c] else [])
  {
    if Ignored(s, c) || (!c.repair && Suppresses(s.ring[c.offset % |s.ring|], c.offset)) {
      assert s.ring[c.offset % |s.ring| := s.ring[c.offset % |s.ring|]] == s.ring;
    }
  }

  /** What one step means to the ring. */
  ghost function Noticed(s: CallState, ev: CallEvent): seq<RingEvent> {
    match ev
    case Credits(c, _) => if Ignored(s, c) then [] else [Arrives(c)]
    case Answers(out) => if out.Some? && !out.value.repair then [Answered(out.value.offset)] else []
    case Pays(_) => []
  }

  ghost function RingEvents(ss: seq<CallState>, es: seq<CallEvent>, m: nat): seq<RingEvent>
    requires m <= |es| <= |ss|
  {
    if m == 0 then [] else RingEvents(ss, es, m - 1) + Noticed(ss[m - 1], es[m - 1])
  }

  /** The parts of a call that no step changes. */
  ghost predicate SameCall(s: CallState, t: CallState) {
    && t.pull == s.pull && t.limit == s.limit
    && |t.completed| == |s.completed| && |t.ring| == |s.ring| > 0 && |t.queues| == |s.queues| > 0
  }

  ghost predicate OffsetsOk(s: CallState) {
    forall j, x :: 0 <= j < |s.queues| && 0 <= x < |s.queues[j]| ==> s.queues[j][x].offset < |s.completed|
  }

  /** What a step does to the queues: nothing, a credit joins one, or leaves one. */
  lemma QueuesAfter(s: CallState, ev: CallEvent, t: CallState)
    requires Leads(s, ev, t)
    ensures SameCall(s, t)
    ensures ev.Answers? && ev.out.Some? ==>
              exists j :: 0 <= j < |s.queues| && s.queues[j] != [] && ev.out.value == s.queues[j][0]
                          && t.queues == s.queues[j := s.queues[j][1..]]
    ensures (ev.Answers? && ev.out.None?) || ev.Pays? ==> t.queues == s.queues
  {
    if ev.Answers? && ev.out.Some? {
      var i: nat :| i < |s.queues| && Served(s.queues, s.cursor, i, ev.out.value, t.queues, t.cursor);
      assert s.queues[Turn(s.cursor, i, |s.queues|)] != [];
    }
  }

  lemma OffsetsKept(s: CallState, ev: CallEvent, t: CallState)
    requires Leads(s, ev, t) && OffsetsOk(s)
    ensures OffsetsOk(t) && forall e :: e in Noticed(s, ev) ==> OffsetOf(e) < |s.completed|
  {
    hide Dequeued, Noted, Served;
    QueuesAfter(s, ev, t);
  }

  lemma RingNoticed(s: CallState, ev: CallEvent, t: CallState, r: nat)
    requires Leads(s, ev, t) && r < |s.ring|
    ensures |t.ring| == |s.ring|
    ensures var es := Noticed(s, ev);
            if es == [] then t.ring[r] == s.ring[r]
            else |es| == 1
                 && t.ring[r] == if OffsetOf(es[0]) % |s.ring| == r then After(s.ring[r], es[0]) else s.ring[r]
  {
    hide Dequeued, After;
  }

  /** The ring of a call is the one its history tells of, and no queued credit lies
      outside the message. */
  lemma {:induction false} RingIsHistory(ss: seq<CallState>, es: seq<CallEvent>, m: nat, r: nat)
    requires Trace(ss, es) && m <= |es| && r < |ss[0].ring|
    ensures SameCall(ss[0], ss[m]) && OffsetsOk(ss[m])
    ensures ss[m].ring[r] == RingState(RingEvents(ss, es, m), r, |ss[0].ring|)
    ensures forall e :: e in RingEvents(ss, es, m) ==> OffsetOf(e) < |ss[0].completed|
  {
    hide After, Noticed, Leads;
    if m > 0 {
      RingIsHistory(ss, es, m - 1, r);
      NoticedNext(RingEvents(ss, es, m - 1), ss[m - 1], es[m - 1], ss[m], r);
    }
  }

  lemma NoticedNext(before: seq<RingEvent>, s: CallState, ev: CallEvent, t: CallState, r: nat)
    requires Leads(s, ev, t) && OffsetsOk(s) && r < |s.ring| && s.ring[r] == RingState(before, r, |s.ring|)
    ensures SameCall(s, t) && OffsetsOk(t) && t.ring[r] == RingState(before + Noticed(s, ev), r, |s.ring|)
    ensures forall e :: e in Noticed(s, ev) ==> OffsetOf(e) < |s.completed|
  {
    hide Leads, After, OffsetsOk, Noticed;
    QueuesAfter(s, ev, t);
    OffsetsKept(s, ev, t);
    RingNoticed(s, ev, t, r);
    var more := Noticed(s, ev);
    if more == [] {
      assert before + more == before;
    } else {
      assert (before + more)[..|before|] == before;
    }
  }

  /** In a call that fits the ring a normal credit that came once is dropped from then on,
      until a repair credit asks for the same offset. */
  lemma {:induction false} SuppressedInSmallCalls(es: seq<RingEvent>, k: nat, n: nat)
    requires k < n && (forall e :: e in es ==> OffsetOf(e) < n) && Arrives(Credit(k, true)) !in es
    ensures Suppresses(RingState(es, k, n), k) <==> Arrives(Credit(k, false)) in es
    ensures Remembers(RingState(es, k, n), k) ==> Arrives(Credit(k, false)) in es
  {
    if es != [] {
      var e, before := es[|es| - 1], es[..|es| - 1];
      assert es == before + [e];
      assert forall x :: x in before ==> x in es;
      SuppressedInSmallCalls(before, k, n);
      SmallResidue(OffsetOf(e), n);
    }
  }

  lemma SmallResidue(o: nat, n: nat)
    requires o < n
    ensures o % n == o
  {
  }

  // ------------------------------------------------------- answers of a credit

  /** A normal credit for `k` comes, and is not ignored. */
  ghost predicate Comes(ss: seq<CallState>, es: seq<CallEvent>, k: nat, i: nat) {
    i < |es| < |ss| && es[i].Credits? && es[i].credit == Credit(k, false) && !Ignored(ss[i], Credit(k, false))
  }

  ghost predicate ComesFirst(ss: seq<CallState>, es: seq<CallEvent>, k: nat, i: nat) {
    Comes(ss, es, k, i) && forall j: nat :: j < i ==> !Comes(ss, es, k, j)
  }

  predicate HasRoom(s: CallState, ev: CallEvent) {
    ev.Credits? && ev.sub < |s.queues| && |s.queues[ev.sub]| < s.limit
  }

  /** Within the first `m` steps a normal credit for `k` came, and its queue had room. */
  ghost predicate Admitted(ss: seq<CallState>, es: seq<CallEvent>, k: nat, m: nat) {
    exists i: nat :: i < m && i < |es| < |ss| && ComesFirst(ss, es, k, i) && HasRoom(ss[i], es[i])
  }

  ghost predicate NoRepair(es: seq<CallEvent>, k: nat) {
    forall i :: 0 <= i < |es| && es[i].Credits? ==> es[i].credit != Credit(k, true)
  }

  /** How often the first `m` steps answered a normal credit for `k`. */
  function AnswerCount(es: seq<CallEvent>, k: nat, m: nat): nat
    requires m <= |es|
  {
    if m == 0 then 0
    else AnswerCount(es, k, m - 1) + if es[m - 1] == Answers(Some(Credit(k, false))) then 1 else 0
  }

  /** How many copies of a credit the queues hold. */
  function Waiting(queues: seq<seq<Credit>>, c: Credit): nat {
    if queues == [] then 0 else multiset(queues[0])[c] + Waiting(queues[1..], c)
  }

  lemma {:induction false} WaitingUpdated(queues: seq<seq<Credit>>, j: nat, queue: seq<Credit>, c: Credit)
    requires j < |queues|
    ensures Waiting(queues[j := queue], c) + multiset(queues[j])[c] == Waiting(queues, c) + multiset(queue)[c]
  {
    if j == 0 {
      assert queues[0 := queue][1..] == queues[1..];
    } else {
      assert queues[j := queue][1..] == queues[1..][j - 1 := queue];
      WaitingUpdated(queues[1..], j - 1, queue, c);
    }
  }

  lemma {:induction false} NoneWaiting(queues: seq<seq<Credit>>, c: Credit)
    requires forall j :: 0 <= j < |queues| ==> queues[j] == []
    ensures Waiting(queues, c) == 0
  {
    if queues != [] { NoneWaiting(queues[1..], c); }
  }

  lemma CreditJoins(s: CallState, c: Credit, sub: nat, k: nat)
    requires |s.ring| > 0 && sub < |s.queues| && c != Credit(k, true)
    ensures var t, mine := CreditTaken(s, c, sub), Credit(k, false);
            Waiting(t.queues, mine) == Waiting(s.queues, mine) +
              if c == mine && !Ignored(s, c) && !Suppresses(s.ring[k % |s.ring|], k) && |s.queues[sub]| < s.limit
              then 1 else 0
  {
    WaitingUpdated(s.queues, sub, Enqueued(s.queues[sub], c, s.limit), Credit(k, false));
  }

  lemma CreditLeaves(s: CallState, out: Option<Credit>, t: CallState, k: nat)
    requires Leads(s, Answers(out), t)
    ensures Waiting(t.queues, Credit(k, false)) + (if out == Some(Credit(k, false)) then 1 else 0)
            == Waiting(s.queues, Credit(k, false))
  {
    hide Dequeued, Noted, Served;
    QueuesAfter(s, Answers(out), t);
    if out.Some? {
      var j :| 0 <= j < |s.queues| && s.queues[j] != [] && out.value == s.queues[j][0]
               && t.queues == s.queues[j := s.queues[j][1..]];
      assert s.queues[j] == [s.queues[j][0]] + s.queues[j][1..];
      WaitingUpdated(s.queues, j, s.queues[j][1..], Credit(k, false));
    }
  }

  lemma {:induction false} CameIsNoticed(ss: seq<CallState>, es: seq<CallEvent>, k: nat, m: nat)
    requires m <= |es| < |ss| && NoRepair(es, k)
    ensures Arrives(Credit(k, true)) !in RingEvents(ss, es, m)
    ensures Arrives(Credit(k, false)) in RingEvents(ss, es, m) <==> exists i: nat :: i < m && Comes(ss, es, k, i)
  {
    if m > 0 {
      CameIsNoticed(ss, es, k, m - 1);
      assert Arrives(Credit(k, false)) in Noticed(ss[m - 1], es[m - 1]) <==> Comes(ss, es, k, m - 1);
    }
  }

  /** The books of a normal credit: it is in a queue, or has been answered, once if
      its queue had room when it first came, and otherwise never. */
  lemma {:induction false} AccountKept(ss: seq<CallState>, es: seq<CallEvent>, k: nat, m: nat)
    requires Trace(ss, es) && m <= |es| && NoRepair(es, k) && k < |ss[0].completed| <= |ss[0].ring|
    ensures AnswerCount(es, k, m) + Waiting(ss[m].queues, Credit(k, false)) ==
            if Admitted(ss, es, k, m) then 1 else 0
  {
    hide Trace, NoRepair, Admitted, ComesFirst, HasRoom, Waiting;
    if m == 0 {
      NothingYet(ss, es, k);
    } else {
      AccountKept(ss, es, k, m - 1);
      StepAccount(ss, es, k, m - 1);
      LengthsOf(ss, es);
      AdmittedNext(ss, es, k, m - 1);
    }
  }

  lemma LengthsOf(ss: seq<CallState>, es: seq<CallEvent>)
    requires Trace(ss, es)
    ensures |ss| == |es| + 1
  {
  }

  lemma NothingYet(ss: seq<CallState>, es: seq<CallEvent>, k: nat)
    requires Trace(ss, es)
    ensures Waiting(ss[0].queues, Credit(k, false)) == 0 && !Admitted(ss, es, k, 0)
  {
    NoneWaiting(ss[0].queues, Credit(k, false));
  }

  /** A step adds to the books exactly a first credit that finds room. */
  lemma StepAccount(ss: seq<CallState>, es: seq<CallEvent>, k: nat, m: nat)
    requires Trace(ss, es) && m < |es| && NoRepair(es, k) && k < |ss[0].completed| <= |ss[0].ring|
    ensures AnswerCount(es, k, m + 1) + Waiting(ss[m + 1].queues, Credit(k, false)) ==
            AnswerCount(es, k, m) + Waiting(ss[m].queues, Credit(k, false))
            + if ComesFirst(ss, es, k, m) && HasRoom(ss[m], es[m]) then 1 else 0
  {
    hide RingState, Suppresses, Dequeued, Noted, CreditTaken, Waiting;
    var s, ev, t := ss[m], es[m], ss[m + 1];
    assert Leads(s, ev, t);
    match ev
    case Pays(_) =>
    case Answers(out) => CreditLeaves(s, out, t, k);
    case Credits(c, sub) =>
      CreditJoins(s, c, sub, k);
      RingIsHistory(ss, es, m, k);
      CameIsNoticed(ss, es, k, m);
      SuppressedInSmallCalls(RingEvents(ss, es, m), k, |s.ring|);
      SmallResidue(k, |s.ring|);
  }

  lemma AdmittedNext(ss: seq<CallState>, es: seq<CallEvent>, k: nat, m: nat)
    requires m < |es| < |ss|
    ensures Admitted(ss, es, k, m + 1) <==>
            Admitted(ss, es, k, m) || (ComesFirst(ss, es, k, m) && HasRoom(ss[m], es[m]))
    ensures Admitted(ss, es, k, m) ==> !ComesFirst(ss, es, k, m)
  {
    hide Comes, HasRoom;
    if Admitted(ss, es, k, m + 1) {
      var i: nat :| i < m + 1 && ComesFirst(ss, es, k, i) && HasRoom(ss[i], es[i]);
      if i < m { assert Admitted(ss, es, k, m); }
    }
  }

  /** In a call that fits the ring, a normal credit is answered at most once until a
      repair credit asks for the same offset. */
  lemma AnsweredOnceInSmallCalls(ss: seq<CallState>, es: seq<CallEvent>, k: nat)
    requires Trace(ss, es) && NoRepair(es, k) && k < |ss[0].completed| <= |ss[0].ring|
    ensures AnswerCount(es, k, |es|) <= 1
  {
    AccountKept(ss, es, k, |es|);
  }

  /** And it is answered, once all that waits has been, exactly if its queue had room
      when it first came. */
  lemma AnsweredIffRoom(ss: seq<CallState>, es: seq<CallEvent>, k: nat)
    requires Trace(ss, es) && NoRepair(es, k) && k < |ss[0].completed| <= |ss[0].ring|
    requires forall j :: 0 <= j < |ss[|es|].queues| ==> ss[|es|].queues[j] == []
    ensures AnswerCount(es, k, |es|) == 1 <==> Admitted(ss, es, k, |es|)
  {
    AccountKept(ss, es, k, |es|);
    NoneWaiting(ss[|es|].queues, Credit(k, false));
  }

  /** A normal credit that found its queue full is never answered, however often it is
      repeated and however empty the queue becomes: the ring already remembers it.
      Only repair asks again. */
  lemma DroppedCreditStaysDropped(ss: seq<CallState>, es: seq<CallEvent>, k: nat, i: nat)
    requires Trace(ss, es) && NoRepair(es, k) && k < |ss[0].completed| <= |ss[0].ring|
    requires ComesFirst(ss, es, k, i) && !HasRoom(ss[i], es[i])
    ensures AnswerCount(es, k, |es|) == 0 && Waiting(ss[|es|].queues, Credit(k, false)) == 0
  {
    AccountKept(ss, es, k, |es|);
    forall j: nat | ComesFirst(ss, es, k, j) ensures j == i {
      assert Comes(ss, es, k, i) && Comes(ss, es, k, j);
    }
  }

  // ------------------------------------------------------------ runs that exist

  function Held(queues: seq<seq<Credit>>): nat {
    if queues == [] then 0 else |queues[0]| + Held(queues[1..])
  }

  lemma {:induction false} HeldUpdated(queues: seq<seq<Credit>>, j: nat, queue: seq<Credit>)
    requires j < |queues|
    ensures Held(queues[j := queue]) + |queues[j]| == Held(queues) + |queue|
  {
    if j == 0 {
      assert queues[0 := queue][1..] == queues[1..];
    } else {
      assert queues[j := queue][1..] == queues[1..][j - 1 := queue];
      HeldUpdated(queues[1..], j - 1, queue);
    }
  }

  /** The first round from `i` on whose subchannel has a credit, or the number of rounds. */
  function FirstBusy(queues: seq<seq<Credit>>, cursor: nat, i: nat): (b: nat)
    requires i <= |queues|
    ensures i <= b <= |queues| && forall x :: i <= x < b ==> queues[Turn(cursor, x, |queues|)] == []
    ensures b < |queues| ==> queues[Turn(cursor, b, |queues|)] != []
    decreases |queues| - i
  {
    if i < |queues| && queues[Turn(cursor, i, |queues|)] == [] then FirstBusy(queues, cursor, i + 1) else i
  }

  /** The next credit can always be taken, if there is one. */
  lemma NextAnswer(s: CallState) returns (out: Option<Credit>, t: CallState)
    requires |s.ring| > 0 && |s.queues| > 0
    ensures Leads(s, Answers(out), t)
    ensures out == None ==> forall j :: 0 <= j < |s.queues| ==> s.queues[j] == []
    ensures out != None ==> Held(t.queues) < Held(s.queues)
  {
    var i := FirstBusy(s.queues, s.cursor, 0);
    if i == |s.queues| {
      forall j | 0 <= j < |s.queues| ensures s.queues[j] == [] { EveryTurn(s.queues, s.cursor, j); }
      out, t := None, s;
    } else {
      var j := Turn(s.cursor, i, |s.queues|);
      var c := s.queues[j][0];
      out := Some(c);
      t := s.(queues := s.queues[j := s.queues[j][1..]], cursor := (j + 1) % |s.queues|,
              ring := if c.repair then s.ring else Noted(s.ring, Answered(c.offset)));
      assert Served(s.queues, s.cursor, i, c, t.queues, t.cursor);
      HeldUpdated(s.queues, j, s.queues[j][1..]);
    }
  }

  lemma TraceGrows(ss: seq<CallState>, es: seq<CallEvent>, ev: CallEvent, t: CallState)
    requires Trace(ss, es) && Leads(ss[|es|], ev, t)
    ensures Trace(ss + [t], es + [ev])
  {
    hide Leads;
    var ss', es' := ss + [t], es + [ev];
    forall i | 0 <= i < |es'| ensures Leads(ss'[i], es'[i], ss'[i + 1]) {
      if i < |es| { assert Leads(ss[i], es[i], ss[i + 1]); }
    }
  }

  /** Every run can be continued, by answering alone, until no credit waits. */
  lemma {:induction false} CanDrain(ss: seq<CallState>, es: seq<CallEvent>)
      returns (ss': seq<CallState>, es': seq<CallEvent>)
    requires Trace(ss, es)
    ensures Trace(ss', es') && ss <= ss' && es <= es'
    ensures forall i :: |es| <= i < |es'| ==> es'[i].Answers?
    ensures forall j :: 0 <= j < |ss'[|es'|].queues| ==> ss'[|es'|].queues[j] == []
    decreases Held(ss[|es|].queues)
  {
    hide Leads;
    DimensionsOf(ss, es);
    var out, t := NextAnswer(ss[|es|]);
    if out == None {
      ss', es' := ss, es;
    } else {
      TraceGrows(ss, es, Answers(out), t);
      ss', es' := CanDrain(ss + [t], es + [Answers(out)]);
    }
  }

  lemma DimensionsOf(ss: seq<CallState>, es: seq<CallEvent>)
    requires Trace(ss, es)
    ensures |ss[|es|].ring| > 0 && |ss[|es|].queues| > 0
  {
    RingIsHistory(ss, es, |es|, 0);
  }

  /** `m` repair credits for `j` have come on subchannel 0. */
  function Crowded(s: CallState, j: nat, m: nat): CallState
    requires |s.ring| > 0 && |s.queues| > 0
  {
    if m == 0 then s
    else s.(ring := s.ring[j % |s.ring| := OffsetState(true, false, false, j)],
            queues := s.queues[0 := seq(m, _ => Credit(j, true))])
  }

  lemma CrowdGrows(s: CallState, j: nat, m: nat)
    requires Fresh(s) && j < |s.completed| && m < s.limit
    ensures Leads(Crowded(s, j, m), Credits(Credit(j, true), 0), Crowded(s, j, m + 1))
  {
    assert seq(m, _ => Credit(j, true)) + [Credit(j, true)] == seq(m + 1, _ => Credit(j, true));
    var t := CreditTaken(Crowded(s, j, m), Credit(j, true), 0);
    assert t.queues == Crowded(s, j, m + 1).queues;
    assert t.ring == Crowded(s, j, m + 1).ring;
  }

  /** A queue of any capacity can be full when a normal credit first comes: repair credits
      for another offset are queued without end, and the loop that pops packets does not
      answer meanwhile.  So in every call with two offsets a credit can be lost. */
  lemma QueueCanFill(s: CallState, k: nat, j: nat) returns (ss: seq<CallState>, es: seq<CallEvent>)
    requires Fresh(s) && k < |s.completed| <= |s.ring| && j < |s.completed| && j != k
    ensures Trace(ss, es) && ss[0] == s && NoRepair(es, k)
    ensures |es| == s.limit + 1 && ComesFirst(ss, es, k, s.limit) && !HasRoom(ss[s.limit], es[s.limit])
  {
    hide Leads;
    ss, es := [s], [];
    var m := 0;
    while m < s.limit
      invariant m <= s.limit && |es| == m && Trace(ss, es) && ss[0] == s && ss[m] == Crowded(s, j, m)
      invariant forall i :: 0 <= i < m ==> es[i] == Credits(Credit(j, true), 0)
    {
      CrowdGrows(s, j, m);
      TraceGrows(ss, es, Credits(Credit(j, true), 0), Crowded(s, j, m + 1));
      ss, es := ss + [Crowded(s, j, m + 1)], es + [Credits(Credit(j, true), 0)];
      m := m + 1;
    }
    LastCredit(ss, es, s, k, j);
    var last := CreditTaken(ss[m], Credit(k, false), 0);
    ss, es := ss + [last], es + [Credits(Credit(k, false), 0)];
  }

  lemma LastCredit(ss: seq<CallState>, es: seq<CallEvent>, s: CallState, k: nat, j: nat)
    requires Trace(ss, es) && |es| == s.limit && ss[0] == s && ss[s.limit] == Crowded(s, j, s.limit)
    requires k < |s.completed| <= |s.ring| && j != k
    requires forall i :: 0 <= i < s.limit ==> es[i] == Credits(Credit(j, true), 0)
    ensures var c := Credits(Credit(k, false), 0);
            var ss', es' := ss + [CreditTaken(ss[s.limit], Credit(k, false), 0)], es + [c];
            && Trace(ss', es') && ComesFirst(ss', es', k, s.limit) && !HasRoom(ss'[s.limit], es'[s.limit])
  {
    var c, last := Credits(Credit(k, false), 0), CreditTaken(ss[s.limit], Credit(k, false), 0);
    assert Leads(ss[s.limit], c, last);
    TraceGrows(ss, es, c, last);
  }

  /** A call on one subchannel where nothing waits, but for one place of its ring. */
  function Idle(n: nat, r: nat, total: nat, st: OffsetState): CallState
    requires r < n
  {
    CallState(false, 1, seq(total, _ => false), seq(n, _ => VACANT)[r := st], [[]], 0)
  }

  /** There a credit the ring does not suppress is answered at once. */
  lemma AskedAndAnswered(ss: seq<CallState>, es: seq<CallEvent>, n: nat, r: nat, total: nat, st: OffsetState, x: nat)
      returns (ss': seq<CallState>, es': seq<CallEvent>)
    requires Trace(ss, es) && r < n && x < total && x % n == r && !Suppresses(st, x)
    requires ss[|es|] == Idle(n, r, total, st)
    ensures Trace(ss', es') && ss'[0] == ss[0]
    ensures es' == es + [Credits(Credit(x, false), 0), Answers(Some(Credit(x, false)))]
    ensures ss'[|es'|] == Idle(n, r, total, OffsetState(true, false, true, x))
  {
    hide Leads;
    var c, s, end := Credit(x, false), ss[|es|], Idle(n, r, total, OffsetState(true, false, true, x));
    var queued := s.(ring := s.ring[r := OffsetState(true, true, false, x)], queues := [[c]]);
    AskOne(s, c, queued, end, r);
    TraceGrows(ss, es, Credits(c, 0), queued);
    TraceGrows(ss + [queued], es + [Credits(c, 0)], Answers(Some(c)), end);
    ss', es' := ss + [queued] + [end], es + [Credits(c, 0)] + [Answers(Some(c))];
  }

  lemma AskOne(s: CallState, c: Credit, queued: CallState, end: CallState, r: nat)
    requires r < |s.ring| && c.offset < |s.completed| && c.offset % |s.ring| == r && !s.pull && !c.repair
    requires !Suppresses(s.ring[r], c.offset) && s.queues == [[]] && s.cursor == 0 && s.limit == 1
    requires queued == s.(ring := s.ring[r := OffsetState(true, true, false, c.offset)], queues := [[c]])
    requires end == s.(ring := s.ring[r := OffsetState(true, false, true, c.offset)])
    ensures Leads(s, Credits(c, 0), queued) && Leads(queued, Answers(Some(c)), end)
  {
    assert [] + [c] == [c];
    assert [c][1..] == [];
    assert Served(queued.queues, 0, 0, c, end.queues, 0);
  }

  /** Two offsets one ring apart: the same normal credit is answered twice, though nobody
      asked for repair. */
  lemma AliasAnswersTwice(k: nat, n: nat) returns (ss: seq<CallState>, es: seq<CallEvent>)
    requires n > 0
    ensures Trace(ss, es) && NoRepair(es, k) && |ss[0].ring| == n && k < |ss[0].completed|
    ensures AnswerCount(es, k, |es|) == 2
  {
    hide Leads;
    var r, total := k % n, k + n + 1;
    assert (k + n) % n == r by { ModuloOf(k / n, n, r); ModuloOf(k / n + 1, n, r); }
    ss, es := [Idle(n, r, total, VACANT)], [];
    ss, es := AskedAndAnswered(ss, es, n, r, total, VACANT, k);
    ss, es := AskedAndAnswered(ss, es, n, r, total, OffsetState(true, false, true, k), k + n);
    ss, es := AskedAndAnswered(ss, es, n, r, total, OffsetState(true, false, true, k + n), k);
    CountSix(es, k, k + n);
  }

  lemma CountSix(es: seq<CallEvent>, k: nat, x: nat)
    requires x != k
    requires es == [Credits(Credit(k, false), 0), Answers(Some(Credit(k, false))),
                    Credits(Credit(x, false), 0), Answers(Some(Credit(x, false))),
                    Credits(Credit(k, false), 0), Answers(Some(Credit(k, false)))]
    ensures AnswerCount(es, k, |es|) == 2
  {
    assert AnswerCount(es, k, 1) == 0;
    assert AnswerCount(es, k, 2) == 1;
    assert AnswerCount(es, k, 3) == 1;
    assert AnswerCount(es, k, 4) == 1;
    assert AnswerCount(es, k, 5) == 1;
  }
}

/** Counting entries by progress: how the counts move when one entry changes. */
module HostCounting {
  import opened Prelude
  import opened HostModel

  ghost function Undone(es: map<nat, Entry>): set<nat> {
    set k | k in es && !es[k].done
  }

  ghost function UndoneOn(es: map<nat, Entry>, j: nat): set<nat> {
    set k | k in es && !es[k].done && es[k].sub == j
  }

  ghost function DoneIn(es: map<nat, Entry>, start: nat, total: nat): set<nat> {
    set k | k in es && es[k].done && Covers(start, total, k)
  }

  function Sum(xs: seq<nat>): nat {
    if xs == [] then 0 else xs[0] + Sum(xs[1..])
  }

  lemma {:induction false} SumUpdate(xs: seq<nat>, j: nat, v: nat)
    requires j < |xs|
    ensures Sum(xs[j := v]) == Sum(xs) - xs[j] + v
  {
    if j > 0 {
      SumUpdate(xs[1..], j - 1, v);
      assert xs[j := v][1..] == xs[1..][j - 1 := v];
    } else {
      assert xs[j := v][1..] == xs[1..];
    }
  }

  /** The outstanding counters agree with the entries, in total and per subchannel. */
  ghost predicate OutstandingInv(es: map<nat, Entry>, outstanding: nat, subOut: seq<nat>) {
    && outstanding == |Undone(es)| == Sum(subOut)
    && (forall j :: 0 <= j < |subOut| ==> subOut[j] == |UndoneOn(es, j)|)
  }

  /** Every message's done counter agrees with its entries. */
  ghost predicate DoneInv(es: map<nat, Entry>, messages: map<nat, RespMessage>) {
    forall st :: st in messages ==> messages[st].done == |DoneIn(es, st, messages[st].total)|
  }

  ghost predicate SameProgress(a: map<nat, Entry>, b: map<nat, Entry>) {
    a.Keys == b.Keys && forall k :: k in a ==> b[k].done == a[k].done && b[k].sub == a[k].sub
  }

  lemma ProgressKept(a: map<nat, Entry>, b: map<nat, Entry>, outstanding: nat, subOut: seq<nat>,
                     messages: map<nat, RespMessage>)
    requires SameProgress(a, b) && OutstandingInv(a, outstanding, subOut) && DoneInv(a, messages)
    ensures OutstandingInv(b, outstanding, subOut) && DoneInv(b, messages)
  {
    assert Undone(a) == Undone(b);
    forall j | 0 <= j < |subOut| ensures subOut[j] == |UndoneOn(b, j)| {
      assert UndoneOn(a, j) == UndoneOn(b, j);
    }
    forall st | st in messages ensures messages[st].done == |DoneIn(b, st, messages[st].total)| {
      assert DoneIn(a, st, messages[st].total) == DoneIn(b, st, messages[st].total);
    }
  }

  lemma CreditAdded(es: map<nat, Entry>, k: nat, e: Entry, outstanding: nat, subOut: seq<nat>)
    requires OutstandingInv(es, outstanding, subOut)
    requires k !in es && !e.done && e.sub < |subOut|
    ensures OutstandingInv(es[k := e], outstanding + 1, subOut[e.sub := subOut[e.sub] + 1])
  {
    var es' := es[k := e];
    var subOut' := subOut[e.sub := subOut[e.sub] + 1];
    assert Undone(es') == Undone(es) + {k};
    SumUpdate(subOut, e.sub, subOut[e.sub] + 1);
    forall j | 0 <= j < |subOut'| ensures subOut'[j] == |UndoneOn(es', j)| {
      assert UndoneOn(es', j) == if j == e.sub then UndoneOn(es, j) + {k} else UndoneOn(es, j);
    }
  }

  lemma CreditAddedDone(es: map<nat, Entry>, k: nat, e: Entry, messages: map<nat, RespMessage>)
    requires DoneInv(es, messages) && k !in es && !e.done
    ensures DoneInv(es[k := e], messages)
  {
    forall st | st in messages ensures messages[st].done == |DoneIn(es[k := e], st, messages[st].total)| {
      assert DoneIn(es[k := e], st, messages[st].total) == DoneIn(es, st, messages[st].total);
    }
  }

  lemma CreditDone(es: map<nat, Entry>, k: nat, e: Entry, outstanding: nat, subOut: seq<nat>)
    requires OutstandingInv(es, outstanding, subOut)
    requires k in es && !es[k].done && e.done && e.sub == es[k].sub < |subOut|
    ensures outstanding > 0 && subOut[e.sub] > 0
    ensures OutstandingInv(es[k := e], outstanding - 1, subOut[e.sub := subOut[e.sub] - 1])
  {
    var es' := es[k := e];
    assert k in Undone(es) && k in UndoneOn(es, e.sub);
    assert Undone(es') == Undone(es) - {k};
    var subOut' := subOut[e.sub := subOut[e.sub] - 1];
    SumUpdate(subOut, e.sub, subOut[e.sub] - 1);
    forall j | 0 <= j < |subOut'| ensures subOut'[j] == |UndoneOn(es', j)| {
      assert UndoneOn(es', j) == if j == e.sub then UndoneOn(es, j) - {k} else UndoneOn(es, j);
    }
  }

  lemma CreditDoneCounted(es: map<nat, Entry>, k: nat, e: Entry, messages: map<nat, RespMessage>, st: nat,
                          m: RespMessage)
    requires DoneInv(es, messages) && k in es && !es[k].done && e.done
    requires st in messages && m.total == messages[st].total && m.done == messages[st].done + 1
    requires forall x :: x in messages ==> (Covers(x, messages[x].total, k) <==> x == st)
    ensures DoneInv(es[k := e], messages[st := m])
  {
    var es', messages' := es[k := e], messages[st := m];
    forall x | x in messages' ensures messages'[x].done == |DoneIn(es', x, messages'[x].total)| {
      assert DoneIn(es', x, messages'[x].total)
          == if x == st then DoneIn(es, x, messages[x].total) + {k} else DoneIn(es, x, messages[x].total);
    }
  }

  /** A message whose done counter reached its total has every offset done. */
  lemma AllDone(es: map<nat, Entry>, st: nat, total: nat)
    requires |DoneIn(es, st, total)| == total
    ensures forall o: nat :: Covers(st, total, o) ==> o in es && es[o].done
  {
    RangeSize(st, total);
    assert DoneIn(es, st, total) <= Range(st, total);
    SubsetOfEqualSize(DoneIn(es, st, total), Range(st, total));
    forall o: nat | Covers(st, total, o) ensures o in es && es[o].done {
      assert o in DoneIn(es, st, total);
    }
  }

  lemma DoneEntriesErased(es: map<nat, Entry>, st: nat, total: nat, outstanding: nat, subOut: seq<nat>)
    requires OutstandingInv(es, outstanding, subOut)
    requires forall o :: Covers(st, total, o) && o in es ==> es[o].done
    ensures OutstandingInv(es - Range(st, total), outstanding, subOut)
  {
    var es' := es - Range(st, total);
    assert Undone(es') == Undone(es);
    forall j | 0 <= j < |subOut| ensures subOut[j] == |UndoneOn(es', j)| {
      assert UndoneOn(es', j) == UndoneOn(es, j);
    }
  }

  lemma OtherMessagesKept(es: map<nat, Entry>, st: nat, total: nat, messages: map<nat, RespMessage>)
    requires DoneInv(es, messages) && st in messages && total == messages[st].total
    requires forall x, o: nat :: x in messages && x != st && Covers(x, messages[x].total, o) ==> !Covers(st, total, o)
    ensures DoneInv(es - Range(st, total), messages - {st})
  {
    var es', messages' := es - Range(st, total), messages - {st};
    forall x | x in messages' ensures messages'[x].done == |DoneIn(es', x, messages'[x].total)| {
      forall o | o in DoneIn(es, x, messages[x].total) ensures o in es' {
        assert Covers(x, messages[x].total, o);
        assert !Covers(st, total, o);
        assert o !in Range(st, total);
      }
      assert DoneIn(es', x, messages'[x].total) == DoneIn(es, x, messages[x].total);
    }
  }
}

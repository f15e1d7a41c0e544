/** How a credit descends the configured tree and the answer climbs back
    (protocol/router.c, reference/arbor-switch-node.cc): the stack a requester gets
    names the LEVEL routers above it, and its answer meets them in reverse. */
module Multicast {
  import opened Prelude
  import L = Lossless

  /** The outputs of a router, each leading to a host or to another router. */
  datatype Ports =
    | NoPort
    | ToHost(rank: nat, others: Ports)
    | ToRouter(id: nat, level: bool, below: Ports, others: Ports)

  function Hosts(ports: Ports): seq<nat> {
    match ports
    case NoPort => []
    case ToHost(rank, others) => [rank] + Hosts(others)
    case ToRouter(_, _, below, others) => Hosts(below) + Hosts(others)
  }

  /** The LEVEL routers, in the order a credit reaches them. */
  function Levels(ports: Ports): seq<nat> {
    match ports
    case NoPort => []
    case ToHost(_, others) => Levels(others)
    case ToRouter(id, level, below, others) => (if level then [id] else []) + Levels(below) + Levels(others)
  }

  // A credit as a host receives it.
  datatype Arrival = Arrival(rank: nat, stack: seq<nat>)

  /** Replication of a normal credit: a LEVEL router pushes the index of the slot it
      bound; a RELAY only copies. */
  function Descend(ports: Ports, slot: map<nat, nat>, stack: seq<nat>): seq<Arrival> {
    match ports
    case NoPort => []
    case ToHost(rank, others) => [Arrival(rank, stack)] + Descend(others, slot, stack)
    case ToRouter(id, level, below, others) =>
      Descend(below, slot, if level && id in slot then stack + [slot[id]] else stack) + Descend(others, slot, stack)
  }

  // A router on the way to a host.
  datatype Hop = Hop(id: nat, level: bool)

  /** The routers from the top to a host. */
  function Route(ports: Ports, rank: nat): seq<Hop> {
    match ports
    case NoPort => []
    case ToHost(r, others) => if r == rank then [] else Route(others, rank)
    case ToRouter(id, level, below, others) =>
      if rank in Hosts(below) then [Hop(id, level)] + Route(below, rank) else Route(others, rank)
  }

  /** The LEVEL routers of a route. */
  function LevelsOf(route: seq<Hop>): seq<nat> {
    if route == [] then [] else (if route[0].level then [route[0].id] else []) + LevelsOf(route[1..])
  }

  function SlotOf(id: nat, slot: map<nat, nat>): seq<nat> {
    if id in slot then [slot[id]] else []
  }

  function SlotsOf(ids: seq<nat>, slot: map<nat, nat>): seq<nat> {
    if ids == [] then [] else SlotOf(ids[0], slot) + SlotsOf(ids[1..], slot)
  }

  ghost predicate Distinct(ids: seq<nat>) {
    forall i, j :: 0 <= i < j < |ids| ==> ids[i] != ids[j]
  }

  /** The credit has reached every LEVEL router on the way to a host. */
  ghost predicate Reached(ports: Ports, slot: map<nat, nat>, rank: nat) {
    forall v :: v in Path(ports, rank) ==> v in slot
  }

  /** An answer climbs its route from the far end: a LEVEL router takes the top entry,
      which must be the slot it bound; a RELAY leaves the stack alone. */
  function Climb(route: seq<Hop>, slot: map<nat, nat>, stack: seq<nat>): Option<seq<nat>>
    decreases |route|
  {
    if route == [] then Some(stack)
    else
      var hop := route[|route| - 1];
      if !hop.level then Climb(route[..|route| - 1], slot, stack)
      else if hop.id in slot && stack != [] && stack[|stack| - 1] == slot[hop.id] then
        Climb(route[..|route| - 1], slot, stack[..|stack| - 1])
      else None
  }

  // --------------------------------------------------------------- descent

  lemma DistinctSplit(a: seq<nat>, b: seq<nat>)
    requires Distinct(a + b)
    ensures Distinct(a) && Distinct(b) && forall x :: x in a ==> x !in b
  {
    var c := a + b;
    forall i, j | 0 <= i < j < |a| ensures a[i] != a[j] { assert c[i] != c[j]; }
    forall i, j | 0 <= i < j < |b| ensures b[i] != b[j] { assert c[|a| + i] != c[|a| + j]; }
    forall i, j | 0 <= i < |a| && 0 <= j < |b| ensures a[i] != b[j] { assert c[i] != c[|a| + j]; }
  }

  /** Every host receives the credit exactly once, in port order. */
  lemma {:induction false} CreditReachesEachOnce(ports: Ports, slot: map<nat, nat>, stack: seq<nat>)
    ensures |Descend(ports, slot, stack)| == |Hosts(ports)|
    ensures forall i :: 0 <= i < |Hosts(ports)| ==> Descend(ports, slot, stack)[i].rank == Hosts(ports)[i]
  {
    match ports {
      case NoPort =>
      case ToHost(_, others) => CreditReachesEachOnce(others, slot, stack);
      case ToRouter(id, level, below, others) =>
        CreditReachesEachOnce(below, slot, if level && id in slot then stack + [slot[id]] else stack);
        CreditReachesEachOnce(others, slot, stack);
    }
  }

  lemma {:induction false} SlotsConcat(a: seq<nat>, b: seq<nat>, slot: map<nat, nat>)
    ensures SlotsOf(a + b, slot) == SlotsOf(a, slot) + SlotsOf(b, slot)
  {
    hide SlotOf;
    if a == [] {
      assert a + b == b;
    } else {
      SlotsConcat(a[1..], b, slot);
      assert (a + b)[1..] == a[1..] + b;
      assert (SlotOf(a[0], slot) + SlotsOf(a[1..], slot)) + SlotsOf(b, slot)
          == SlotOf(a[0], slot) + (SlotsOf(a[1..], slot) + SlotsOf(b, slot));
    }
  }

  function PathSlots(ports: Ports, slot: map<nat, nat>, rank: nat): seq<nat> {
    SlotsOf(LevelsOf(Route(ports, rank)), slot)
  }

  /** One router further up puts its slot in front, if it is a LEVEL router. */
  lemma PathThrough(id: nat, level: bool, below: Ports, others: Ports, slot: map<nat, nat>, rank: nat)
    requires rank in Hosts(below) && (level ==> id in slot)
    ensures PathSlots(ToRouter(id, level, below, others), slot, rank)
            == (if level then [slot[id]] else []) + PathSlots(below, slot, rank)
  {
    SlotsConcat(if level then [id] else [], LevelsOf(Route(below, rank)), slot);
    assert level ==> SlotsOf([id], slot) == [slot[id]];
  }

  lemma PathBeside(id: nat, level: bool, below: Ports, others: Ports, slot: map<nat, nat>, rank: nat)
    requires rank !in Hosts(below)
    ensures PathSlots(ToRouter(id, level, below, others), slot, rank) == PathSlots(others, slot, rank)
  {
  }

  /** The stack a host receives is the slots of the LEVEL routers on its route, top first. */
  lemma {:induction false} StackIsPath(ports: Ports, slot: map<nat, nat>, stack: seq<nat>, i: nat)
    requires Distinct(Hosts(ports)) && i < |Hosts(ports)| == |Descend(ports, slot, stack)|
    requires Reached(ports, slot, Hosts(ports)[i])
    ensures Descend(ports, slot, stack)[i].stack == stack + PathSlots(ports, slot, Hosts(ports)[i])
    decreases ports, 2
  {
    hide PathSlots, Path, Reached, Distinct;
    match ports {
      case NoPort =>
      case ToHost(rank, others) =>
        HostStack(rank, others, slot, stack, i);
      case ToRouter(id, level, below, others) =>
        RouterStack(id, level, below, others, slot, stack, i);
    }
  }

  lemma RouterStack(id: nat, level: bool, below: Ports, others: Ports, slot: map<nat, nat>, stack: seq<nat>, i: nat)
    requires Distinct(Hosts(below) + Hosts(others)) && i < |Hosts(below) + Hosts(others)|
    requires Reached(ToRouter(id, level, below, others), slot, (Hosts(below) + Hosts(others))[i])
    ensures var ports := ToRouter(id, level, below, others);
            && |Descend(ports, slot, stack)| == |Hosts(ports)|
            && Descend(ports, slot, stack)[i].stack == stack + PathSlots(ports, slot, Hosts(ports)[i])
    decreases ToRouter(id, level, below, others), 1
  {
    hide PathSlots, Path, Reached, Distinct;
    DistinctSplit(Hosts(below), Hosts(others));
    var pushed := if level && id in slot then stack + [slot[id]] else stack;
    CreditReachesEachOnce(below, slot, pushed);
    CreditReachesEachOnce(others, slot, stack);
    var n := |Hosts(below)|;
    if i < n {
      ReachedThrough(id, level, below, others, slot, Hosts(below)[i]);
      StackIsPath(below, slot, pushed, i);
      PathThrough(id, level, below, others, slot, Hosts(below)[i]);
    } else {
      assert Hosts(others)[i - n] in Hosts(others);
      ReachedBeside(id, level, below, others, slot, Hosts(others)[i - n]);
      StackIsPath(others, slot, stack, i - n);
      PathBeside(id, level, below, others, slot, Hosts(others)[i - n]);
    }
  }

  lemma ReachedBeside(id: nat, level: bool, below: Ports, others: Ports, slot: map<nat, nat>, rank: nat)
    requires rank !in Hosts(below) && Reached(ToRouter(id, level, below, others), slot, rank)
    ensures Reached(others, slot, rank)
  {
    PathOfRouter(id, level, below, others, rank);
  }

  lemma ReachedThrough(id: nat, level: bool, below: Ports, others: Ports, slot: map<nat, nat>, rank: nat)
    requires rank in Hosts(below) && Reached(ToRouter(id, level, below, others), slot, rank)
    ensures Reached(below, slot, rank) && (level ==> id in slot)
  {
    PathOfRouter(id, level, below, others, rank);
    var whole, rest := Path(ToRouter(id, level, below, others), rank), Path(below, rank);
    var own := if level then [id] else [];
    assert whole == own + rest;
  }

  lemma HostStack(rank: nat, others: Ports, slot: map<nat, nat>, stack: seq<nat>, i: nat)
    requires Distinct(Hosts(ToHost(rank, others))) && i < |Hosts(ToHost(rank, others))|
    requires Reached(ToHost(rank, others), slot, Hosts(ToHost(rank, others))[i])
    ensures |Descend(ToHost(rank, others), slot, stack)| == |Hosts(ToHost(rank, others))|
    ensures var ports := ToHost(rank, others);
            Descend(ports, slot, stack)[i].stack == stack + PathSlots(ports, slot, Hosts(ports)[i])
    decreases ToHost(rank, others), 1
  {
    CreditReachesEachOnce(others, slot, stack);
    if i > 0 {
      DistinctSplit([rank], Hosts(others));
      assert Hosts(others)[i - 1] in Hosts(others);
      PathOfHost(rank, others, Hosts(others)[i - 1]);
      StackIsPath(others, slot, stack, i - 1);
    }
  }

  // ---------------------------------------------------------------- ascent

  lemma {:induction false} LevelsOfSnoc(route: seq<Hop>, hop: Hop)
    ensures LevelsOf(route + [hop]) == LevelsOf(route) + if hop.level then [hop.id] else []
  {
    if route == [] {
      assert route + [hop] == [hop];
    } else {
      LevelsOfSnoc(route[1..], hop);
      assert (route + [hop])[1..] == route[1..] + [hop];
    }
  }

  lemma {:induction false} LevelHopsCount(route: seq<Hop>)
    ensures forall h :: h in route && h.level ==> h.id in LevelsOf(route)
  {
    if route != [] {
      LevelHopsCount(route[1..]);
      assert forall h :: h in route ==> h == route[0] || h in route[1..];
    }
  }

  /** Climbing a route with the slots of its LEVEL routers consumes all of them, and
      leaves whatever was below them. */
  lemma {:induction false} ClimbConsumesOwn(route: seq<Hop>, slot: map<nat, nat>, stack: seq<nat>)
    requires forall h :: h in route && h.level ==> h.id in slot
    ensures Climb(route, slot, stack + SlotsOf(LevelsOf(route), slot)) == Some(stack)
    decreases |route|
  {
    if route == [] {
      assert stack + [] == stack;
    } else {
      var rest, hop := route[..|route| - 1], route[|route| - 1];
      assert route == rest + [hop];
      LevelsOfSnoc(rest, hop);
      ClimbConsumesOwn(rest, slot, stack);
      if hop.level {
        SlotsConcat(LevelsOf(rest), [hop.id], slot);
        assert hop in route;
        assert SlotsOf([hop.id], slot) == [slot[hop.id]];
        var full := stack + SlotsOf(LevelsOf(route), slot);
        assert full == stack + SlotsOf(LevelsOf(rest), slot) + [slot[hop.id]];
        assert full[..|full| - 1] == stack + SlotsOf(LevelsOf(rest), slot);
      } else {
        assert LevelsOf(rest) + [] == LevelsOf(rest);
      }
    }
  }

  /** A credit reaches a host with exactly the stack its answer will consume: the
      answer meets the LEVEL routers in reverse, each finds its own slot on top, and
      the responder sees an empty stack. */
  lemma AnswerRetracesCredit(ports: Ports, slot: map<nat, nat>, i: nat)
    requires Distinct(Hosts(ports)) && i < |Hosts(ports)| && Reached(ports, slot, Hosts(ports)[i])
    ensures i < |Descend(ports, slot, [])|
    ensures var a := Descend(ports, slot, [])[i];
            a.rank == Hosts(ports)[i] && Climb(Route(ports, a.rank), slot, a.stack) == Some([])
  {
    CreditReachesEachOnce(ports, slot, []);
    StackIsPath(ports, slot, [], i);
    LevelHopsCount(Route(ports, Hosts(ports)[i]));
    ClimbConsumesOwn(Route(ports, Hosts(ports)[i]), slot, []);
  }

  // ------------------------------------------------ the tree of Lossless.dfy

  function Path(ports: Ports, rank: nat): seq<nat> {
    LevelsOf(Route(ports, rank))
  }

  lemma PathOfRouter(id: nat, level: bool, below: Ports, others: Ports, rank: nat)
    ensures Path(ToRouter(id, level, below, others), rank)
            == if rank in Hosts(below) then (if level then [id] else []) + Path(below, rank) else Path(others, rank)
  {
  }

  lemma {:induction false} PathInLevels(ports: Ports, rank: nat)
    ensures forall i :: 0 <= i < |Path(ports, rank)| ==> Path(ports, rank)[i] in Levels(ports)
  {
    hide Path;
    match ports {
      case NoPort => PathOfNothing(rank);
      case ToHost(r, others) =>
        PathOfHost(r, others, rank);
        PathInLevels(others, rank);
      case ToRouter(id, level, below, others) =>
        PathOfRouter(id, level, below, others, rank);
        PathInLevels(below, rank);
        PathInLevels(others, rank);
    }
  }

  lemma PathOfNothing(rank: nat)
    ensures Path(NoPort, rank) == []
  {
  }

  lemma PathOfHost(r: nat, others: Ports, rank: nat)
    ensures Path(ToHost(r, others), rank) == if r == rank then [] else Path(others, rank)
  {
  }

  ghost predicate Agree(p: seq<nat>, q: seq<nat>) {
    forall i, j :: 0 <= i < |p| && 0 <= j < |q| && p[i] == q[j] ==> i == j && p[..i] == q[..i]
  }

  lemma AgreeBehind(id: nat, p: seq<nat>, q: seq<nat>)
    requires Agree(p, q) && id !in p && id !in q
    ensures Agree([id] + p, [id] + q)
  {
    var p', q' := [id] + p, [id] + q;
    assert forall k :: 0 <= k < |p| ==> p[k] in p && p[k] != id;
    assert forall k :: 0 <= k < |q| ==> q[k] in q && q[k] != id;
    forall i, j | 0 <= i < |p'| && 0 <= j < |q'| && p'[i] == q'[j] ensures i == j && p'[..i] == q'[..i] {
      if i > 0 && j > 0 {
        assert p[i - 1] == q[j - 1];
        assert p'[..i] == [id] + p[..i - 1] && q'[..i] == [id] + q[..i - 1];
      }
    }
  }

  lemma AgreeApart(p: seq<nat>, q: seq<nat>, a: seq<nat>, b: seq<nat>)
    requires (forall i :: 0 <= i < |p| ==> p[i] in a) && (forall i :: 0 <= i < |q| ==> q[i] in b)
    requires forall x :: x in a ==> x !in b
    ensures Agree(p, q)
  {
  }

  /** Two routes share a LEVEL router only at the same depth, below the same routers. */
  lemma {:induction false} PathsAgree(ports: Ports, r: nat, s: nat)
    requires Distinct(Levels(ports))
    ensures Agree(Path(ports, r), Path(ports, s))
    decreases ports, 1
  {
    hide Path, Agree, Distinct;
    match ports {
      case NoPort =>
        PathOfNothing(r);
        AgreeApart([], Path(NoPort, s), [], Path(NoPort, s));
      case ToHost(x, others) =>
        PathOfHost(x, others, r);
        PathOfHost(x, others, s);
        PathsAgree(others, r, s);
        AgreeApart([], Path(ports, s), [], Path(ports, s));
        AgreeApart(Path(ports, r), [], Path(ports, r), []);
      case ToRouter(id, level, below, others) =>
        PathOfRouter(id, level, below, others, r);
        PathOfRouter(id, level, below, others, s);
        var own := if level then [id] else [];
        DistinctSplit(own + Levels(below), Levels(others));
        DistinctSplit(own, Levels(below));
        RouterPathsAgree(id, level, below, others, r, s);
    }
  }

  lemma RouterPathsAgree(id: nat, level: bool, below: Ports, others: Ports, r: nat, s: nat)
    requires Distinct(Levels(below)) && Distinct(Levels(others)) && (level ==> id !in Levels(below))
    requires forall x :: x in (if level then [id] else []) + Levels(below) ==> x !in Levels(others)
    ensures var ports := ToRouter(id, level, below, others); Agree(Path(ports, r), Path(ports, s))
    decreases ToRouter(id, level, below, others), 0
  {
    hide Path, Agree, Distinct;
    PathOfRouter(id, level, below, others, r);
    PathOfRouter(id, level, below, others, s);
    PathInLevels(below, r);
    PathInLevels(below, s);
    PathInLevels(others, r);
    PathInLevels(others, s);
    var own := if level then [id] else [];
    if r in Hosts(below) && s in Hosts(below) {
      PathsAgree(below, r, s);
      if level {
        AgreeBehind(id, Path(below, r), Path(below, s));
      } else {
        assert [] + Path(below, r) == Path(below, r) && [] + Path(below, s) == Path(below, s);
      }
    } else if r !in Hosts(below) && s !in Hosts(below) {
      PathsAgree(others, r, s);
    } else if r in Hosts(below) {
      AgreeApart(own + Path(below, r), Path(others, s), own + Levels(below), Levels(others));
    } else {
      AgreeApart(Path(others, r), own + Path(below, s), Levels(others), own + Levels(below));
    }
  }

  /** All hosts hang below one LEVEL router, possibly behind relays. */
  ghost predicate Rooted(ports: Ports, root: nat) {
    match ports
    case ToRouter(id, true, _, NoPort) => id == root
    case ToRouter(_, false, below, NoPort) => Rooted(below, root)
    case _ => false
  }

  lemma {:induction false} RootedPath(ports: Ports, root: nat, rank: nat)
    requires Rooted(ports, root) && rank in Hosts(ports)
    ensures Path(ports, rank) != [] && Path(ports, rank)[0] == root
  {
    hide Path;
    var ToRouter(id, level, below, others) := ports;
    PathOfRouter(id, level, below, others, rank);
    assert Hosts(ports) == Hosts(below) + [];
    if !level { RootedPath(below, root, rank); }
  }

  ghost function TreeOf(ports: Ports, slot: map<nat, nat>): L.Tree {
    L.Tree(set r | r in Hosts(ports), map r | r in Hosts(ports) :: Path(ports, r), slot)
  }

  /** Any configured tree with distinct hosts and routers, one LEVEL root and at most
      three LEVEL routers per path is a tree in the sense of Lossless.dfy. */
  lemma ConfiguredTreeOk(ports: Ports, slot: map<nat, nat>, root: nat)
    requires Distinct(Levels(ports)) && Rooted(ports, root)
    requires Hosts(ports) != [] && |TreeOf(ports, slot).ranks| < 0x100
    requires forall r :: r in Hosts(ports) ==> |Path(ports, r)| <= 3
    ensures L.TreeOk(TreeOf(ports, slot))
  {
    hide Path;
    var t := TreeOf(ports, slot);
    assert Hosts(ports)[0] in t.ranks;
    forall r | r in t.ranks ensures r in t.path && 0 < |t.path[r]| && t.path[r][0] == root {
      RootedPath(ports, root, r);
    }
    forall r, s, i: nat, j: nat, v | L.OnPath(t, r, i, v) && L.OnPath(t, s, j, v)
      ensures i == j && t.path[r][..i] == t.path[s][..i]
    {
      PathsAgree(ports, r, s);
    }
  }
}

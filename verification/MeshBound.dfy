/** How many nodes a network may have for a reply always to find its route: eleven. */
module MeshBound {
  import opened Common
  import opened RoutingTable
  import opened Mesh

  /** A reply that is about to be sent at the arrival of copy `i` has a route to the originator. */
  ghost predicate KeepsRouteAt(net: Network, fits: nat, start: State, steps: seq<Step>, i: nat) {
    var s := Run(net, fits, start, steps);
    Fresh(start) && i < |s.flight| && s.flight[i].to in s.tables &&
    OnRequest(s.flight[i].to, net.maxHops, s.flight[i].request).Reply? ==>
      s.flight[i].request.source in View(Apply(net, fits, s, Arrive(i)).tables[s.flight[i].to])
  }

  /** At every reply in every run. */
  ghost predicate KeepsRoutes(net: Network, fits: nat) {
    forall start, steps, i :: KeepsRouteAt(net, fits, start, steps, i)
  }

  lemma SmallKeeps(net: Network, fits: nat)
    requires net.Sound() && |net.nodes| <= ROUTING_TABLE_SIZE + 1
    ensures KeepsRoutes(net, fits)
  {
    forall start, steps, i: nat
      ensures KeepsRouteAt(net, fits, start, steps, i)
    {
      var s := Run(net, fits, start, steps);
      if Fresh(start) && i < |s.flight| && s.flight[i].to in s.tables &&
         OnRequest(s.flight[i].to, net.maxHops, s.flight[i].request).Reply? {
        ReplyHasRoute(net, fits, start, steps, i);
      }
    }
  }

  // ----- Runs from any state -----

  ghost predicate Leads(net: Network, fits: nat, s: State, t: State) {
    exists steps :: Run(net, fits, s, steps) == t
  }

  lemma {:induction false} RunConcat(net: Network, fits: nat, s: State, steps: seq<Step>, more: seq<Step>)
    ensures Run(net, fits, s, steps + more) == Run(net, fits, Run(net, fits, s, steps), more)
  {
    if more == [] {
      assert steps + more == steps;
    } else {
      assert (steps + more)[..|steps + more| - 1] == steps + more[..|more| - 1];
      RunConcat(net, fits, s, steps, more[..|more| - 1]);
    }
  }

  lemma LeadsOn(net: Network, fits: nat, s: State, t: State, u: State)
    requires Leads(net, fits, s, t) && Leads(net, fits, t, u)
    ensures Leads(net, fits, s, u)
  {
    var steps :| Run(net, fits, s, steps) == t;
    var more :| Run(net, fits, t, more) == u;
    RunConcat(net, fits, s, steps, more);
  }

  lemma LeadsBy(net: Network, fits: nat, s: State, step: Step)
    ensures Leads(net, fits, s, Apply(net, fits, s, step))
  {
    assert [step][..0] == [];
    assert Run(net, fits, s, [step]) == Apply(net, fits, s, step);
  }

  /** Everything in flight can be lost. */
  lemma {:induction false} AllLost(net: Network, fits: nat, s: State)
    ensures Leads(net, fits, s, s.(flight := []))
    decreases |s.flight|
  {
    if s.flight == [] {
      assert Run(net, fits, s, []) == s;
    } else {
      var t := Apply(net, fits, s, Lose(0));
      LeadsBy(net, fits, s, Lose(0));
      AllLost(net, fits, t);
      LeadsOn(net, fits, s, t, s.(flight := []));
    }
  }

  lemma {:induction false} CopyGoes(net: Network, nodes: seq<byte>, r: Request, n: byte)
    requires n in nodes && net.Linked(r.from, n)
    ensures Copy(n, r) in Copies(net, nodes, r)
  {
    var front, last := nodes[..|nodes| - 1], nodes[|nodes| - 1];
    if last != n {
      CopyGoes(net, front, r, n);
    }
  }

  /** A copy in flight can arrive: its receiver learns from it and sends on what it sends on. */
  lemma CopyArrives(net: Network, fits: nat, s: State, c: Copy) returns (t: State)
    requires c in s.flight && c.to in s.tables && !OnRequest(c.to, net.maxHops, c.request).Ignore?
    ensures Leads(net, fits, s, t) && t.tables == s.tables[c.to := Learned(s.tables[c.to], c.request)]
    ensures forall d :: d in SentOn(net, c, fits) ==> d in t.flight
  {
    var i: nat :| i < |s.flight| && s.flight[i] == c;
    t := Apply(net, fits, s, Arrive(i));
    LeadsBy(net, fits, s, Arrive(i));
  }

  predicate Neighbours(net: Network, s: State, a: byte, b: byte) {
    a != b && net.Linked(a, b) && a in net.nodes && b in net.nodes && a in s.tables && b in s.tables
  }

  /** One node can find another that hears it. */
  lemma FoundDirectly(net: Network, fits: nat, s: State, source: byte, target: byte)
    requires Neighbours(net, s, source, target)
    ensures var r := Request(source, target, [], source);
            Leads(net, fits, s, State([], s.tables[target := Learned(s.tables[target], r)]))
  {
    var r := Request(source, target, [], source);
    var begun := Apply(net, fits, s, Search(source, target));
    LeadsBy(net, fits, s, Search(source, target));
    CopyGoes(net, net.nodes, r, target);
    var t := CopyArrives(net, fits, begun, Copy(target, r));
    LeadsOn(net, fits, s, begun, t);
    AllLost(net, fits, t);
    LeadsOn(net, fits, s, t, t.(flight := []));
  }

  /** It can be looked for by way of a third one, whose copy is then in flight. */
  lemma SentByWayOf(net: Network, fits: nat, s: State, source: byte, via: byte, target: byte) returns (t: State)
    requires Neighbours(net, s, source, via) && Neighbours(net, s, via, target) && source != target
    requires net.maxHops > 0 && fits > 0
    ensures Leads(net, fits, s, t) && t.tables.Keys == s.tables.Keys && t.tables[target] == s.tables[target]
    ensures Copy(target, Request(source, target, [via], via)) in t.flight
  {
    var r := Request(source, target, [], source);
    var begun := Apply(net, fits, s, Search(source, target));
    LeadsBy(net, fits, s, Search(source, target));
    CopyGoes(net, net.nodes, r, via);
    t := CopyArrives(net, fits, begun, Copy(via, r));
    LeadsOn(net, fits, s, begun, t);
    assert [] + [via] == [via];
    CopyGoes(net, net.nodes, Request(source, target, [via], via), target);
  }

  lemma FoundByWayOf(net: Network, fits: nat, s: State, source: byte, via: byte, target: byte) returns (u: State)
    requires Neighbours(net, s, source, via) && Neighbours(net, s, via, target) && source != target
    requires net.maxHops > 0 && fits > 0
    ensures Leads(net, fits, s, u) && u.tables.Keys == s.tables.Keys
    ensures u.tables[target] == Learned(s.tables[target], Request(source, target, [via], via))
  {
    var t := SentByWayOf(net, fits, s, source, via, target);
    u := CopyArrives(net, fits, t, Copy(target, Request(source, target, [via], via)));
    LeadsOn(net, fits, s, t, u);
  }

  // ----- The table that forgets -----

  const HUB: byte := 0
  const RELAY: byte := 10
  const TARGET: byte := 11

  /** Routes to the first `n` nodes by way of the hub, in the order of their addresses; old slots name nobody. */
  function Filled(n: nat): Table
    requires n <= ROUTING_TABLE_SIZE
  {
    seq(10, i requires 0 <= i < 10 => if i < n then Entry(i, HUB, Valid) else Entry(0xff, HUB, Invalid))
  }

  lemma NextSlot(n: nat)
    requires n < ROUTING_TABLE_SIZE
    ensures AddRouteTo(Filled(n), n, HUB, Valid) == Filled(n + 1)
  {
    var t, free := Filled(n), FreeSlot(Filled(n), 0);
    SlotIsFirst(t, n, 0);
    FreeIsFirst(t, 0);
    assert !t[n].Live();
    assert free == n;
    assert t[n := Entry(n, HUB, Valid)] == Filled(n + 1);
  }

  lemma SameSlot(n: nat)
    requires 0 < n <= ROUTING_TABLE_SIZE
    ensures AddRouteTo(Filled(n), HUB, HUB, Valid) == Filled(n)
  {
    assert Filled(n)[0] == Entry(HUB, HUB, Valid);
  }

  /** What node `n` teaches the target by way of the hub, or the hub by itself. */
  lemma FillsNext(n: nat)
    requires n < ROUTING_TABLE_SIZE
    ensures Learned(Filled(n), Request(n, TARGET, if n == 0 then [] else [HUB], HUB)) == Filled(n + 1)
  {
    NextSlot(n);
    assert LearnAll(Filled(n + 1), [], HUB) == Filled(n + 1);
    if n > 0 {
      SameSlot(n + 1);
      LearnOne(Filled(n + 1), HUB, HUB);
    }
  }

  lemma LearnOne(t: Table, dest: byte, hop: byte)
    ensures LearnAll(t, [dest], hop) == AddRouteTo(t, dest, hop, Valid)
  {
    assert [dest][..0] == [];
    assert LearnAll(t, [], hop) == t;
  }

  /** The relay needs a slot of its own, and the hub's is the first. */
  lemma RelayEvictsHub()
    ensures HUB !in View(Learned(Filled(10), Request(HUB, TARGET, [RELAY], RELAY)))
  {
    var t := Filled(10);
    var u := AddRouteTo(t, HUB, RELAY, Valid);
    assert t[0] == Entry(HUB, HUB, Valid);
    assert u == t[0 := Entry(HUB, RELAY, Valid)];
    LearnOne(u, RELAY, RELAY);
    ViewHas(u, RELAY);
    ViewSize(u);
    AddView(u, RELAY, RELAY, Valid);
  }

  // ----- A network that forgets -----

  /** The hub hears nodes 1 to 11, the relay and the target hear each other, all others hear nobody. */
  function Star(n: nat): Network
    requires n <= 256
  {
    Network(seq(n, i requires 0 <= i < n => i),
            (set b: byte | 1 <= b < 12 :: (HUB, b)) + (set b: byte | 1 <= b < 12 :: (b, HUB)) +
            {(RELAY, TARGET), (TARGET, RELAY)}, 30)
  }

  lemma StarIsSound(n: nat)
    requires 12 <= n <= 256
    ensures Star(n).Sound() && |Star(n).nodes| == n
    ensures forall b: byte :: b < 12 ==> b in Star(n).nodes
  {
    var nodes := Star(n).nodes;
    forall b: byte | b < 12
      ensures b in nodes
    {
      assert nodes[b] == b;
    }
  }

  function Blank(n: nat): State
    requires n <= 256
  {
    State([], map b | b in Star(n).nodes :: Filled(0))
  }

  lemma BlankIsFresh(n: nat)
    requires n <= 256
    ensures Fresh(Blank(n))
  {
    NothingFilled(Filled(0), 10);
    assert Filled(0)[..10] == Filled(0);
  }

  lemma {:induction false} NothingFilled(t: seq<Entry>, k: nat)
    requires k <= |t| && forall i :: 0 <= i < |t| ==> !t[i].Live()
    ensures View(t[..k]) == map[]
  {
    if k == 0 {
    } else {
      NothingFilled(t, k - 1);
      assert t[..k][..k - 1] == t[..k - 1];
    }
  }

  /** One after the other the target learns of nodes 0 to 9. */
  lemma {:induction false} TableFills(n: nat, fits: nat, k: nat) returns (s: State)
    requires 12 <= n <= 256 && fits > 0 && k <= ROUTING_TABLE_SIZE
    ensures Leads(Star(n), fits, Blank(n), s) && s.tables.Keys == Blank(n).tables.Keys
    ensures TARGET in s.tables && s.tables[TARGET] == Filled(k)
    decreases k
  {
    var net := Star(n);
    StarIsSound(n);
    if k == 0 {
      s := Blank(n);
      assert Run(net, fits, s, []) == s;
    } else {
      var t := TableFills(n, fits, k - 1);
      FillsNext(k - 1);
      if k == 1 {
        FoundDirectly(net, fits, t, HUB, TARGET);
        s := State([], t.tables[TARGET := Filled(1)]);
      } else {
        s := FoundByWayOf(net, fits, t, k - 1, HUB, TARGET);
      }
      LeadsOn(net, fits, Blank(n), t, s);
    }
  }

  /** From twelve nodes on there is a run in which the route is lost before the reply. */
  lemma LargerNetworksForget(n: nat, fits: nat)
    requires 12 <= n <= 256 && fits > 0
    ensures !KeepsRoutes(Star(n), fits)
  {
    var net := Star(n);
    StarIsSound(n);
    BlankIsFresh(n);
    var s := TableFills(n, fits, ROUTING_TABLE_SIZE);
    var t := SentByWayOf(net, fits, s, HUB, RELAY, TARGET);
    LeadsOn(net, fits, Blank(n), s, t);
    ForgottenAt(net, fits, Blank(n), t);
  }

  lemma ForgottenAt(net: Network, fits: nat, start: State, t: State)
    requires Fresh(start) && Leads(net, fits, start, t) && net.maxHops > 0
    requires TARGET in t.tables && t.tables[TARGET] == Filled(10)
    requires Copy(TARGET, Request(HUB, TARGET, [RELAY], RELAY)) in t.flight
    ensures !KeepsRoutes(net, fits)
  {
    var steps :| Run(net, fits, start, steps) == t;
    var i: nat :| i < |t.flight| && t.flight[i] == Copy(TARGET, Request(HUB, TARGET, [RELAY], RELAY));
    RelayEvictsHub();
    assert !KeepsRouteAt(net, fits, start, steps, i);
  }

  /** Every network of `n` nodes keeps the route at every reply if and only if there are at most eleven. */
  lemma ElevenNodesExactly(n: nat)
    requires n <= 256
    ensures (forall net: Network, fits :: net.Sound() && |net.nodes| == n ==> KeepsRoutes(net, fits)) <==> n <= 11
  {
    if n <= 11 {
      forall net: Network, fits | net.Sound() && |net.nodes| == n
        ensures KeepsRoutes(net, fits)
      {
        SmallKeeps(net, fits);
      }
    } else {
      StarIsSound(n);
      LargerNetworksForget(n, 1);
    }
  }
}

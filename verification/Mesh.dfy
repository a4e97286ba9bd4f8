/** Route discovery of RHMesh: requests flood the network and carry the list of nodes they have visited. */
module Mesh {
  import opened Common
  import opened RoutingTable

  /** `target` is who is looked for; `route` lists the nodes that sent the request on, `from` sent this copy. */
  datatype Request = Request(source: byte, target: byte, route: seq<byte>, from: byte)

  // ----- One node -----

  datatype Action = Ignore | Learn | Reply | Rebroadcast(request: Request)

  /** What the node `me` does with a request. */
  function OnRequest(me: byte, maxHops: byte, r: Request): Action {
    if r.source == me || me in r.route then Ignore
    else if r.target == me then Reply
    else if |r.route| < maxHops then Rebroadcast(Request(r.source, r.target, r.route + [me], me))
    else Learn
  }

  /** Routes to the originator and to every node that is listed, by way of the sender. */
  function Learned(t: Table, r: Request): Table {
    LearnAll(AddRouteTo(t, r.source, r.from, Valid), r.route, r.from)
  }

  function LearnAll(t: Table, dests: seq<byte>, hop: byte): Table {
    if dests == [] then t else AddRouteTo(LearnAll(t, dests[..|dests| - 1], hop), dests[|dests| - 1], hop, Valid)
  }

  // ----- The network -----

  /** Who hears whom. */
  datatype Network = Network(nodes: seq<byte>, links: set<(byte, byte)>, maxHops: byte) {
    predicate Linked(a: byte, b: byte) {
      (a, b) in links
    }

    /** Addresses are unique, links go both ways and join nodes. */
    predicate Sound() {
      && (forall i, j :: 0 <= i < j < |nodes| ==> nodes[i] != nodes[j])
      && (forall l :: l in links ==> l.0 in nodes && l.1 in nodes && l.0 != l.1 && (l.1, l.0) in links)
    }
  }

  /** A request on its way to one of those who hear its sender. */
  datatype Copy = Copy(to: byte, request: Request)

  /** A copy for every node that is linked to the sender. */
  function Copies(net: Network, nodes: seq<byte>, r: Request): seq<Copy> {
    if nodes == [] then []
    else
      var n := nodes[|nodes| - 1];
      Copies(net, nodes[..|nodes| - 1], r) + if net.Linked(r.from, n) then [Copy(n, r)] else []
  }

  datatype State = State(flight: seq<Copy>, tables: map<byte, Table>)

  /** A node starts a search, a copy arrives, or a copy is lost, be it on the air or as a repeated id. */
  datatype Step = Search(source: byte, target: byte) | Arrive(i: nat) | Lose(i: nat)

  function Taken(flight: seq<Copy>, i: nat): seq<Copy>
    requires i < |flight|
  {
    flight[..i] + flight[i + 1..]
  }

  /** What a node sends on; a message that is too long for the radio is not sent. */
  function SentOn(net: Network, c: Copy, fits: nat): seq<Copy> {
    var a := OnRequest(c.to, net.maxHops, c.request);
    if a.Rebroadcast? && |a.request.route| <= fits then Copies(net, net.nodes, a.request) else []
  }

  function Apply(net: Network, fits: nat, s: State, step: Step): State {
    match step
    case Search(source, target) =>
      if source in net.nodes && source in s.tables then
        s.(flight := s.flight + Copies(net, net.nodes, Request(source, target, [], source)))
      else s
    case Lose(i) => if i < |s.flight| then s.(flight := Taken(s.flight, i)) else s
    case Arrive(i) =>
      if i < |s.flight| && s.flight[i].to in s.tables then
        var c := s.flight[i];
        var table := s.tables[c.to];
        State(Taken(s.flight, i) + SentOn(net, c, fits),
              s.tables[c.to := if OnRequest(c.to, net.maxHops, c.request).Ignore? then table
                               else Learned(table, c.request)])
      else s
  }

  // ----- The requests in flight -----

  predicate Distinct(s: seq<byte>) {
    forall i, j :: 0 <= i < j < |s| ==> s[i] != s[j]
  }

  /** No node is listed twice, neither end is listed, and the list is no longer than the limit on hops. */
  predicate WellListed(r: Request, maxHops: byte) {
    && Distinct(r.route) && r.source !in r.route && r.target !in r.route && |r.route| <= maxHops
  }

  lemma RebroadcastIsLonger(me: byte, maxHops: byte, r: Request)
    requires WellListed(r, maxHops) && OnRequest(me, maxHops, r).Rebroadcast?
    ensures var q := OnRequest(me, maxHops, r).request;
            WellListed(q, maxHops) && |q.route| == |r.route| + 1 && q.route == r.route + [me]
  {
  }

  lemma {:induction false} CopiesAre(net: Network, nodes: seq<byte>, r: Request)
    ensures |Copies(net, nodes, r)| <= |nodes|
    ensures forall c :: c in Copies(net, nodes, r) ==> c.request == r && net.Linked(r.from, c.to) && c.to in nodes
  {
    if nodes == [] {
    } else {
      CopiesAre(net, nodes[..|nodes| - 1], r);
    }
  }

  // ----- Flooding ends -----

  /** A copy weighs more than all the copies that can come of it. */
  function Weight(net: Network, left: nat): nat {
    if left == 0 then 1 else (|net.nodes| + 1) * Weight(net, left - 1)
  }

  lemma {:induction false} WeightIsPositive(net: Network, left: nat)
    ensures Weight(net, left) > 0
  {
    if left == 0 {
    } else {
      WeightIsPositive(net, left - 1);
      Product(|net.nodes| + 1, Weight(net, left - 1));
    }
  }

  lemma Product(a: nat, b: nat)
    requires a > 0 && b > 0
    ensures a * b > 0
  {
  }

  function CopyWeight(net: Network, c: Copy): nat {
    Weight(net, if |c.request.route| <= net.maxHops then net.maxHops - |c.request.route| else 0)
  }

  function Energy(net: Network, flight: seq<Copy>): nat {
    if flight == [] then 0 else Energy(net, flight[..|flight| - 1]) + CopyWeight(net, flight[|flight| - 1])
  }

  lemma {:induction false} EnergyConcat(net: Network, s: seq<Copy>, t: seq<Copy>)
    ensures Energy(net, s + t) == Energy(net, s) + Energy(net, t)
  {
    if t == [] {
      assert s + t == s;
    } else {
      assert (s + t)[..|s + t| - 1] == s + t[..|t| - 1];
      EnergyConcat(net, s, t[..|t| - 1]);
    }
  }

  lemma {:induction false} EnergyOfCopies(net: Network, copies: seq<Copy>, weight: nat)
    requires forall c :: c in copies ==> CopyWeight(net, c) == weight
    ensures Energy(net, copies) == |copies| * weight
  {
    if copies == [] {
    } else {
      var front, last := copies[..|copies| - 1], copies[|copies| - 1];
      assert forall c :: c in front ==> c in copies;
      EnergyOfCopies(net, front, weight);
      assert last in copies;
      OneMore(|front|, weight);
    }
  }

  lemma OneMore(n: nat, w: nat)
    ensures n * w + w == (n + 1) * w
  {
  }

  lemma LessOfLess(a: nat, n: nat, w: nat)
    requires a <= n && w > 0
    ensures a * w < (n + 1) * w
  {
    assert (n + 1) * w == a * w + (n + 1 - a) * w;
    Product(n + 1 - a, w);
  }

  /** All that is sent on weighs less than the copy that arrived. */
  lemma SentOnWeighsLess(net: Network, c: Copy, fits: nat)
    ensures Energy(net, SentOn(net, c, fits)) < CopyWeight(net, c)
  {
    var a := OnRequest(c.to, net.maxHops, c.request);
    if a.Rebroadcast? && |a.request.route| <= fits {
      var copies := SentOn(net, c, fits);
      var left := net.maxHops - |c.request.route|;
      CopiesAre(net, net.nodes, a.request);
      EnergyOfCopies(net, copies, Weight(net, left - 1));
      WeightIsPositive(net, left - 1);
      LessOfLess(|copies|, |net.nodes|, Weight(net, left - 1));
    } else {
      WeightIsPositive(net, if |c.request.route| <= net.maxHops then net.maxHops - |c.request.route| else 0);
    }
  }

  lemma EnergyTaken(net: Network, flight: seq<Copy>, i: nat)
    requires i < |flight|
    ensures Energy(net, flight) == Energy(net, Taken(flight, i)) + CopyWeight(net, flight[i])
  {
    var c := flight[i];
    assert flight == flight[..i] + [c] + flight[i + 1..];
    EnergyConcat(net, flight[..i] + [c], flight[i + 1..]);
    EnergyConcat(net, flight[..i], [c]);
    EnergyConcat(net, flight[..i], flight[i + 1..]);
    assert Energy(net, [c]) == CopyWeight(net, c) by {
      assert [c][..0] == [];
    }
  }

  /** Every arrival and every loss takes energy out of the network, whatever its topology. */
  lemma StepTakesEnergy(net: Network, fits: nat, s: State, step: Step)
    requires !step.Search? && step.i < |s.flight| && (step.Arrive? ==> s.flight[step.i].to in s.tables)
    ensures Energy(net, Apply(net, fits, s, step).flight) < Energy(net, s.flight)
  {
    var i := step.i;
    EnergyTaken(net, s.flight, i);
    SentOnWeighsLess(net, s.flight[i], fits);
    if step.Arrive? {
      EnergyConcat(net, Taken(s.flight, i), SentOn(net, s.flight[i], fits));
    }
  }

  /** Steps of a run in which no new search is begun and every step finds its copy. */
  predicate Settling(net: Network, fits: nat, s: State, run: seq<Step>)
    decreases |run|
  {
    run == [] ||
    (&& !run[0].Search? && run[0].i < |s.flight| && (run[0].Arrive? ==> s.flight[run[0].i].to in s.tables)
     && Settling(net, fits, Apply(net, fits, s, run[0]), run[1..]))
  }

  /** Once no new search is begun the flood ends: a run is not longer than the energy of the state it starts in. */
  lemma {:induction false} FloodEnds(net: Network, fits: nat, s: State, run: seq<Step>)
    requires Settling(net, fits, s, run)
    ensures |run| <= Energy(net, s.flight)
    decreases |run|
  {
    if run == [] {
    } else {
      StepTakesEnergy(net, fits, s, run[0]);
      FloodEnds(net, fits, Apply(net, fits, s, run[0]), run[1..]);
    }
  }

  // ----- Every run -----

  predicate Linking(net: Network, p: seq<byte>) {
    forall i :: 0 <= i < |p| - 1 ==> StepLinked(net, p, i)
  }

  predicate StepLinked(net: Network, p: seq<byte>, i: nat)
    requires i < |p| - 1
  {
    net.Linked(p[i], p[i + 1])
  }

  /** The nodes that a request has come by, the originator first. */
  function Trace(r: Request): seq<byte> {
    [r.source] + r.route
  }

  /** The list is the way that the request has really taken. */
  predicate Traced(net: Network, c: Copy) {
    var trace := Trace(c.request);
    && Linking(net, trace) && (forall n :: n in trace ==> n in net.nodes)
    && c.request.from == trace[|trace| - 1] && net.Linked(c.request.from, c.to)
  }

  predicate FlightSound(net: Network, flight: seq<Copy>) {
    forall c :: c in flight ==> WellListed(c.request, net.maxHops) && Traced(net, c)
  }

  lemma SentOnSound(net: Network, c: Copy, fits: nat)
    requires net.Sound() && WellListed(c.request, net.maxHops) && Traced(net, c)
    ensures FlightSound(net, SentOn(net, c, fits))
  {
    var a := OnRequest(c.to, net.maxHops, c.request);
    if a.Rebroadcast? && |a.request.route| <= fits {
      var q := a.request;
      RebroadcastIsLonger(c.to, net.maxHops, c.request);
      CopiesAre(net, net.nodes, q);
      var trace, longer := Trace(c.request), Trace(q);
      assert longer == trace + [c.to];
      forall i | 0 <= i < |longer| - 1
        ensures StepLinked(net, longer, i)
      {
        if i < |trace| - 1 {
          assert StepLinked(net, trace, i);
        }
      }
      LinkedNodes(net, c.request.from, c.to);
    }
  }

  lemma LinkedNodes(net: Network, a: byte, b: byte)
    requires net.Sound() && net.Linked(a, b)
    ensures a in net.nodes && b in net.nodes && a != b && net.Linked(b, a)
  {
  }

  lemma SearchSound(net: Network, source: byte, target: byte)
    requires source in net.nodes
    ensures FlightSound(net, Copies(net, net.nodes, Request(source, target, [], source)))
  {
    CopiesAre(net, net.nodes, Request(source, target, [], source));
  }

  // ----- What is learned is true -----

  predicate Path(net: Network, p: seq<byte>, from: byte, to: byte) {
    p != [] && p[0] == from && p[|p| - 1] == to && Linking(net, p)
  }

  /** From `hop` the destination can be reached without coming by `n`. */
  ghost predicate Reaches(net: Network, n: byte, hop: byte, dest: byte) {
    exists p :: Path(net, p, hop, dest) && n !in p
  }

  ghost predicate GoodRoute(net: Network, n: byte, hop: byte, dest: byte) {
    dest in net.nodes && dest != n && net.Linked(n, hop) && Reaches(net, n, hop, dest)
  }

  ghost predicate TableSound(net: Network, n: byte, t: Table) {
    FirstSlots(t) && forall d :: d in View(t) ==> GoodRoute(net, n, View(t)[d].nextHop, d)
  }

  function Reversed(s: seq<byte>): seq<byte> {
    seq(|s|, i requires 0 <= i < |s| => s[|s| - 1 - i])
  }

  lemma BackwardsLinked(net: Network, p: seq<byte>)
    requires net.Sound() && Linking(net, p)
    ensures Linking(net, Reversed(p))
  {
    var q := Reversed(p);
    forall i | 0 <= i < |q| - 1
      ensures StepLinked(net, q, i)
    {
      assert StepLinked(net, p, |p| - 2 - i);
      LinkedNodes(net, p[|p| - 2 - i], p[|p| - 1 - i]);
    }
  }

  /** The way back from the sender to any node of the trace avoids whoever is not on it. */
  lemma TraceIsGood(net: Network, c: Copy, k: nat)
    requires net.Sound() && Traced(net, c) && k < |Trace(c.request)| && c.to !in Trace(c.request)
    ensures GoodRoute(net, c.to, c.request.from, Trace(c.request)[k])
  {
    var trace := Trace(c.request);
    var rest := trace[k..];
    forall i | 0 <= i < |rest| - 1
      ensures StepLinked(net, rest, i)
    {
      assert StepLinked(net, trace, k + i);
    }
    BackwardsLinked(net, rest);
    assert Path(net, Reversed(rest), c.request.from, trace[k]);
    LinkedNodes(net, c.request.from, c.to);
  }

  lemma AddKeepsSound(net: Network, n: byte, t: Table, dest: byte, hop: byte)
    requires TableSound(net, n, t) && GoodRoute(net, n, hop, dest)
    ensures TableSound(net, n, AddRouteTo(t, dest, hop, Valid))
  {
    AddView(t, dest, hop, Valid);
    forall d | d in View(AddRouteTo(t, dest, hop, Valid))
      ensures GoodRoute(net, n, View(AddRouteTo(t, dest, hop, Valid))[d].nextHop, d)
    {
      AddedEntries(t, dest, hop, d);
    }
  }

  lemma {:induction false} LearnAllKeepsSound(net: Network, n: byte, t: Table, dests: seq<byte>, hop: byte)
    requires TableSound(net, n, t) && forall d :: d in dests ==> GoodRoute(net, n, hop, d)
    ensures TableSound(net, n, LearnAll(t, dests, hop))
  {
    if dests == [] {
    } else {
      var front := dests[..|dests| - 1];
      assert forall d :: d in front ==> d in dests;
      LearnAllKeepsSound(net, n, t, front, hop);
      AddKeepsSound(net, n, LearnAll(t, front, hop), dests[|dests| - 1], hop);
    }
  }

  /** A request that is not ignored has not come by this node, and every node it lists is a good destination. */
  lemma TraceIsNews(net: Network, c: Copy)
    requires net.Sound() && Traced(net, c) && !OnRequest(c.to, net.maxHops, c.request).Ignore?
    ensures GoodRoute(net, c.to, c.request.from, c.request.source)
    ensures forall d :: d in c.request.route ==> GoodRoute(net, c.to, c.request.from, d)
  {
    var trace := Trace(c.request);
    TraceIsGood(net, c, 0);
    forall d | d in c.request.route
      ensures GoodRoute(net, c.to, c.request.from, d)
    {
      var k: nat :| k < |c.request.route| && c.request.route[k] == d;
      assert trace[k + 1] == d;
      TraceIsGood(net, c, k + 1);
    }
  }

  lemma LearnedIsSound(net: Network, c: Copy, t: Table)
    requires net.Sound() && Traced(net, c) && TableSound(net, c.to, t)
    requires !OnRequest(c.to, net.maxHops, c.request).Ignore?
    ensures TableSound(net, c.to, Learned(t, c.request))
  {
    TraceIsNews(net, c);
    var r := c.request;
    AddKeepsSound(net, c.to, t, r.source, r.from);
    LearnAllKeepsSound(net, c.to, AddRouteTo(t, r.source, r.from, Valid), r.route, r.from);
  }

  ghost predicate Inv(net: Network, s: State) {
    FlightSound(net, s.flight) && forall n :: n in s.tables ==> TableSound(net, n, s.tables[n])
  }

  lemma StepKeeps(net: Network, fits: nat, s: State, step: Step)
    requires net.Sound() && Inv(net, s)
    ensures Inv(net, Apply(net, fits, s, step))
  {
    match step
    case Search(source, target) =>
      if source in net.nodes {
        SearchSound(net, source, target);
      }
    case Lose(i) =>
    case Arrive(i) =>
      if i < |s.flight| && s.flight[i].to in s.tables {
        var c := s.flight[i];
        assert c in s.flight;
        SentOnSound(net, c, fits);
        if !OnRequest(c.to, net.maxHops, c.request).Ignore? {
          LearnedIsSound(net, c, s.tables[c.to]);
        }
      }
  }

  /** Nothing in flight and no routes. */
  ghost predicate Fresh(s: State) {
    s.flight == [] && forall n :: n in s.tables ==> FirstSlots(s.tables[n]) && View(s.tables[n]) == map[]
  }

  function Run(net: Network, fits: nat, start: State, steps: seq<Step>): State {
    if steps == [] then start
    else Apply(net, fits, Run(net, fits, start, steps[..|steps| - 1]), steps[|steps| - 1])
  }

  lemma {:induction false} RunKeeps(net: Network, fits: nat, start: State, steps: seq<Step>)
    requires net.Sound() && Fresh(start)
    ensures Inv(net, Run(net, fits, start, steps))
  {
    if steps == [] {
    } else {
      RunKeeps(net, fits, start, steps[..|steps| - 1]);
      StepKeeps(net, fits, Run(net, fits, start, steps[..|steps| - 1]), steps[|steps| - 1]);
    }
  }

  /** In every run the requests in flight are well listed. */
  lemma RequestsAreWellListed(net: Network, fits: nat, start: State, steps: seq<Step>, c: Copy)
    requires net.Sound() && Fresh(start) && c in Run(net, fits, start, steps).flight
    ensures WellListed(c.request, net.maxHops)
  {
    RunKeeps(net, fits, start, steps);
  }

  /** In every run a learned route names a neighbour from which the destination is reached another way. */
  lemma RoutesAreSound(net: Network, fits: nat, start: State, steps: seq<Step>, n: byte, t: Table, slot: nat)
    requires net.Sound() && Fresh(start) && n in Run(net, fits, start, steps).tables
    requires t == Run(net, fits, start, steps).tables[n] && slot < |t| && t[slot].Live()
    ensures net.Linked(n, t[slot].nextHop) && Reaches(net, n, t[slot].nextHop, t[slot].dest)
  {
    RunKeeps(net, fits, start, steps);
    LiveInView(t, slot);
  }

  // ----- Small networks forget nothing -----

  function NodeSet(nodes: seq<byte>): set<byte> {
    set n | n in nodes
  }

  lemma {:induction false} NodeSetSize(nodes: seq<byte>)
    ensures |NodeSet(nodes)| <= |nodes|
  {
    if nodes == [] {
    } else {
      var front := nodes[..|nodes| - 1];
      NodeSetSize(front);
      assert NodeSet(nodes) == NodeSet(front) + {nodes[|nodes| - 1]};
    }
  }

  lemma SubsetSize(a: set<byte>, b: set<byte>)
    requires a <= b
    ensures |a| <= |b|
  {
    if a != {} {
      var x :| x in a;
      SubsetSize(a - {x}, b - {x});
    }
  }

  /** With eleven nodes there are ten destinations: no route has to make room for another one. */
  lemma NothingIsEvicted(net: Network, n: byte, t: Table, dest: byte, hop: byte)
    requires |net.nodes| <= ROUTING_TABLE_SIZE + 1 && n in net.nodes
    requires TableSound(net, n, t) && dest in net.nodes && dest != n
    ensures View(AddRouteTo(t, dest, hop, Valid)) == View(t)[dest := Route(hop, Valid)]
  {
    AddView(t, dest, hop, Valid);
    if dest !in View(t) && |View(t)| == ROUTING_TABLE_SIZE {
      var known := View(t).Keys + {dest, n};
      assert n !in View(t).Keys;
      assert |View(t).Keys + {dest}| == ROUTING_TABLE_SIZE + 1;
      assert known == View(t).Keys + {dest} + {n};
      SubsetSize(known, NodeSet(net.nodes));
      NodeSetSize(net.nodes);
      assert false;
    }
  }

  lemma {:induction false} AllAreLearned(net: Network, n: byte, t: Table, dests: seq<byte>, hop: byte)
    requires |net.nodes| <= ROUTING_TABLE_SIZE + 1 && n in net.nodes && TableSound(net, n, t)
    requires forall d :: d in dests ==> GoodRoute(net, n, hop, d)
    ensures var u := View(LearnAll(t, dests, hop));
            && (forall d :: d in dests ==> d in u && u[d] == Route(hop, Valid))
            && (forall d :: d in View(t) && d !in dests ==> d in u && u[d] == View(t)[d])
  {
    if dests == [] {
    } else {
      var front, last := dests[..|dests| - 1], dests[|dests| - 1];
      assert forall d :: d in front ==> d in dests;
      AllAreLearned(net, n, t, front, hop);
      LearnAllKeepsSound(net, n, t, front, hop);
      assert last in dests;
      NothingIsEvicted(net, n, LearnAll(t, front, hop), last, hop);
    }
  }

  /** What a node learns from a request that is news to it includes the way back to the originator. */
  lemma OriginatorIsLearned(net: Network, c: Copy, t: Table)
    requires net.Sound() && Traced(net, c) && TableSound(net, c.to, t) && |net.nodes| <= ROUTING_TABLE_SIZE + 1
    requires !OnRequest(c.to, net.maxHops, c.request).Ignore?
    ensures var u := View(Learned(t, c.request));
            c.request.source in u && u[c.request.source] == Route(c.request.from, Valid)
  {
    TraceIsNews(net, c);
    LinkedNodes(net, c.request.from, c.to);
    NothingIsEvicted(net, c.to, t, c.request.source, c.request.from);
    AddKeepsSound(net, c.to, t, c.request.source, c.request.from);
    AllAreLearned(net, c.to, AddRouteTo(t, c.request.source, c.request.from, Valid), c.request.route, c.request.from);
  }

  /** In a run of at most eleven nodes, a node that replies has a route to the originator: by way of the sender. */
  lemma ReplyHasRoute(net: Network, fits: nat, start: State, steps: seq<Step>, i: nat)
    requires net.Sound() && Fresh(start) && |net.nodes| <= ROUTING_TABLE_SIZE + 1
    requires i < |Run(net, fits, start, steps).flight|
    requires var s := Run(net, fits, start, steps);
             s.flight[i].to in s.tables && OnRequest(s.flight[i].to, net.maxHops, s.flight[i].request).Reply?
    ensures var s := Run(net, fits, start, steps);
            var c := s.flight[i];
            var u := View(Apply(net, fits, s, Arrive(i)).tables[c.to]);
            c.request.source in u && u[c.request.source] == Route(c.request.from, Valid)
  {
    RunKeeps(net, fits, start, steps);
    var s := Run(net, fits, start, steps);
    assert s.flight[i] in s.flight;
    OriginatorIsLearned(net, s.flight[i], s.tables[s.flight[i].to]);
  }
}

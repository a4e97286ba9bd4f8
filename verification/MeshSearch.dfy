/** Which searches are answered: those along whose way the list of nodes fits, and their replies come back. */
module MeshSearch {
  import opened Common
  import opened RoutingTable
  import opened Mesh
  import opened MeshBound
  import Router

  /** A way by different nodes, of which those between the ends are within the limits on hops and on messages. */
  predicate Way(net: Network, fits: nat, p: seq<byte>) {
    && |p| >= 2 && Distinct(p) && Linking(net, p) && |p| - 2 <= net.maxHops && |p| - 2 <= fits
  }

  /** The request on its way, as it reaches node `k`. */
  function OnItsWay(p: seq<byte>, k: nat): Copy
    requires 0 < k < |p|
  {
    Copy(p[k], Request(p[0], p[|p| - 1], p[1..k], p[k - 1]))
  }

  ghost predicate AllTables(net: Network, s: State) {
    forall n :: n in net.nodes ==> n in s.tables
  }

  /** Before node `k` every node has a route back to the first one, by way of its predecessor. */
  ghost predicate RoutesBack(p: seq<byte>, k: nat, s: State)
    requires 0 < k <= |p|
  {
    forall j :: 0 < j < k ==> RouteBack(p, j, s)
  }

  ghost predicate RouteBack(p: seq<byte>, j: nat, s: State)
    requires 0 < j < |p|
  {
    p[j] in s.tables && p[0] in View(s.tables[p[j]]) && View(s.tables[p[j]])[p[0]].nextHop == p[j - 1]
  }

  lemma WayNodes(net: Network, fits: nat, p: seq<byte>, k: nat)
    requires net.Sound() && Way(net, fits, p) && k < |p|
    ensures p[k] in net.nodes && (k > 0 ==> net.Linked(p[k - 1], p[k]))
  {
    if k > 0 {
      assert StepLinked(net, p, k - 1);
    } else {
      assert StepLinked(net, p, 0);
    }
  }

  /** What node `k` of the way does with the request: it sends it on, and the last one replies. */
  lemma OnTheWay(net: Network, fits: nat, p: seq<byte>, k: nat)
    requires net.Sound() && Way(net, fits, p) && 0 < k < |p|
    ensures var c := OnItsWay(p, k);
            OnRequest(c.to, net.maxHops, c.request) ==
            if k == |p| - 1 then Reply else Rebroadcast(OnItsWay(p, k + 1).request)
  {
    assert p[k] !in p[1..k];
    if k < |p| - 1 {
      assert p[1..k] + [p[k]] == p[1..k + 1];
    }
  }

  /** The request arrives at node `k`, which learns the way back. */
  lemma ArrivesAt(net: Network, fits: nat, s: State, p: seq<byte>, k: nat) returns (t: State)
    requires net.Sound() && Way(net, fits, p) && 0 < k < |p| && Inv(net, s) && AllTables(net, s)
    requires OnItsWay(p, k) in s.flight
    ensures Leads(net, fits, s, t) && Inv(net, t) && AllTables(net, t)
    ensures k < |p| - 1 ==> OnItsWay(p, k + 1) in t.flight
    ensures |net.nodes| <= ROUTING_TABLE_SIZE + 1 && RoutesBack(p, k, s) ==> RoutesBack(p, k + 1, t)
  {
    var c := OnItsWay(p, k);
    var i: nat :| i < |s.flight| && s.flight[i] == c;
    WayNodes(net, fits, p, k);
    OnTheWay(net, fits, p, k);
    t := Apply(net, fits, s, Arrive(i));
    LeadsBy(net, fits, s, Arrive(i));
    StepKeeps(net, fits, s, Arrive(i));
    if k < |p| - 1 {
      WayNodes(net, fits, p, k + 1);
      CopyGoes(net, net.nodes, OnItsWay(p, k + 1).request, p[k + 1]);
    }
    if |net.nodes| <= ROUTING_TABLE_SIZE + 1 && RoutesBack(p, k, s) {
      OriginatorIsLearned(net, c, s.tables[c.to]);
      forall j | 0 < j < k + 1
        ensures RouteBack(p, j, t)
      {
        assert j < k ==> RouteBack(p, j, s) && p[j] != p[k];
      }
    }
  }

  /** The search begins, and its request is on its way to the first neighbour. */
  lemma SearchBegins(net: Network, fits: nat, s: State, p: seq<byte>) returns (t: State)
    requires net.Sound() && Way(net, fits, p) && Inv(net, s) && AllTables(net, s)
    ensures Leads(net, fits, s, t) && Inv(net, t) && AllTables(net, t) && OnItsWay(p, 1) in t.flight
  {
    var search := Search(p[0], p[|p| - 1]);
    WayNodes(net, fits, p, 0);
    WayNodes(net, fits, p, 1);
    t := Apply(net, fits, s, search);
    LeadsBy(net, fits, s, search);
    StepKeeps(net, fits, s, search);
    assert p[1..1] == [];
    CopyGoes(net, net.nodes, OnItsWay(p, 1).request, p[1]);
  }

  /** It goes along the way up to node `k`. */
  lemma {:induction false} ReachesNode(net: Network, fits: nat, s: State, p: seq<byte>, k: nat) returns (t: State)
    requires net.Sound() && Way(net, fits, p) && 0 < k < |p| && Inv(net, s) && AllTables(net, s)
    ensures Leads(net, fits, s, t) && Inv(net, t) && AllTables(net, t) && OnItsWay(p, k) in t.flight
    ensures |net.nodes| <= ROUTING_TABLE_SIZE + 1 ==> RoutesBack(p, k, t)
    decreases k
  {
    if k == 1 {
      t := SearchBegins(net, fits, s, p);
    } else {
      var u := ReachesNode(net, fits, s, p, k - 1);
      t := ArrivesAt(net, fits, u, p, k - 1);
      LeadsOn(net, fits, s, u, t);
    }
  }

  // ----- Which searches are answered -----

  /** There is a run in which a request of `source` for `target` is about to be answered. */
  ghost predicate CanBeAnswered(net: Network, fits: nat, start: State, source: byte, target: byte) {
    exists s, c :: Leads(net, fits, start, s) && c in s.flight && Asks(net, c, source, target)
  }

  predicate Asks(net: Network, c: Copy, source: byte, target: byte) {
    c.to == target && c.request.source == source && OnRequest(c.to, net.maxHops, c.request) == Reply
  }

  ghost predicate HasWay(net: Network, fits: nat, source: byte, target: byte) {
    exists p :: Way(net, fits, p) && p[0] == source && p[|p| - 1] == target
  }

  predicate ListsFit(s: State, fits: nat) {
    forall c :: c in s.flight ==> |c.request.route| <= fits
  }

  lemma StepFits(net: Network, fits: nat, s: State, step: Step)
    requires ListsFit(s, fits)
    ensures ListsFit(Apply(net, fits, s, step), fits)
  {
    match step
    case Search(source, target) => CopiesAre(net, net.nodes, Request(source, target, [], source));
    case Lose(i) =>
    case Arrive(i) =>
      if i < |s.flight| && s.flight[i].to in s.tables {
        var a := OnRequest(s.flight[i].to, net.maxHops, s.flight[i].request);
        if a.Rebroadcast? {
          CopiesAre(net, net.nodes, a.request);
        }
      }
  }

  lemma {:induction false} RunFits(net: Network, fits: nat, start: State, steps: seq<Step>)
    requires ListsFit(start, fits)
    ensures ListsFit(Run(net, fits, start, steps), fits)
  {
    if steps == [] {
    } else {
      RunFits(net, fits, start, steps[..|steps| - 1]);
      StepFits(net, fits, Run(net, fits, start, steps[..|steps| - 1]), steps[|steps| - 1]);
    }
  }

  /** A request that is about to be answered has come by a way within the limits. */
  lemma AnsweredByWay(net: Network, fits: nat, c: Copy)
    requires net.Sound() && WellListed(c.request, net.maxHops) && Traced(net, c) && |c.request.route| <= fits
    requires OnRequest(c.to, net.maxHops, c.request) == Reply
    ensures HasWay(net, fits, c.request.source, c.to)
  {
    var trace := Trace(c.request);
    var p := trace + [c.to];
    forall i | 0 <= i < |p| - 1
      ensures StepLinked(net, p, i)
    {
      if i < |trace| - 1 {
        assert StepLinked(net, trace, i);
      }
    }
    assert Way(net, fits, p);
  }

  /** A search can be answered if and only if there is a way to the target on which neither the limit on hops nor
      the length of a message stops the request.
    */
  lemma AnsweredExactly(net: Network, fits: nat, start: State, source: byte, target: byte)
    requires net.Sound() && Fresh(start) && AllTables(net, start)
    ensures CanBeAnswered(net, fits, start, source, target) <==> HasWay(net, fits, source, target)
  {
    if CanBeAnswered(net, fits, start, source, target) {
      var s, c :| Leads(net, fits, start, s) && c in s.flight && Asks(net, c, source, target);
      var steps :| Run(net, fits, start, steps) == s;
      RunKeeps(net, fits, start, steps);
      RunFits(net, fits, start, steps);
      AnsweredByWay(net, fits, c);
    }
    if HasWay(net, fits, source, target) {
      var p :| Way(net, fits, p) && p[0] == source && p[|p| - 1] == target;
      FreshIsSound(net, start);
      var s := ReachesNode(net, fits, start, p, |p| - 1);
      OnTheWay(net, fits, p, |p| - 1);
      assert Asks(net, OnItsWay(p, |p| - 1), source, target);
    }
  }

  lemma FreshIsSound(net: Network, s: State)
    requires Fresh(s)
    ensures Inv(net, s)
  {
  }

  // ----- The reply -----

  /** The nodes that the reply comes by after the target has sent it. */
  function StopsBack(p: seq<byte>, s: State): seq<Router.Stop>
    requires |p| >= 2 && forall n :: n in p ==> n in s.tables
  {
    seq(|p| - 1, i requires 0 <= i < |p| - 1 => Router.Stop(p[|p| - 2 - i], s.tables[p[|p| - 2 - i]]))
  }

  lemma StopsLeadBack(net: Network, fits: nat, p: seq<byte>, s: State)
    requires net.Sound() && Way(net, fits, p) && Inv(net, s) && AllTables(net, s) && RoutesBack(p, |p|, s)
    requires p[0] != 0xff
    ensures forall n :: n in p ==> n in s.tables
    ensures Router.LeadTo(StopsBack(p, s), p[0])
    ensures Router.NextHop(s.tables[p[|p| - 1]], p[0]) == Some(p[|p| - 2])
  {
    forall n | n in p
      ensures n in s.tables
    {
      var k: nat :| k < |p| && p[k] == n;
      WayNodes(net, fits, p, k);
    }
    var stops := StopsBack(p, s);
    forall i | 0 <= i < |stops| - 1
      ensures Router.LeadsOn(stops[i], p[0], stops[i + 1].address)
    {
      var j := |p| - 2 - i;
      assert RouteBack(p, j, s) && p[j] != p[0];
    }
    assert RouteBack(p, |p| - 1, s);
    Router.NextHopIsRoute(s.tables[p[|p| - 1]], p[0]);
  }

  /** In a network of at most eleven nodes there is a run in which a search within the limits reaches its target,
      and then the tables lead the reply, message `m`, back to where the search began.
    */
  lemma ReplyComesBack(net: Network, fits: nat, start: State, p: seq<byte>, m: Router.RoutedMessage)
    returns (s: State)
    requires net.Sound() && |net.nodes| <= ROUTING_TABLE_SIZE + 1 && Way(net, fits, p)
    requires Fresh(start) && AllTables(net, start)
    requires m.dest == p[0] != 0xff && m.hops == 0
    ensures Leads(net, fits, start, s) && forall n :: n in p ==> n in s.tables
    ensures Router.NextHop(s.tables[p[|p| - 1]], p[0]) == Some(p[|p| - 2])
    ensures var stops, last := StopsBack(p, s), |p| - 2;
            && stops[last].address == p[0]
            && (forall i :: 0 <= i < last ==>
                  Router.OnMessage(stops[i].address, net.maxHops, Router.After(m, i)).Forward?)
            && Router.OnMessage(stops[last].address, net.maxHops, Router.After(m, last)) == Router.Deliver
  {
    FreshIsSound(net, start);
    var t := ReachesNode(net, fits, start, p, |p| - 1);
    s := ArrivesAt(net, fits, t, p, |p| - 1);
    LeadsOn(net, fits, start, t, s);
    StopsLeadBack(net, fits, p, s);
    Router.DeliveredAtTheEnd(StopsBack(p, s), net.maxHops, m);
  }
}

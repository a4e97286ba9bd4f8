/** RHRouter: the routing table in place, routing by next hop, and forwarding with a limit on hops. */
module Router {
  import opened Common
  import opened RoutingTable

  const BROADCAST_ADDRESS: byte := 0xff
  const DEFAULT_MAX_HOPS: byte := 30
  const MESSAGE_HEADER_LEN := 5

  datatype RoutedMessage = RoutedMessage(dest: byte, source: byte, hops: byte, id: byte, flags: byte, data: seq<byte>)

  datatype Error = ErrorNone | ErrorInvalidLength | ErrorNoRoute | ErrorUnableToDeliver

  // ----- Forwarding -----

  /** Where a message goes next; a broadcast needs no route. */
  function NextHop(t: Table, dest: byte): Option<byte> {
    if dest == BROADCAST_ADDRESS then Some(BROADCAST_ADDRESS)
    else
      var slot := LiveSlot(t, dest, 0);
      if slot < |t| then Some(t[slot].nextHop) else None
  }

  /** That is where the routing table says. */
  lemma NextHopIsRoute(t: Table, dest: byte)
    requires FirstSlots(t)
    ensures NextHop(t, dest) == if dest == 0xff then Some(0xff)
                                else if dest in View(t) then Some(View(t)[dest].nextHop)
                                else None
  {
    GetIsLookup(t, dest);
  }

  datatype Reaction = Deliver | Forward(message: RoutedMessage) | Discard

  /** What becomes of a message at the node `me`. */
  function OnMessage(me: byte, maxHops: byte, m: RoutedMessage): Reaction {
    if m.dest == me || m.dest == BROADCAST_ADDRESS then Deliver
    else if m.hops < maxHops then Forward(m.(hops := m.hops + 1))
    else Discard
  }

  /** A node as a message passes it; the tables may be different each time. */
  datatype Stop = Stop(address: byte, table: Table)

  function Passed(at: Stop, maxHops: byte, m: RoutedMessage): Option<RoutedMessage> {
    var r := OnMessage(at.address, maxHops, m);
    if r.Forward? && NextHop(at.table, m.dest).Some? then Some(r.message) else None
  }

  /** The message is forwarded at every stop. */
  predicate Passes(stops: seq<Stop>, maxHops: byte, m: RoutedMessage) {
    stops == [] ||
    var next := Passed(stops[0], maxHops, m);
    next.Some? && Passes(stops[1..], maxHops, next.value)
  }

  /** Whatever the tables say, a message is forwarded at most as often as there are hops left to it. */
  lemma {:induction false} ForwardingIsBounded(stops: seq<Stop>, maxHops: byte, m: RoutedMessage)
    requires Passes(stops, maxHops, m)
    ensures stops != [] ==> |stops| + m.hops <= maxHops
  {
    if stops == [] {
    } else {
      ForwardingIsBounded(stops[1..], maxHops, Passed(stops[0], maxHops, m).value);
    }
  }

  /** A stop that has a route for a message which is for somebody else. */
  predicate Misroutes(at: Stop, dest: byte) {
    dest != at.address && dest != BROADCAST_ADDRESS && NextHop(at.table, dest).Some?
  }

  /** The bound is met: around a cycle a message is forwarded as long as it has hops left, and no longer. */
  lemma {:induction false} CyclesUseTheBound(stops: seq<Stop>, maxHops: byte, m: RoutedMessage)
    requires stops != [] && forall at :: at in stops ==> Misroutes(at, m.dest)
    ensures Passes(stops, maxHops, m) <==> |stops| + m.hops <= maxHops
    decreases |stops|
  {
    assert stops[0] in stops;
    if m.hops < maxHops {
      var next := Passed(stops[0], maxHops, m).value;
      if |stops| > 1 {
        assert forall at :: at in stops[1..] ==> at in stops;
        CyclesUseTheBound(stops[1..], maxHops, next);
      } else {
        assert stops[1..] == [];
      }
    }
  }

  /** Stops by which the tables lead to the destination. */
  predicate LeadTo(stops: seq<Stop>, dest: byte) {
    && stops != [] && stops[|stops| - 1].address == dest != 0xff
    && forall i :: 0 <= i < |stops| - 1 ==> LeadsOn(stops[i], dest, stops[i + 1].address)
  }

  predicate LeadsOn(at: Stop, dest: byte, next: byte) {
    at.address != dest && FirstSlots(at.table) && dest in View(at.table) && View(at.table)[dest].nextHop == next
  }

  /** The message as it arrives at stop `i`: only the hops have changed. */
  function After(m: RoutedMessage, i: nat): RoutedMessage
    requires m.hops + i < 256
  {
    RoutedMessage(m.dest, m.source, m.hops + i, m.id, m.flags, m.data)
  }

  /** With hops enough for all of them each stop before the last sends the message to the next one. */
  lemma ForwardedUntil(stops: seq<Stop>, maxHops: byte, m: RoutedMessage, i: nat)
    requires LeadTo(stops, m.dest) && i < |stops| - 1 && m.hops + i < maxHops
    ensures OnMessage(stops[i].address, maxHops, After(m, i)) == Forward(After(m, i + 1))
    ensures Passed(stops[i], maxHops, After(m, i)) == Some(After(m, i + 1))
    ensures NextHop(stops[i].table, m.dest) == Some(stops[i + 1].address)
  {
    assert LeadsOn(stops[i], m.dest, stops[i + 1].address);
    NextHopIsRoute(stops[i].table, m.dest);
  }

  /** Along such stops the message is delivered at the last one, and nowhere before, if and only if it has hops left
      for all the others; it is the message that was sent but for its hops.
    */
  lemma DeliveredAtTheEnd(stops: seq<Stop>, maxHops: byte, m: RoutedMessage)
    requires LeadTo(stops, m.dest)
    ensures var last := |stops| - 1;
            Passes(stops[..last], maxHops, m) <==> last == 0 || m.hops + last <= maxHops
    ensures var last := |stops| - 1;
            m.hops + last <= maxHops ==>
              && (forall i :: 0 <= i < last ==> OnMessage(stops[i].address, maxHops, After(m, i)).Forward?)
              && OnMessage(stops[last].address, maxHops, After(m, last)) == Deliver
  {
    var last := |stops| - 1;
    forall at | at in stops[..last]
      ensures Misroutes(at, m.dest)
    {
      var i: nat :| i < last && stops[..last][i] == at;
      assert LeadsOn(stops[i], m.dest, stops[i + 1].address);
      NextHopIsRoute(at.table, m.dest);
    }
    if last > 0 {
      CyclesUseTheBound(stops[..last], maxHops, m);
    }
    if m.hops + last <= maxHops {
      forall i | 0 <= i < last
        ensures OnMessage(stops[i].address, maxHops, After(m, i)).Forward?
      {
        ForwardedUntil(stops, maxHops, m, i);
      }
    }
  }

  /** A message in flight is received somewhere, and the one forwarded takes its place. */
  datatype Reception = Reception(i: nat, at: Stop)

  function Receive(flight: seq<RoutedMessage>, maxHops: byte, r: Reception): seq<RoutedMessage>
    requires r.i < |flight|
  {
    var next := Passed(r.at, maxHops, flight[r.i]);
    flight[..r.i] + (if next.Some? then [next.value] else []) + flight[r.i + 1..]
  }

  function Energy(flight: seq<RoutedMessage>, maxHops: byte): nat {
    if flight == [] then 0
    else Energy(flight[..|flight| - 1], maxHops) +
         var m := flight[|flight| - 1];
         if m.hops <= maxHops then maxHops + 1 - m.hops else 1
  }

  lemma {:induction false} EnergyConcat(s: seq<RoutedMessage>, t: seq<RoutedMessage>, maxHops: byte)
    ensures Energy(s + t, maxHops) == Energy(s, maxHops) + Energy(t, maxHops)
  {
    if t == [] {
      assert s + t == s;
    } else {
      assert (s + t)[..|s + t| - 1] == s + t[..|t| - 1];
      EnergyConcat(s, t[..|t| - 1], maxHops);
    }
  }

  lemma EnergyOne(m: RoutedMessage, maxHops: byte)
    ensures Energy([m], maxHops) == if m.hops <= maxHops then maxHops + 1 - m.hops else 1
  {
  }

  /** Every reception uses some of the hops that are left in the whole network. */
  lemma ReceptionUsesEnergy(flight: seq<RoutedMessage>, maxHops: byte, r: Reception)
    requires r.i < |flight|
    ensures Energy(Receive(flight, maxHops, r), maxHops) < Energy(flight, maxHops)
  {
    var m := flight[r.i];
    var next := Passed(r.at, maxHops, m);
    var mine := if next.Some? then [next.value] else [];
    assert flight == flight[..r.i] + [m] + flight[r.i + 1..];
    EnergyConcat(flight[..r.i] + [m], flight[r.i + 1..], maxHops);
    EnergyConcat(flight[..r.i], [m], maxHops);
    EnergyConcat(flight[..r.i] + mine, flight[r.i + 1..], maxHops);
    EnergyConcat(flight[..r.i], mine, maxHops);
    EnergyOne(m, maxHops);
    if next.Some? {
      EnergyOne(next.value, maxHops);
    }
  }

  predicate Possible(flight: seq<RoutedMessage>, maxHops: byte, run: seq<Reception>)
    decreases |run|
  {
    run == [] || (run[0].i < |flight| && Possible(Receive(flight, maxHops, run[0]), maxHops, run[1..]))
  }

  /** So no run is longer than that, in any network. */
  lemma {:induction false} RunsEnd(flight: seq<RoutedMessage>, maxHops: byte, run: seq<Reception>)
    requires Possible(flight, maxHops, run)
    ensures |run| <= Energy(flight, maxHops)
    decreases |run|
  {
    if run == [] {
    } else {
      ReceptionUsesEnergy(flight, maxHops, run[0]);
      RunsEnd(Receive(flight, maxHops, run[0]), maxHops, run[1..]);
    }
  }

  // ----- The node -----

  datatype Transmission = Transmission(nextHop: byte, message: RoutedMessage)

  class Node {
    const thisAddress: byte
    var maxHops: byte
    const routes: array<Entry>
    var lastE2ESequenceNumber: byte
    /** The messages handed to the reliable datagram layer so far. */
    var sent: seq<Transmission>

    ghost predicate Valid()
      reads routes
    {
      routes.Length == ROUTING_TABLE_SIZE && FirstSlots(routes[..])
    }

    ghost function Table(): RoutingTable.Table
      requires routes.Length == ROUTING_TABLE_SIZE
      reads routes
    {
      routes[..]
    }

    constructor (address: byte, memory: seq<Entry>)
      requires |memory| == ROUTING_TABLE_SIZE
      ensures Valid() && View(Table()) == map[] && fresh(routes)
      ensures thisAddress == address && maxHops == DEFAULT_MAX_HOPS && sent == []
    {
      thisAddress, maxHops, lastE2ESequenceNumber, sent := address, DEFAULT_MAX_HOPS, 0, [];
      routes := new Entry[ROUTING_TABLE_SIZE](i requires 0 <= i < ROUTING_TABLE_SIZE => memory[i]);
      new;
      ClearRoutingTable();
    }

    /** Only the states are reset; the old destinations stay in the slots. */
    method ClearRoutingTable()
      requires routes.Length == ROUTING_TABLE_SIZE
      modifies routes
      ensures Valid() && Table() == Clear(old(Table())) && View(Table()) == map[]
    {
      var i := 0;
      while i < ROUTING_TABLE_SIZE
        invariant i <= ROUTING_TABLE_SIZE
        invariant forall k :: 0 <= k < 10 ==>
                    routes[k] == if k < i then old(routes[k]).(state := Invalid) else old(routes[k])
      {
        routes[i] := routes[i].(state := Invalid);
        i := i + 1;
      }
      assert routes[..] == Clear(old(Table()));
      ClearView(old(Table()));
    }

    method GetRouteTo(dest: byte) returns (r: Option<Entry>)
      requires Valid()
      ensures r.Some? <==> dest in View(Table())
      ensures r.Some? ==> r.value.dest == dest && View(Table())[dest] == Route(r.value.nextHop, r.value.state)
      ensures r == var slot := LiveSlot(Table(), dest, 0); if slot < 10 then Some(Table()[slot]) else None
    {
      GetIsLookup(Table(), dest);
      var i := 0;
      while i < ROUTING_TABLE_SIZE
        invariant i <= ROUTING_TABLE_SIZE && LiveSlot(Table(), dest, i) == LiveSlot(Table(), dest, 0)
      {
        if routes[i].dest == dest && routes[i].state != Invalid {
          return Some(routes[i]);
        }
        i := i + 1;
      }
      return None;
    }

    method DeleteRoute(index: nat)
      requires Valid() && index < ROUTING_TABLE_SIZE
      modifies routes
      ensures Valid() && Table() == RoutingTable.DeleteRoute(old(Table()), index)
    {
      DeleteView(Table(), index);
      forall i | index <= i < ROUTING_TABLE_SIZE - 1 {
        routes[i] := routes[i + 1];
      }
      routes[ROUTING_TABLE_SIZE - 1] := routes[ROUTING_TABLE_SIZE - 1].(state := Invalid);
      assert routes[..] == RoutingTable.DeleteRoute(old(Table()), index);
    }

    method RetireOldestRoute()
      requires Valid()
      modifies routes
      ensures Valid() && Table() == RoutingTable.DeleteRoute(old(Table()), 0)
    {
      DeleteRoute(0);
    }

    method DeleteRouteTo(dest: byte) returns (found: bool)
      requires Valid()
      modifies routes
      ensures Valid() && Table() == RoutingTable.DeleteRouteTo(old(Table()), dest)
      ensures View(Table()) == View(old(Table())) - {dest}
      ensures found <==> exists i :: 0 <= i < |old(Table())| && old(Table())[i].dest == dest
    {
      DeleteToView(Table(), dest);
      SlotIsFirst(Table(), dest, 0);
      var i := 0;
      while i < ROUTING_TABLE_SIZE
        invariant i <= ROUTING_TABLE_SIZE && routes[..] == old(routes[..])
        invariant SlotOf(Table(), dest, i) == SlotOf(Table(), dest, 0)
      {
        if routes[i].dest == dest {
          DeleteRoute(i);
          return true;
        }
        i := i + 1;
      }
      return false;
    }

    /** Fills every slot that is not live. */
    method FillFreeSlots(dest: byte, nextHop: byte, state: RouteState)
      requires routes.Length == ROUTING_TABLE_SIZE
      modifies routes
      ensures Table() == FillFree(old(Table()), Entry(dest, nextHop, state))
    {
      var i := 0;
      while i < ROUTING_TABLE_SIZE
        invariant i <= ROUTING_TABLE_SIZE
        invariant forall k :: 0 <= k < 10 ==>
                    routes[k] == if k < i && !old(routes[k]).Live() then Entry(dest, nextHop, state) else old(routes[k])
      {
        if routes[i].state == Invalid {
          routes[i] := Entry(dest, nextHop, state);
        }
        i := i + 1;
      }
      assert routes[..] == FillFree(old(Table()), Entry(dest, nextHop, state));
    }

    method FindDest(dest: byte) returns (slot: nat)
      requires routes.Length == ROUTING_TABLE_SIZE
      ensures slot == SlotOf(Table(), dest, 0)
    {
      slot := 0;
      while slot < ROUTING_TABLE_SIZE
        invariant slot <= ROUTING_TABLE_SIZE && SlotOf(Table(), dest, slot) == SlotOf(Table(), dest, 0)
      {
        if routes[slot].dest == dest {
          return;
        }
        slot := slot + 1;
      }
    }

    method FindFree() returns (slot: nat)
      requires routes.Length == ROUTING_TABLE_SIZE
      ensures slot == FreeSlot(Table(), 0)
    {
      slot := 0;
      while slot < ROUTING_TABLE_SIZE
        invariant slot <= ROUTING_TABLE_SIZE && FreeSlot(Table(), slot) == FreeSlot(Table(), 0)
      {
        if routes[slot].state == Invalid {
          return;
        }
        slot := slot + 1;
      }
    }

    method AddRouteTo(dest: byte, nextHop: byte, state: RouteState)
      requires Valid()
      modifies routes
      ensures Valid() && Table() == RoutingTable.AddRouteTo(old(Table()), dest, nextHop, state)
    {
      AddView(Table(), dest, nextHop, state);
      var slot := FindDest(dest);
      if slot == ROUTING_TABLE_SIZE {
        slot := FindFree();
      }
      if slot < ROUTING_TABLE_SIZE {
        routes[slot] := Entry(dest, nextHop, state);
        assert routes[..] == old(routes[..])[slot := Entry(dest, nextHop, state)];
      } else {
        RetireOldestRoute();
        FillFreeSlots(dest, nextHop, state);
      }
    }

    // ----- Routing -----

    /** The message has been sent to where its route leads, if there is one; a broadcast needs none. */
    ghost predicate Routed(before: seq<Transmission>, message: RoutedMessage)
      requires routes.Length == ROUTING_TABLE_SIZE
      reads this`sent, routes
    {
      sent == before + if message.dest == 0xff then [Transmission(0xff, message)]
                       else if message.dest in View(Table()) then
                         [Transmission(View(Table())[message.dest].nextHop, message)]
                       else []
    }

    /** `delivered` is what the reliable datagram layer will say. */
    method RouteMessage(message: RoutedMessage, delivered: bool) returns (error: Error)
      requires Valid()
      modifies this`sent
      ensures Routed(old(sent), message)
      ensures error == if message.dest != 0xff && message.dest !in View(Table()) then ErrorNoRoute
                       else if delivered then ErrorNone
                       else ErrorUnableToDeliver
    {
      var nextHop := BROADCAST_ADDRESS;
      if message.dest != BROADCAST_ADDRESS {
        var route := GetRouteTo(message.dest);
        if route.None? {
          return ErrorNoRoute;
        }
        nextHop := route.value.nextHop;
      }
      sent := sent + [Transmission(nextHop, message)];
      return if delivered then ErrorNone else ErrorUnableToDeliver;
    }

    method SendtoFromSourceWait(data: seq<byte>, dest: byte, source: byte, flags: byte,
                                maxMessageLength: byte, delivered: bool) returns (error: Error)
      requires Valid()
      modifies this`sent, this`lastE2ESequenceNumber
      ensures error == ErrorInvalidLength <==> |data| + MESSAGE_HEADER_LEN > maxMessageLength
      ensures error == ErrorInvalidLength ==>
                sent == old(sent) && lastE2ESequenceNumber == old(lastE2ESequenceNumber)
      ensures error != ErrorInvalidLength ==> lastE2ESequenceNumber == (old(lastE2ESequenceNumber) + 1) % 256
      ensures error != ErrorInvalidLength ==>
                Routed(old(sent), RoutedMessage(dest, source, 0, old(lastE2ESequenceNumber), flags, data))
      ensures error == ErrorNoRoute <==>
                |data| + 5 <= maxMessageLength && dest != 0xff && dest !in View(Table())
    {
      if |data| + MESSAGE_HEADER_LEN > maxMessageLength {
        return ErrorInvalidLength;
      }
      var message := RoutedMessage(dest, source, 0, lastE2ESequenceNumber, flags, data);
      lastE2ESequenceNumber := (lastE2ESequenceNumber + 1) % 256;
      error := RouteMessage(message, delivered);
    }

    /** A message from the reliable datagram layer: delivered here, as much of it as fits, or sent on. */
    method RecvfromAck(m: RoutedMessage, len: byte, delivered: bool) returns (got: Option<RoutedMessage>)
      requires Valid()
      modifies this`sent
      ensures got.Some? <==> m.dest == thisAddress || m.dest == 0xff
      ensures got.Some? ==>
                && sent == old(sent)
                && got.value == m.(data := if len > |m.data| then m.data else m.data[..len])
      ensures got.None? && m.hops < maxHops ==>
                Routed(old(sent), RoutedMessage(m.dest, m.source, m.hops + 1, m.id, m.flags, m.data))
      ensures got.None? && m.hops >= maxHops ==> sent == old(sent)
      ensures got.Some? <==> OnMessage(thisAddress, maxHops, m).Deliver?
      ensures var next := Passed(Stop(thisAddress, Table()), maxHops, m);
              sent == if next.Some? then old(sent) + [Transmission(NextHop(Table(), m.dest).value, next.value)]
                      else old(sent)
    {
      NextHopIsRoute(Table(), m.dest);
      if m.dest == thisAddress || m.dest == BROADCAST_ADDRESS {
        return Some(m.(data := if len > |m.data| then m.data else m.data[..len]));
      } else if m.hops < maxHops {
        var error := RouteMessage(m.(hops := m.hops + 1), delivered);
      }
      return None;
    }
  }

  // ----- Nodes that hand a message on -----

  /** The nodes have the same limit on hops, and their tables lead to `dest`. */
  ghost predicate Chained(nodes: seq<Node>, maxHops: byte, dest: byte)
    reads nodes, set n | n in nodes :: n.routes
  {
    && nodes != [] && nodes[|nodes| - 1].thisAddress == dest != 0xff
    && (forall i :: 0 <= i < |nodes| ==> nodes[i].Valid() && nodes[i].maxHops == maxHops)
    && forall i :: 0 <= i < |nodes| - 1 ==> Hands(nodes[i], dest, nodes[i + 1].thisAddress)
  }

  ghost predicate Hands(n: Node, dest: byte, next: byte)
    requires n.Valid()
    reads n.routes
  {
    n.thisAddress != dest && dest in View(n.Table()) && View(n.Table())[dest].nextHop == next
  }

  /** A message goes from node to node until one of them keeps it or drops it.  It is delivered at its destination
      if it has hops left for the way, as it was sent, and nowhere else.
    */
  method Relay(nodes: seq<Node>, maxHops: byte, m: RoutedMessage, len: byte)
    returns (got: Option<RoutedMessage>, at: nat)
    requires Chained(nodes, maxHops, m.dest)
    modifies nodes
    ensures got.Some? <==> |nodes| == 1 || m.hops + |nodes| - 1 <= maxHops
    ensures got.Some? ==>
              && at == |nodes| - 1
              && got.value.dest == m.dest && got.value.source == m.source && got.value.id == m.id
              && got.value.flags == m.flags && got.value.hops == m.hops + |nodes| - 1
              && got.value.data == if len > |m.data| then m.data else m.data[..len]
  {
    var message := m;
    at, got := 0, None;
    while true
      invariant at < |nodes| && Chained(nodes, maxHops, m.dest)
      invariant at == 0 || m.hops + at <= maxHops
      invariant message == m.(hops := m.hops + at)
      decreases |nodes| - at
    {
      assert at < |nodes| - 1 ==> Hands(nodes[at], m.dest, nodes[at + 1].thisAddress);
      var before := |nodes[at].sent|;
      got := nodes[at].RecvfromAck(message, len, true);
      if got.Some? || |nodes[at].sent| == before {
        return;
      }
      assert nodes[at].sent[before].nextHop == nodes[at + 1].thisAddress;
      message := nodes[at].sent[before].message;
      at := at + 1;
    }
  }
}

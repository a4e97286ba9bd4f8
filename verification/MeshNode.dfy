/** What RHMesh adds to a router: it starts route discoveries and handles the requests of others. */
module MeshNode {
  import opened Common
  import opened RoutingTable
  import opened Mesh
  import Router

  const DISCOVERY_REQUEST: byte := 1
  const DISCOVERY_RESPONSE: byte := 2
  const BROADCAST_ADDRESS: byte := 0xff

  /** A discovery message: its type, the length of an address, the address, and the nodes visited. */
  function DiscoveryBytes(msgType: byte, addressLen: byte, target: byte, route: seq<byte>): seq<byte> {
    [msgType, addressLen, target] + route
  }

  /** The request that a discovery message stands for. */
  function RequestOf(message: seq<byte>, source: byte, from: byte): Request
    requires |message| >= 3
  {
    Request(source, message[2], message[3..], from)
  }

  /** The bytes of a request say what the request is. */
  lemma RequestBack(target: byte, route: seq<byte>, source: byte, from: byte)
    ensures RequestOf(DiscoveryBytes(DISCOVERY_REQUEST, 1, target, route), source, from) ==
            Request(source, target, route, from)
    ensures DiscoveryBytes(DISCOVERY_REQUEST, 1, target, route) == [1, 1, target] + route
  {
  }

  /** In the network model the same request is ignored, answered, sent on or learned from under these conditions. */
  lemma RequestArrives(me: byte, maxHops: byte, message: seq<byte>, source: byte, from: byte)
    requires |message| >= 3
    ensures var a := OnRequest(me, maxHops, RequestOf(message, source, from));
            var news := source != me && me !in message[3..];
            && (a == Ignore <==> !news)
            && (a == Reply <==> news && message[2] == me)
            && (a == Learn <==> news && message[2] != me && |message| - 3 >= maxHops)
            && (a == Rebroadcast(RequestOf(message + [me], source, me)) <==>
                news && message[2] != me && |message| - 3 < maxHops)
    ensures forall t :: Learned(t, RequestOf(message, source, from)) ==
                        LearnAll(AddRouteTo(t, source, from, RouteState.Valid), message[3..], from)
  {
  }

  class Node {
    const router: Router.Node

    ghost predicate Valid()
      reads router.routes
    {
      router.Valid()
    }

    constructor (router: Router.Node)
      requires router.Valid()
      ensures this.router == router && Valid()
    {
      this.router := router;
    }

    /** Asks everybody for a route; the list of nodes visited is empty. */
    method BroadcastRequest(address: byte, maxMessageLength: byte, delivered: bool) returns (error: Router.Error)
      requires Valid()
      modifies router`sent, router`lastE2ESequenceNumber
      ensures var id := old(router.lastE2ESequenceNumber);
              router.sent == old(router.sent) +
                if maxMessageLength < 8 then []
                else [Router.Transmission(0xff,
                        Router.RoutedMessage(0xff, router.thisAddress, 0, id, 0, [1, 1, address]))]
    {
      error := router.SendtoFromSourceWait([DISCOVERY_REQUEST, 1, address], BROADCAST_ADDRESS, router.thisAddress, 0,
                                           maxMessageLength, delivered);
    }

    method IsPhysicalAddress(address: byte, addressLen: byte) returns (r: bool)
      ensures r == (addressLen == 1 && address == router.thisAddress)
    {
      r := addressLen == 1 && address == router.thisAddress;
    }

    method Mentioned(route: seq<byte>) returns (r: bool)
      ensures r == (router.thisAddress in route)
    {
      var i := 0;
      while i < |route|
        invariant i <= |route| && router.thisAddress !in route[..i]
      {
        if route[i] == router.thisAddress {
          return true;
        }
        i := i + 1;
      }
      assert route[..i] == route;
      return false;
    }

    method LearnRoutes(source: byte, route: seq<byte>, from: byte)
      requires Valid()
      modifies router.routes
      ensures Valid()
      ensures router.Table() == LearnAll(AddRouteTo(old(router.Table()), source, from, RouteState.Valid), route, from)
    {
      router.AddRouteTo(source, from, RouteState.Valid);
      ghost var t := router.Table();
      var i := 0;
      assert route[..0] == [];
      while i < |route|
        invariant i <= |route| && Valid() && router.Table() == LearnAll(t, route[..i], from)
      {
        router.AddRouteTo(route[i], from, RouteState.Valid);
        assert route[..i + 1][..i] == route[..i];
        i := i + 1;
      }
      assert route[..i] == route;
    }

    /** A discovery request that has been broadcast by `from`.  It is ignored by its originator and by who is listed;
        others learn from it, and then reply along the new route, send it on, or do nothing more.
      */
    method HandleRequest(message: seq<byte>, source: byte, from: byte, maxMessageLength: byte, delivered: bool)
      requires Valid() && |message| >= 3 && message[0] == DISCOVERY_REQUEST
      modifies router.routes, router`sent, router`lastE2ESequenceNumber
      ensures Valid()
      ensures var me, before, id := router.thisAddress, old(router.sent), old(router.lastE2ESequenceNumber);
              var mine := message[1] == 1 && message[2] == me;
              if source == me || me in message[3..] then
                router.Table() == old(router.Table()) && router.sent == before
              else
                && router.Table() == LearnAll(AddRouteTo(old(router.Table()), source, from, RouteState.Valid),
                                              message[3..], from)
                && if mine && |message| + 5 <= maxMessageLength then
                     router.Routed(before, Router.RoutedMessage(source, me, 0, id, 0, [2, 1, me] + message[3..]))
                   else if !mine && |message| - 3 < router.maxHops && |message| + 6 <= maxMessageLength then
                     router.Routed(before, Router.RoutedMessage(0xff, source, 0, id, 0, message + [me]))
                   else router.sent == before
    {
      if source == router.thisAddress {
        return;
      }
      var mentioned := Mentioned(message[3..]);
      if mentioned {
        return;
      }
      var numRoutes := |message| - 3;
      LearnRoutes(source, message[3..], from);
      var physical := IsPhysicalAddress(message[2], message[1]);
      if physical {
        assert message[0 := DISCOVERY_RESPONSE] == [2, 1, router.thisAddress] + message[3..];
        var error := router.SendtoFromSourceWait(message[0 := DISCOVERY_RESPONSE], source, router.thisAddress, 0,
                                                 maxMessageLength, delivered);
      } else if numRoutes < router.maxHops {
        var error := router.SendtoFromSourceWait(message + [router.thisAddress], BROADCAST_ADDRESS, source, 0,
                                                 maxMessageLength, delivered);
      }
    }
  }
}

/** Nodes that send and receive over the link take the steps of the state machine. */
module ReliableSession {
  import opened Common
  import opened Reliable
  import opened ReliableNode

  /** What happens during a send: on the link or at the other node, a frame arriving here, or the time running out. */
  datatype Event = Elsewhere(step: Step) | Arrives(headers: Headers) | TimeOut

  /** The steps that are not the sender's. */
  predicate Foreign(step: Step) {
    step.LoseFrame? || step.LoseAck? || step.Receive? || step.ReceiveWaiting?
  }

  predicate FromPeer(w: Wait, h: Headers) {
    h.from == w.peer && h.to == w.me && HasAck(h.flags)
  }

  /** Nothing more arrives: the attempts that are left, and the end. */
  function Silence(left: nat): seq<Step> {
    if left == 0 then [GiveUp] else [Transmit] + Silence(left - 1)
  }

  /** The steps of a send after its first transmission, with `left` more attempts. */
  function Steps(w: Wait, events: seq<Event>, left: nat): seq<Step>
    decreases |events|
  {
    if events == [] then Silence(left)
    else
      match events[0]
      case Elsewhere(step) => [step] + Steps(w, events[1..], left)
      case Arrives(h) =>
        if w.IsAnswer(h) then [TakeAck]
        else (if FromPeer(w, h) then [TakeAck] else []) + Steps(w, events[1..], left)
      case TimeOut => if left == 0 then [GiveUp] else [Transmit] + Steps(w, events[1..], left - 1)
  }

  /** Acknowledgements arrive from the link in their order; the rest of what happens is not the sender's doing. */
  predicate Possible(w: Wait, s: State, events: seq<Event>, left: nat)
    decreases |events|
  {
    events == [] ||
    match events[0]
    case Elsewhere(step) => Foreign(step) && Possible(w, Apply(s, step), events[1..], left)
    case Arrives(h) =>
      if FromPeer(w, h) then
        && s.acks != [] && h.id == Id(s.acks[0])
        && (w.IsAnswer(h) || Possible(w, Apply(s, TakeAck), events[1..], left))
      else Possible(w, s, events[1..], left)
    case TimeOut => left == 0 || Possible(w, Apply(s, Transmit), events[1..], left - 1)
  }

  /** What arrives in each of the waits. */
  function Script(events: seq<Event>): (r: seq<seq<Headers>>)
    ensures r != []
    decreases |events|
  {
    if events == [] then [[]]
    else
      var rest := Script(events[1..]);
      match events[0]
      case Elsewhere(_) => rest
      case Arrives(h) => [[h] + rest[0]] + rest[1..]
      case TimeOut => [[]] + rest
  }

  // ----- A send is a run -----

  lemma {:induction false} SilentAttempts(w: Wait, data: seq<byte>, attempts: nat, script: seq<seq<Headers>>)
    requires w.Valid() && w.peer != BROADCAST_ADDRESS && (script == [] || script == [[]])
    ensures !Attempt(w, data, attempts, script).0
    decreases attempts
  {
    if attempts == 0 {
    } else {
      SilentAttempts(w, data, attempts - 1, Rest(script));
    }
  }

  lemma {:induction false} SilentRun(s: State, left: nat)
    requires s.sending
    ensures var q := After(s, Silence(left)); !q.sending && q.number == s.number && q.confirmed == s.confirmed
    decreases left
  {
    if left == 0 {
      AfterOne(s, GiveUp);
    } else {
      AfterFirst(s, Transmit, Silence(left - 1));
      SilentRun(Apply(s, Transmit), left - 1);
    }
  }

  /** The attempt in progress succeeds, or one of those after it. */
  predicate Succeeds(w: Wait, data: seq<byte>, left: nat, script: seq<seq<Headers>>)
    requires w.Valid()
  {
    Listen(w, First(script)).0 || Attempt(w, data, left, Rest(script)).0
  }

  /** After `steps` the send is over, and has returned true exactly if `ok`. */
  predicate Ends(s: State, steps: seq<Step>, ok: bool) {
    var q := After(s, steps);
    !q.sending && q.number == s.number && (s.number in q.confirmed <==> ok)
  }

  lemma EndsLater(s: State, step: Step, steps: seq<Step>, ok: bool)
    requires Ends(Apply(s, step), steps, ok) && Apply(s, step).number == s.number
    ensures Ends(s, [step] + steps, ok)
  {
    AfterFirst(s, step, steps);
  }

  lemma {:induction false} SendIsRun(w: Wait, data: seq<byte>, s: State, events: seq<Event>, left: nat)
    requires w.Valid() && w.peer != BROADCAST_ADDRESS && w.id == Id(s.number)
    requires s.sending && s.number !in s.confirmed && Possible(w, s, events, left)
    ensures Ends(s, Steps(w, events, left), Succeeds(w, data, left, Script(events)))
    decreases |events|, 0
  {
    if events == [] {
      SilentAttempts(w, data, left, []);
      SilentRun(s, left);
    } else {
      var rest := events[1..];
      match events[0]
      case Elsewhere(step) =>
        SendIsRun(w, data, Apply(s, step), rest, left);
        EndsLater(s, step, Steps(w, rest, left), Succeeds(w, data, left, Script(rest)));
      case Arrives(h) => ArrivalIsRun(w, data, s, h, rest, left);
      case TimeOut => TimeOutIsRun(w, data, s, rest, left);
    }
  }

  lemma HeardFirst(w: Wait, data: seq<byte>, left: nat, h: Headers, script: seq<seq<Headers>>)
    requires w.Valid() && script != []
    ensures Succeeds(w, data, left, [[h] + script[0]] + script[1..]) <==>
            w.IsAnswer(h) || Succeeds(w, data, left, script)
  {
    assert ([h] + script[0])[1..] == script[0];
    assert ([[h] + script[0]] + script[1..])[1..] == script[1..];
  }

  lemma {:induction false} ArrivalIsRun(w: Wait, data: seq<byte>, s: State, h: Headers, rest: seq<Event>, left: nat)
    requires w.Valid() && w.peer != BROADCAST_ADDRESS && w.id == Id(s.number)
    requires s.sending && s.number !in s.confirmed && Possible(w, s, [Arrives(h)] + rest, left)
    ensures Ends(s, Steps(w, [Arrives(h)] + rest, left), Succeeds(w, data, left, Script([Arrives(h)] + rest)))
    decreases |rest|, 1
  {
    var events := [Arrives(h)] + rest;
    assert events[1..] == rest;
    HeardFirst(w, data, left, h, Script(rest));
    if w.IsAnswer(h) {
      AfterOne(s, TakeAck);
    } else if FromPeer(w, h) {
      SendIsRun(w, data, Apply(s, TakeAck), rest, left);
      EndsLater(s, TakeAck, Steps(w, rest, left), Succeeds(w, data, left, Script(rest)));
    } else {
      SendIsRun(w, data, s, rest, left);
      assert [] + Steps(w, rest, left) == Steps(w, rest, left);
    }
  }

  lemma {:induction false} TimeOutIsRun(w: Wait, data: seq<byte>, s: State, rest: seq<Event>, left: nat)
    requires w.Valid() && w.peer != BROADCAST_ADDRESS && w.id == Id(s.number)
    requires s.sending && s.number !in s.confirmed && Possible(w, s, [TimeOut] + rest, left)
    ensures Ends(s, Steps(w, [TimeOut] + rest, left), Succeeds(w, data, left, Script([TimeOut] + rest)))
    decreases |rest|, 1
  {
    var events := [TimeOut] + rest;
    assert events[1..] == rest;
    assert Rest(Script(events)) == Script(rest);
    if left == 0 {
      AfterOne(s, GiveUp);
    } else {
      SendIsRun(w, data, Apply(s, Transmit), rest, left - 1);
      EndsLater(s, Transmit, Steps(w, rest, left - 1), Succeeds(w, data, left - 1, Script(rest)));
    }
  }

  /** The run of the machine that a whole send is. */
  function SendSteps(w: Wait, events: seq<Event>, retries: nat): seq<Step> {
    [StartUnicast] + ([Transmit] + Steps(w, events, retries))
  }

  lemma WholeSendIsRun(w: Wait, data: seq<byte>, s: State, events: seq<Event>, retries: nat)
    requires w.Valid() && w.peer != BROADCAST_ADDRESS && w.id == Id(s.number + 1) && Ordered(s) && !s.sending
    requires Possible(w, Apply(Apply(s, StartUnicast), Transmit), events, retries)
    ensures var q := After(s, SendSteps(w, events, retries));
            && !q.sending && q.number == s.number + 1 && Ordered(q)
            && (q.number in q.confirmed <==> Attempt(w, data, retries + 1, Script(events)).0)
            && (q.number in q.confirmed && Unaliased(s, s.number + 1) ==> q.number in q.delivered)
  {
    var begun := Apply(s, StartUnicast);
    var steps := Steps(w, events, retries);
    SendIsRun(w, data, Apply(begun, Transmit), events, retries);
    EndsLater(begun, Transmit, steps, Succeeds(w, data, retries, Script(events)));
    AfterFirst(s, StartUnicast, [Transmit] + steps);
    AfterOrdered(s, SendSteps(w, events, retries));
    if Unaliased(s, s.number + 1) {
      UnaliasedIsSafe(s);
      assert SafeAfter(s, [Transmit] + steps);
    }
  }

  lemma NextId(n: nat)
    ensures Id(n + 1) == (Id(n) + 1) % 256
  {
  }

  /** A frame in flight from `from` to `to`, as it is on the air. */
  function OnAir(f: Frame, from: byte, to: byte, flags: byte, data: seq<byte>): Packet {
    Packet(Headers(if f.broadcast then BROADCAST_ADDRESS else to, from, Id(f.number), WithoutAck(flags)), data)
  }

  /** `sendtoWait` of send `n + 1`. */
  method SendNext(a: Node, data: seq<byte>, peer: byte, script: seq<seq<Headers>>, ghost n: nat, ghost w: Wait)
    returns (ok: bool)
    requires a.seenIds.Length == 256 && a.retries < 255 && a.lastSequenceNumber == Id(n)
    requires w == Wait(a.thisAddress, peer, Id(n + 1), WithoutAck(a.headerFlags), a.seenIds[..])
    modifies a`lastSequenceNumber, a`retransmissions, a`headerTo, a`headerId, a`headerFlags, a`air
    ensures a.lastSequenceNumber == Id(n + 1) && ok == Attempt(w, data, a.retries + 1, script).0
    ensures peer != BROADCAST_ADDRESS ==>
              Sent(old(a.air), a.air, OnAir(Frame(n + 1, false), a.thisAddress, peer, old(a.headerFlags), data))
  {
    NextId(n);
    ok := a.SendtoWait(data, peer, script);
  }

  /** `sendtoWait` over the link: it returns true exactly if the run confirms the send. */
  method Send(a: Node, data: seq<byte>, peer: byte, events: seq<Event>, ghost s: State, ghost w: Wait)
    returns (ok: bool, ghost q: State)
    requires a.seenIds.Length == 256 && a.retries < 255 && peer != BROADCAST_ADDRESS
    requires Ordered(s) && !s.sending && a.lastSequenceNumber == Id(s.number)
    requires w == Wait(a.thisAddress, peer, Id(s.number + 1), WithoutAck(a.headerFlags), a.seenIds[..])
    requires Possible(w, Apply(Apply(s, StartUnicast), Transmit), events, a.retries)
    modifies a`lastSequenceNumber, a`retransmissions, a`headerTo, a`headerId, a`headerFlags, a`air
    ensures q == After(s, SendSteps(w, events, a.retries))
    ensures Ordered(q) && !q.sending && a.lastSequenceNumber == Id(q.number) && q.number == s.number + 1
    ensures ok <==> q.number in q.confirmed
    ensures ok && Unaliased(s, s.number + 1) ==> q.number in q.delivered
    ensures Sent(old(a.air), a.air, OnAir(Frame(q.number, false), a.thisAddress, peer, old(a.headerFlags), data))
  {
    q := After(s, SendSteps(w, events, a.retries));
    WholeSendIsRun(w, data, s, events, a.retries);
    ok := SendNext(a, data, peer, Script(events), s.number, w);
  }

  /** `recvfromAck` of the next frame is the step of the receiver. */
  method Take(b: Node, from: byte, flags: byte, data: seq<byte>, f: Frame, ghost s: State)
    returns (got: Option<Packet>, ghost q: State)
    requires b.seenIds.Length == 256 && b.thisAddress != BROADCAST_ADDRESS && s.data != [] && f == s.data[0]
    requires b.seenIds[from] == s.seen
    modifies b`headerTo, b`headerId, b`headerFlags, b`air, b.seenIds
    ensures q == Apply(s, Receive) && b.seenIds[from] == q.seen
    ensures forall k :: 0 <= k < 256 && k != from ==> b.seenIds[k] == old(b.seenIds[k])
    ensures got.Some? ==> got.value == OnAir(f, from, b.thisAddress, flags, data)
    ensures q.delivered == s.delivered + if got.Some? then [f.number] else []
    ensures |b.air| - |old(b.air)| == |q.acks| - |s.acks|
    ensures |q.acks| > |s.acks| ==>
              var h := b.air[|b.air| - 1].headers;
              q.acks == s.acks + [f.number] && h.to == from && h.id == Id(f.number) && HasAck(h.flags)
  {
    q := Apply(s, Receive);
    ghost var before := b.seenIds[..];
    got := b.RecvfromAck(Some(OnAir(f, from, b.thisAddress, flags, data)));
    assert forall k :: 0 <= k < 256 ==> b.seenIds[k] == b.seenIds[..][k] && before[k] == old(b.seenIds[k]);
  }

  /** What one node sends and another receives: the data of the sender, once, and each copy is acknowledged. */
  method Transfer(a: Node, b: Node, data: seq<byte>, script: seq<seq<Headers>>)
    returns (ok: bool, got: Option<Packet>, again: Option<Packet>)
    requires a != b && a.seenIds != b.seenIds && a.seenIds.Length == 256 && b.seenIds.Length == 256
    requires a.retries < 255 && b.thisAddress != BROADCAST_ADDRESS
    modifies a`lastSequenceNumber, a`retransmissions, a`headerTo, a`headerId, a`headerFlags, a`air
    modifies b`headerTo, b`headerId, b`headerFlags, b`air, b.seenIds
    ensures var request := Packet(Headers(b.thisAddress, a.thisAddress, a.lastSequenceNumber,
                                          old(a.headerFlags) % 0x80), data);
            && Sent(old(a.air), a.air, request)
            && got == (if a.lastSequenceNumber != old(b.seenIds[a.thisAddress]) then Some(request) else None)
            && again == None
    ensures var ack := Packet(Headers(a.thisAddress, b.thisAddress, a.lastSequenceNumber,
                                      old(b.headerFlags) % 0x80 + 0x80), ['!' as int]);
            b.air == old(b.air) + [ack] + [ack]
    ensures ok <==> Confirmed(a.thisAddress, b.thisAddress, a.lastSequenceNumber, a.retries + 1, script)
  {
    AckFlag(a.headerFlags);
    AckFlag(b.headerFlags);
    AckFlag(WithAck(b.headerFlags));
    var before := |a.air|;
    ok := a.SendtoWait(data, b.thisAddress, script);
    got := b.RecvfromAck(Some(a.air[before]));
    again := b.RecvfromAck(Some(a.air[before]));
  }
}

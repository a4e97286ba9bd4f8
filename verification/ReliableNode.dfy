/** The local state of RHReliableDatagram, with the frames on the air as inputs and outputs. */
module ReliableNode {
  import opened Common
  import opened Reliable

  const FLAGS_ACK := 0x80
  const BROADCAST_ADDRESS: byte := 0xff
  const DEFAULT_RETRIES: byte := 3

  type word = x: int | 0 <= x < 0x1_0000_0000

  function Next(x: word): word {
    if x == 0xffff_ffff then 0 else x + 1
  }

  /** A counter of 32 bits after `n` steps. */
  function Counted(x: word, n: nat): word {
    if n == 0 then x else Next(Counted(x, n - 1))
  }

  lemma {:induction false} CountedIs(x: word, n: nat)
    ensures Counted(x, n) == (x + n) % 0x1_0000_0000
  {
    if n == 0 {
    } else {
      CountedIs(x, n - 1);
    }
  }

  function Repeats(attempts: nat): nat {
    if attempts == 0 then 0 else attempts - 1
  }

  datatype Headers = Headers(to: byte, from: byte, id: byte, flags: byte)

  datatype Packet = Packet(headers: Headers, data: seq<byte>)

  predicate HasAck(flags: byte) {
    flags >= FLAGS_ACK
  }

  function WithAck(flags: byte): byte {
    if HasAck(flags) then flags else flags + FLAGS_ACK
  }

  function WithoutAck(flags: byte): byte {
    if HasAck(flags) then flags - FLAGS_ACK else flags
  }

  /** The top bit of the flags marks an acknowledgement; the others are the caller's. */
  lemma AckFlag(flags: byte)
    ensures HasAck(flags) <==> flags / 0x80 == 1
    ensures WithAck(flags) == flags % 0x80 + 0x80 && WithoutAck(flags) == flags % 0x80
  {
  }

  /** What a node knows while it waits: its address, whom it waits for and for which id. */
  datatype Wait = Wait(me: byte, peer: byte, id: byte, flags: byte, seen: seq<byte>) {
    predicate Valid() {
      |seen| == 256 && !HasAck(flags)
    }

    predicate IsAnswer(h: Headers) {
      h.from == peer && h.to == me && HasAck(h.flags) && h.id == id
    }

    /** A request that has been delivered before. */
    predicate IsRepeat(h: Headers)
      requires Valid()
    {
      !HasAck(h.flags) && OnWaiting(seen[h.from], h.id).ack
    }

    function Request(data: seq<byte>): Packet {
      Packet(Headers(peer, me, id, flags), data)
    }
  }

  function AckFor(me: byte, h: Headers, flags: byte): Packet {
    Packet(Headers(h.from, me, h.id, WithAck(flags)), ['!' as int])
  }

  /** One time-out: whether the answer is among the frames that arrive, and the acknowledgements sent before it. */
  function Listen(w: Wait, arriving: seq<Headers>): (bool, seq<Packet>)
    requires w.Valid()
  {
    if arriving == [] then (false, [])
    else if w.IsAnswer(arriving[0]) then (true, [])
    else
      var (ok, more) := Listen(w, arriving[1..]);
      (ok, (if w.IsRepeat(arriving[0]) then [AckFor(w.me, arriving[0], w.flags)] else []) + more)
  }

  /** At most `attempts` transmissions, each with a time-out after it; nothing arrives when the script has ended. */
  function Attempt(w: Wait, data: seq<byte>, attempts: nat, script: seq<seq<Headers>>): (bool, seq<Packet>)
    requires w.Valid()
    decreases attempts
  {
    if attempts == 0 then (false, [])
    else if w.peer == BROADCAST_ADDRESS then (true, [w.Request(data)])
    else
      var (ok, acks) := Listen(w, First(script));
      if ok then (true, [w.Request(data)] + acks)
      else
        var (later, more) := Attempt(w, data, attempts - 1, Rest(script));
        (later, [w.Request(data)] + acks + more)
  }

  function First(script: seq<seq<Headers>>): seq<Headers> {
    if script == [] then [] else script[0]
  }

  function Rest(script: seq<seq<Headers>>): seq<seq<Headers>> {
    if script == [] then [] else script[1..]
  }

  // ----- What the attempts amount to -----

  predicate Answered(w: Wait, arriving: seq<Headers>) {
    exists i :: 0 <= i < |arriving| && w.IsAnswer(arriving[i])
  }

  lemma {:induction false} ListenAnswers(w: Wait, arriving: seq<Headers>)
    requires w.Valid()
    ensures Listen(w, arriving).0 <==> Answered(w, arriving)
  {
    if arriving == [] {
    } else {
      ListenAnswers(w, arriving[1..]);
      if Answered(w, arriving) && !w.IsAnswer(arriving[0]) {
        var i :| 0 <= i < |arriving| && w.IsAnswer(arriving[i]);
        assert arriving[1..][i - 1] == arriving[i];
      }
    }
  }

  /** A send to one node returns true exactly if its acknowledgement arrives in time for one of the attempts. */
  lemma {:induction false} AttemptSucceeds(w: Wait, data: seq<byte>, attempts: nat, script: seq<seq<Headers>>)
    requires w.Valid() && w.peer != BROADCAST_ADDRESS
    ensures Attempt(w, data, attempts, script).0 <==>
            exists i :: 0 <= i < attempts && i < |script| && Answered(w, script[i])
    decreases attempts
  {
    if attempts == 0 {
    } else {
      ListenAnswers(w, First(script));
      AttemptSucceeds(w, data, attempts - 1, Rest(script));
      if script != [] {
        if i :| 0 <= i < attempts && i < |script| && Answered(w, script[i]) {
          assert i > 0 ==> script[i] == Rest(script)[i - 1];
        }
        if j :| 0 <= j < attempts - 1 && j < |Rest(script)| && Answered(w, Rest(script)[j]) {
          assert Rest(script)[j] == script[j + 1];
        }
      }
    }
  }

  function Requests(s: seq<Packet>): nat {
    if s == [] then 0 else Requests(s[..|s| - 1]) + if HasAck(s[|s| - 1].headers.flags) then 0 else 1
  }

  lemma {:induction false} RequestsConcat(s: seq<Packet>, t: seq<Packet>)
    ensures Requests(s + t) == Requests(s) + Requests(t)
  {
    if t == [] {
      assert s + t == s;
    } else {
      assert (s + t)[..|s + t| - 1] == s + t[..|t| - 1];
      RequestsConcat(s, t[..|t| - 1]);
    }
  }

  /** The acknowledgement of what has been delivered last from `to`. */
  function Again(w: Wait, to: byte): Packet
    requires w.Valid()
  {
    Packet(Headers(to, w.me, w.seen[to], WithAck(w.flags)), ['!' as int])
  }

  /** While it waits a node sends acknowledgements only, of what it has delivered before. */
  lemma {:induction false} ListenSends(w: Wait, arriving: seq<Headers>)
    requires w.Valid()
    ensures var sent := Listen(w, arriving).1;
            && Requests(sent) == 0
            && (forall p :: p in sent ==> HasAck(p.headers.flags) && p == Again(w, p.headers.to))
  {
    if arriving != [] && !w.IsAnswer(arriving[0]) {
      ListenSends(w, arriving[1..]);
      var ack, more := AckFor(w.me, arriving[0], w.flags), Listen(w, arriving[1..]).1;
      RequestsConcat([ack], more);
      assert Requests([ack]) == 0 by {
        assert [ack][..0] == [];
      }
      assert [] + more == more;
    }
  }

  /** A frame that repeats what has been delivered last from its sender is acknowledged again, if it arrives before
      the answer.
    */
  lemma {:induction false} ListenRepeats(w: Wait, arriving: seq<Headers>, i: nat)
    requires w.Valid() && i < |arriving| && !Answered(w, arriving[..i + 1])
    requires arriving[i].flags < 0x80 && arriving[i].id == w.seen[arriving[i].from]
    ensures Again(w, arriving[i].from) in Listen(w, arriving).1
    decreases i
  {
    assert arriving[..i + 1][0] == arriving[0];
    assert !w.IsAnswer(arriving[0]);
    if i > 0 {
      var rest := arriving[1..];
      forall j | 0 <= j < i
        ensures !w.IsAnswer(rest[..i][j])
      {
        assert arriving[..i + 1][j + 1] == rest[..i][j];
      }
      ListenRepeats(w, rest, i - 1);
    }
  }

  lemma OneRequest(w: Wait, data: seq<byte>, acks: seq<Packet>, more: seq<Packet>)
    requires w.Valid() && Requests(acks) == 0
    ensures Requests([w.Request(data)] + acks) == 1
    ensures Requests([w.Request(data)] + acks + more) == 1 + Requests(more)
  {
    var request := w.Request(data);
    assert Requests([request]) == 1 by {
      assert [request][..0] == [];
    }
    RequestsConcat([request], acks);
    RequestsConcat([request] + acks, more);
  }

  /** A packet sent during a send is the request, or acknowledges what has been delivered before. */
  predicate Allowed(w: Wait, data: seq<byte>, p: Packet)
    requires w.Valid()
  {
    if HasAck(p.headers.flags) then p == Again(w, p.headers.to)
    else p == Packet(Headers(w.peer, w.me, w.id, w.flags), data)
  }

  /** All of the transmissions carry the same id. */
  lemma {:induction false} AttemptSends(w: Wait, data: seq<byte>, attempts: nat, script: seq<seq<Headers>>)
    requires w.Valid()
    ensures forall p :: p in Attempt(w, data, attempts, script).1 ==> Allowed(w, data, p)
    decreases attempts
  {
    if attempts == 0 {
    } else {
      ListenSends(w, First(script));
      AttemptSends(w, data, attempts - 1, Rest(script));
    }
  }

  /** The first packet is the request. */
  lemma AttemptBegins(w: Wait, data: seq<byte>, attempts: nat, script: seq<seq<Headers>>)
    requires w.Valid() && attempts > 0
    ensures var sent := Attempt(w, data, attempts, script).1;
            sent != [] && sent[0] == Packet(Headers(w.peer, w.me, w.id, w.flags), data)
  {
  }

  /** The acknowledgement of send `id` from `peer` is among what arrives during one of the attempts. */
  predicate Confirmed(me: byte, peer: byte, id: byte, attempts: nat, script: seq<seq<Headers>>) {
    exists i, j :: 0 <= i < |script| && i < attempts && 0 <= j < |script[i]| &&
      var h := script[i][j];
      h.from == peer && h.to == me && h.flags >= 0x80 && h.id == id
  }

  lemma AttemptConfirmed(w: Wait, data: seq<byte>, attempts: nat, script: seq<seq<Headers>>)
    requires w.Valid() && attempts > 0
    ensures Attempt(w, data, attempts, script).0 <==>
            w.peer == 0xff || Confirmed(w.me, w.peer, w.id, attempts, script)
  {
    if w.peer != BROADCAST_ADDRESS {
      AttemptSucceeds(w, data, attempts, script);
    }
  }

  /** What is on the air goes on with `request`, and no other packet is added that is not an acknowledgement. */
  predicate Sent(before: seq<Packet>, after: seq<Packet>, request: Packet) {
    && |before| < |after| && after[..|before|] == before && after[|before|] == request
    && forall i :: |before| <= i < |after| && after[i].headers.flags < 0x80 ==> after[i] == request
  }

  lemma AttemptSent(w: Wait, data: seq<byte>, attempts: nat, script: seq<seq<Headers>>, before: seq<Packet>)
    requires w.Valid() && attempts > 0
    ensures Sent(before, before + Attempt(w, data, attempts, script).1,
                 Packet(Headers(w.peer, w.me, w.id, w.flags), data))
  {
    var sent := Attempt(w, data, attempts, script).1;
    AttemptBegins(w, data, attempts, script);
    AttemptSends(w, data, attempts, script);
    forall i | |before| <= i < |before + sent|
      ensures Allowed(w, data, (before + sent)[i])
    {
      assert (before + sent)[i] in sent;
    }
  }

  lemma AttemptStep(w: Wait, data: seq<byte>, attempts: nat, script: seq<seq<Headers>>)
    requires w.Valid() && attempts > 0
    ensures var (ok, sent) := Attempt(w, data, attempts, script);
            var (answered, acks) := Listen(w, First(script));
            if w.peer == BROADCAST_ADDRESS then ok && sent == [w.Request(data)] && Requests(sent) == 1
            else if answered then ok && sent == [w.Request(data)] + acks && Requests(sent) == 1
            else
              var (later, more) := Attempt(w, data, attempts - 1, Rest(script));
              && ok == later && sent == [w.Request(data)] + acks + more
              && Requests(sent) == 1 + Requests(more)
  {
    ListenSends(w, First(script));
    var acks := Listen(w, First(script)).1;
    OneRequest(w, data, acks, Attempt(w, data, attempts - 1, Rest(script)).1);
    OneRequest(w, data, [], []);
    assert [w.Request(data)] + [] == [w.Request(data)];
  }

  /** There are no more transmissions than attempts, and all of them are made before the send fails. */
  lemma {:induction false} AttemptCount(w: Wait, data: seq<byte>, attempts: nat, script: seq<seq<Headers>>)
    requires w.Valid()
    ensures var (ok, sent) := Attempt(w, data, attempts, script);
            Requests(sent) <= attempts && (!ok ==> Requests(sent) == attempts)
    decreases attempts
  {
    if attempts == 0 {
    } else {
      AttemptStep(w, data, attempts, script);
      AttemptCount(w, data, attempts - 1, Rest(script));
    }
  }

  lemma Regroup(a: seq<Packet>, b: seq<Packet>, c: seq<Packet>)
    ensures a + (b + c) == a + b + c
  {
  }

  /** A send when it begins, with what will come of it. */
  datatype Start = Start(wait: Wait, data: seq<byte>, air: seq<Packet>, retransmissions: word, all: (bool, seq<Packet>))

  class Node {
    const thisAddress: byte
    var retries: byte
    var retransmissions: word
    var lastSequenceNumber: byte
    const seenIds: array<byte>
    var headerTo: byte
    var headerId: byte
    var headerFlags: byte
    /** The frames sent so far. */
    var air: seq<Packet>

    constructor (address: byte)
      ensures thisAddress == address && retries == DEFAULT_RETRIES && retransmissions == 0 && lastSequenceNumber == 0
      ensures fresh(seenIds) && seenIds[..] == seq(256, _ => 0) && air == [] && headerFlags == 0
    {
      thisAddress, retries, retransmissions, lastSequenceNumber := address, DEFAULT_RETRIES, 0, 0;
      headerTo, headerId, headerFlags, air := BROADCAST_ADDRESS, 0, 0, [];
      seenIds := new byte[256](_ => 0);
    }

    method Sendto(data: seq<byte>, address: byte)
      modifies this`headerTo, this`air
      ensures headerTo == address
      ensures air == old(air) + [Packet(Headers(address, thisAddress, headerId, headerFlags), data)]
    {
      headerTo := address;
      air := air + [Packet(Headers(headerTo, thisAddress, headerId, headerFlags), data)];
    }

    method Acknowledge(id: byte, from: byte)
      modifies this`headerTo, this`headerId, this`headerFlags, this`air
      ensures headerFlags == WithAck(old(headerFlags)) && headerId == id
      ensures air == old(air) + [Packet(Headers(from, thisAddress, id, headerFlags), ['!' as int])]
    {
      headerId := id;
      headerFlags := WithAck(headerFlags);
      Sendto(['!' as int], from);
    }

    /** The fields are what `w` says. */
    ghost predicate Waits(w: Wait)
      reads this`headerFlags, seenIds
    {
      && seenIds.Length == 256 && w.seen == seenIds[..]
      && w.me == thisAddress && w.flags == WithoutAck(headerFlags)
    }

    /** The frames that arrive before the time-out. */
    method WaitForAck(address: byte, id: byte, arriving: seq<Headers>, ghost w: Wait) returns (ok: bool)
      requires Waits(w) && w.peer == address && w.id == id
      modifies this`headerTo, this`headerId, this`headerFlags, this`air
      ensures Waits(w) && ok == Listen(w, arriving).0 && air == old(air) + Listen(w, arriving).1
    {
      var i := 0;
      while i < |arriving|
        invariant i <= |arriving| && Waits(w)
        invariant Listen(w, arriving).0 == Listen(w, arriving[i..]).0
        invariant old(air) + Listen(w, arriving).1 == air + Listen(w, arriving[i..]).1
      {
        var h := arriving[i];
        assert arriving[i..][0] == h && arriving[i..][1..] == arriving[i + 1..];
        if h.from == address && h.to == thisAddress && HasAck(h.flags) && h.id == id {
          return true;
        } else if !HasAck(h.flags) && h.id == seenIds[h.from] {
          Acknowledge(h.id, h.from);
        }
        i := i + 1;
      }
      return false;
    }

    /** Attempt number `attempt`: a transmission, and the wait for its acknowledgement. */
    method Try(data: seq<byte>, address: byte, id: byte, attempt: nat, arriving: seq<Headers>, ghost w: Wait)
      returns (ok: bool, ghost sent: seq<Packet>)
      requires Waits(w) && w.peer == address && w.id == id
      modifies this`retransmissions, this`headerTo, this`headerId, this`headerFlags, this`air
      ensures Waits(w) && air == old(air) + sent
      ensures var request := Packet(Headers(address, thisAddress, id, w.flags), data);
              if address == BROADCAST_ADDRESS then ok && sent == [request]
              else ok == Listen(w, arriving).0 && sent == [request] + Listen(w, arriving).1
      ensures retransmissions == if address != BROADCAST_ADDRESS && attempt > 1 then Next(old(retransmissions))
                                 else old(retransmissions)
    {
      headerId := id;
      headerFlags := WithoutAck(headerFlags);
      Sendto(data, address);
      sent := [w.Request(data)];
      if address == BROADCAST_ADDRESS {
        return true, sent;
      }
      if attempt > 1 {
        retransmissions := Next(retransmissions);
      }
      ok := WaitForAck(address, id, arriving, w);
      sent := sent + Listen(w, arriving).1;
    }

    /** `attempt` attempts have been made of the send that began at `start`, and `n` are left. */
    ghost predicate Underway(start: Start, attempt: nat, n: nat, left: seq<seq<Headers>>)
      reads this`air, this`retransmissions, this`headerFlags, seenIds
    {
      && Waits(start.wait) && retransmissions == Counted(start.retransmissions, Repeats(attempt))
      && (attempt > 0 ==> start.wait.peer != BROADCAST_ADDRESS)
      && var all, rest := start.all, Attempt(start.wait, start.data, n, left);
      && all.0 == rest.0 && start.air + all.1 == air + rest.1 && Requests(all.1) == attempt + Requests(rest.1)
    }

    /** It is over after `attempt` attempts. */
    ghost predicate Ended(start: Start, attempt: nat, ok: bool)
      reads this`air, this`retransmissions, this`headerFlags, seenIds
    {
      && Waits(start.wait) && retransmissions == Counted(start.retransmissions, Repeats(attempt))
      && start.all.0 == ok && air == start.air + start.all.1 && Requests(start.all.1) == attempt > 0
    }

    lemma NoneLeft(start: Start, attempt: nat, left: seq<seq<Headers>>)
      requires Underway(start, attempt, 0, left) && attempt > 0
      ensures Ended(start, attempt, false)
    {
    }

    /** One attempt out of `n`. */
    method TryNext(data: seq<byte>, address: byte, id: byte, attempt: nat, script: seq<seq<Headers>>,
                   ghost n: nat, ghost start: Start)
      returns (ok: bool)
      requires start.wait.peer == address && start.wait.id == id && start.data == data
      requires n > 0 && attempt > 0 && Underway(start, attempt - 1, n, script)
      modifies this`retransmissions, this`headerTo, this`headerId, this`headerFlags, this`air
      ensures if ok then Ended(start, attempt, true) else Underway(start, attempt, n - 1, Rest(script))
    {
      AttemptStep(start.wait, data, n, script);
      ghost var sent;
      ghost var before, more := air, Attempt(start.wait, data, n - 1, Rest(script)).1;
      ok, sent := Try(data, address, id, attempt, First(script), start.wait);
      Regroup(before, sent, more);
    }

    /** The attempts, up to the number of retries and one more. */
    method TryAll(data: seq<byte>, address: byte, id: byte, script: seq<seq<Headers>>, ghost start: Start)
      returns (ok: bool, attempt: nat)
      requires start.wait.peer == address && start.wait.id == id && start.data == data && retries < 255
      requires Underway(start, 0, retries + 1, script)
      modifies this`retransmissions, this`headerTo, this`headerId, this`headerFlags, this`air
      ensures Ended(start, attempt, ok) && (!ok ==> attempt == retries + 1)
    {
      ghost var n: nat := retries + 1;
      var left := script;
      ok, attempt := false, 0;
      while attempt <= retries && !ok
        invariant attempt + n == retries + 1
        invariant if ok then Ended(start, attempt, true) else Underway(start, attempt, n, left)
      {
        attempt := attempt + 1;
        ok := TryNext(data, address, id, attempt, left, n, start);
        left, n := Rest(left), n - 1;
      }
      if !ok {
        NoneLeft(start, attempt, left);
      }
    }

    /** All the attempts of a send. */
    method MakeAttempts(data: seq<byte>, address: byte, script: seq<seq<Headers>>, ghost w: Wait)
      returns (ok: bool, ghost sent: seq<Packet>)
      requires Waits(w) && w.peer == address && w.id == lastSequenceNumber && retries < 255
      modifies this`retransmissions, this`headerTo, this`headerId, this`headerFlags, this`air
      ensures (ok, sent) == Attempt(w, data, retries + 1, script) && air == old(air) + sent
      ensures Requests(sent) > 0 && retransmissions == Counted(old(retransmissions), Requests(sent) - 1)
    {
      ghost var all := Attempt(w, data, retries + 1, script);
      var attempts;
      ok, attempts := TryAll(data, address, lastSequenceNumber, script, Start(w, data, air, retransmissions, all));
      sent := all.1;
    }

    method SendtoWait(data: seq<byte>, address: byte, script: seq<seq<Headers>>) returns (ok: bool)
      requires seenIds.Length == 256 && retries < 255
      modifies this`lastSequenceNumber, this`retransmissions
      modifies this`headerTo, this`headerId, this`headerFlags, this`air
      ensures lastSequenceNumber == (old(lastSequenceNumber) + 1) % 256
      ensures var w := Wait(thisAddress, address, lastSequenceNumber, WithoutAck(old(headerFlags)), seenIds[..]);
              var (success, sent) := Attempt(w, data, retries + 1, script);
              && ok == success && air == old(air) + sent
              && Requests(sent) > 0 && retransmissions == Counted(old(retransmissions), Requests(sent) - 1)
      ensures Sent(old(air), air,
                   Packet(Headers(address, thisAddress, lastSequenceNumber, WithoutAck(old(headerFlags))), data))
      ensures ok <==> address == 0xff || Confirmed(thisAddress, address, lastSequenceNumber, retries + 1, script)
    {
      lastSequenceNumber := (lastSequenceNumber + 1) % 256;
      ghost var w := Wait(thisAddress, address, lastSequenceNumber, WithoutAck(headerFlags), seenIds[..]);
      ghost var sent;
      ok, sent := MakeAttempts(data, address, script, w);
      AttemptSent(w, data, retries + 1, script, old(air));
      AttemptConfirmed(w, data, retries + 1, script);
    }

    /** A frame that has arrived, if any: acknowledged, and delivered if its id is new. */
    method RecvfromAck(arrived: Option<Packet>) returns (got: Option<Packet>)
      requires seenIds.Length == 256
      modifies this`headerTo, this`headerId, this`headerFlags, this`air, seenIds
      ensures arrived.None? || HasAck(arrived.value.headers.flags) ==>
                && got == None && air == old(air) && seenIds[..] == old(seenIds[..])
                && headerFlags == old(headerFlags)
      ensures arrived.Some? && !HasAck(arrived.value.headers.flags) ==>
                var h := arrived.value.headers;
                && got == (if h.id != old(seenIds[h.from]) then arrived else None)
                && seenIds[..] == old(seenIds[..])[h.from := h.id]
                && headerFlags == (if h.to == BROADCAST_ADDRESS then old(headerFlags) else WithAck(old(headerFlags)))
                && air == old(air) +
                          if h.to == BROADCAST_ADDRESS then []
                          else [Packet(Headers(h.from, thisAddress, h.id, WithAck(old(headerFlags))), ['!' as int])]
    {
      got := None;
      if arrived.Some? {
        var h := arrived.value.headers;
        if !HasAck(h.flags) {
          if h.to != BROADCAST_ADDRESS {
            Acknowledge(h.id, h.from);
          }
          if h.id != seenIds[h.from] {
            seenIds[h.from] := h.id;
            got := arrived;
          }
        }
      }
    }
  }
}

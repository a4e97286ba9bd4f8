/** The RH_Serial driver over a serial port, of which only the bytes read and written are kept. */
module Serial {
  import opened Crc
  import opened SerialLink

  class Driver {
    const thisAddress: bv8
    const promiscuous: bool
    /** Bytes that have arrived and not been read, and bytes written. */
    var input: seq<bv8>
    var output: seq<bv8>
    var rxState: RxState
    var rxFcs: bv16
    var rxRecdFcs: bv16
    const rxBuf: array<bv8>
    var rxBufLen: nat
    var rxBufValid: bool
    var rxHeaders: Headers
    var rxGood: nat
    var rxBad: nat
    var txHeaders: Headers
    var txFcs: bv16

    predicate Valid()
      reads this`rxBufLen
    {
      rxBuf.Length == MAX_PAYLOAD_LEN && rxBufLen <= MAX_PAYLOAD_LEN
    }

    function Filter(): Filter {
      SerialLink.Filter(thisAddress, promiscuous)
    }

    function State(): Receiver
      requires Valid()
      reads this`rxState, this`rxFcs, this`rxRecdFcs, this`rxBufLen, this`rxBufValid, this`rxHeaders
      reads this`rxGood, this`rxBad, rxBuf
    {
      Receiver(rxState, rxFcs, rxRecdFcs, rxBuf[..], rxBufLen, rxBufValid, rxHeaders, rxGood, rxBad)
    }

    constructor (address: bv8, promiscuous: bool)
      ensures Valid() && Quiet(State()) && input == output == []
      ensures thisAddress == address && this.promiscuous == promiscuous && fresh(rxBuf)
    {
      thisAddress, this.promiscuous := address, promiscuous;
      input, output, rxState, rxFcs, rxRecdFcs, rxBufLen := [], [], RxIdle, 0, 0, 0;
      rxBufValid, rxHeaders, rxGood, rxBad := false, Headers(0, 0, 0, 0), 0, 0;
      txHeaders, txFcs := Headers(BROADCAST_ADDRESS, address, 0, 0), 0;
      rxBuf := new bv8[MAX_PAYLOAD_LEN](_ => 0);
    }

    // ----- Receiving -----

    method ClearRxBuf()
      requires Valid()
      modifies this`rxBufValid, this`rxFcs, this`rxBufLen
      ensures Valid() && State() == Clear(old(State()))
    {
      rxBufValid, rxFcs, rxBufLen := false, 0xffff, 0;
    }

    method AppendRxBuf(ch: bv8)
      requires Valid()
      modifies this`rxBufLen, this`rxFcs, rxBuf
      ensures Valid() && State() == Append(old(State()), ch)
    {
      if rxBufLen < MAX_PAYLOAD_LEN {
        rxBuf[rxBufLen] := ch;
        rxBufLen := rxBufLen + 1;
        rxFcs := CcittUpdate(rxFcs, ch);
      }
    }

    method ValidateRxBuf()
      requires Valid()
      modifies this`rxBad, this`rxHeaders, this`rxGood, this`rxBufValid
      ensures State() == Validate(Filter(), old(State()))
    {
      if rxRecdFcs != rxFcs {
        rxBad := rxBad + 1;
        return;
      }
      rxHeaders := Headers(rxBuf[0], rxBuf[1], rxBuf[2], rxBuf[3]);
      if promiscuous || rxHeaders.to == thisAddress || rxHeaders.to == BROADCAST_ADDRESS {
        rxGood, rxBufValid := rxGood + 1, true;
      }
    }

    method HandleRx(ch: bv8)
      requires Valid()
      modifies this`rxState, this`rxFcs, this`rxRecdFcs, this`rxBufLen, this`rxBufValid, this`rxHeaders
      modifies this`rxGood, this`rxBad, rxBuf
      ensures Valid() && State() == SerialLink.HandleRx(Filter(), old(State()), ch)
    {
      match rxState {
        case RxIdle =>
          if ch == DLE {
            rxState := RxDLE;
          }
        case RxDLE =>
          if ch == STX {
            ClearRxBuf();
            rxState := RxData;
          } else {
            rxState := RxIdle;
          }
        case RxData =>
          if ch == DLE {
            rxState := RxEscape;
          } else {
            AppendRxBuf(ch);
          }
        case RxEscape =>
          HandleEscaped(ch);
        case RxWaitFCS1 =>
          rxRecdFcs := Upper(ch);
          rxState := RxWaitFCS2;
        case RxWaitFCS2 =>
          rxRecdFcs := WithLower(rxRecdFcs, ch);
          rxState := RxIdle;
          ValidateRxBuf();
      }
    }

    method HandleEscaped(ch: bv8)
      requires Valid() && rxState == RxEscape
      modifies this`rxState, this`rxFcs, this`rxBufLen, rxBuf
      ensures Valid() && State() == SerialLink.HandleRx(Filter(), old(State()), ch)
    {
      if ch == ETX {
        rxFcs := CcittUpdate(rxFcs, DLE);
        rxFcs := CcittUpdate(rxFcs, ETX);
        rxState := RxWaitFCS1;
      } else if ch == DLE {
        AppendRxBuf(ch);
        rxState := RxData;
      } else {
        rxState := RxIdle;
      }
    }

    method Available() returns (ok: bool)
      requires Valid()
      modifies this`rxState, this`rxFcs, this`rxRecdFcs, this`rxBufLen, this`rxBufValid, this`rxHeaders
      modifies this`rxGood, this`rxBad, this`input, rxBuf
      ensures Valid() && ok == rxBufValid
      ensures (State(), input) == Poll(Filter(), old(State()), old(input))
    {
      while !rxBufValid && input != []
        invariant Valid() && Poll(Filter(), State(), input) == Poll(Filter(), old(State()), old(input))
        decreases |input|
      {
        var ch := input[0];
        input := input[1..];
        HandleRx(ch);
      }
      ok := rxBufValid;
    }

    /** The message without its headers, as much of it as there is room for. */
    method Recv(len: nat) returns (ok: bool, data: seq<bv8>)
      requires Valid()
      modifies this`rxState, this`rxFcs, this`rxRecdFcs, this`rxBufLen, this`rxBufValid, this`rxHeaders
      modifies this`rxGood, this`rxBad, this`input, rxBuf
      ensures Valid()
      ensures var (q, rest) := Poll(Filter(), old(State()), old(input));
              && ok == q.valid && input == rest && q.Sound()
              && State() == (if ok then Clear(q) else q)
              && (ok ==> data == Prefix(MessageOf(q).data, len) && rxHeaders == MessageOf(q).headers)
    {
      ok := Available();
      data := [];
      if ok {
        if rxBufLen >= HEADER_LEN {
          data := Prefix(rxBuf[HEADER_LEN..rxBufLen], len);
        }
        ClearRxBuf();
      }
    }

    // ----- Sending -----

    method Write(ch: bv8)
      modifies this`output
      ensures output == old(output) + [ch]
    {
      output := output + [ch];
    }

    /** `sent` has been sent in the frame so far. */
    ghost predicate Sending(before: seq<bv8>, sent: seq<bv8>)
      reads this`output, this`txFcs
    {
      output == before + [DLE, STX] + Stuffed(sent) && txFcs == Ccitt(sent, 0xffff)
    }

    method TxData(ch: bv8, ghost before: seq<bv8>, ghost sent: seq<bv8>, ghost now: seq<bv8>)
      requires Sending(before, sent) && now == sent + [ch]
      modifies this`output, this`txFcs
      ensures Sending(before, now)
    {
      if ch == DLE {
        Write(DLE);
      }
      Write(ch);
      CcittNext(sent, ch, now, 0xffff, txFcs);
      txFcs := CcittUpdate(txFcs, ch);
      StuffedNext(sent, ch, before + [DLE, STX]);
    }

    method StartFrame(ghost before: seq<bv8>)
      requires output == before
      modifies this`output, this`txFcs
      ensures Sending(before, [txHeaders.to, txHeaders.from, txHeaders.id, txHeaders.flags])
    {
      var h := txHeaders;
      txFcs := 0xffff;
      Write(DLE);
      Write(STX);
      assert Sending(before, []);
      ghost var to := [] + [h.to];
      ghost var from := to + [h.from];
      ghost var id := from + [h.id];
      TxData(h.to, before, [], to);
      TxData(h.from, before, to, from);
      TxData(h.id, before, from, id);
      TxData(h.flags, before, id, id + [h.flags]);
      InOrder(h.to, h.from, h.id, h.flags);
    }

    method Send(data: seq<bv8>)
      modifies this`output, this`txFcs
      ensures output == old(output) + Frame(Packet(txHeaders, data))
    {
      ghost var before := output;
      ghost var all := Octets(Packet(txHeaders, data));
      StartFrame(before);
      var i := 0;
      assert all[..HEADER_LEN + 0] == [txHeaders.to, txHeaders.from, txHeaders.id, txHeaders.flags];
      while i < |data|
        invariant i <= |data| && Sending(before, all[..HEADER_LEN + i])
      {
        TxData(data[i], before, all[..HEADER_LEN + i], all[..HEADER_LEN + (i + 1)]);
        i := i + 1;
      }
      assert all[..HEADER_LEN + i] == all;
      EndFrame(before, all);
    }

    /** The end of the frame is covered by the check sequence, which is sent high byte first. */
    method EndFrame(ghost before: seq<bv8>, ghost sent: seq<bv8>)
      requires Sending(before, sent)
      modifies this`output, this`txFcs
      ensures output == before + FrameWith(sent, FrameSum(sent))
    {
      Write(DLE);
      txFcs := CcittUpdate(txFcs, DLE);
      Write(ETX);
      txFcs := CcittUpdate(txFcs, ETX);
      Write(High(txFcs));
      Write(Low(txFcs));
    }
  }

  function Prefix(s: seq<bv8>, len: nat): seq<bv8> {
    if |s| > len then s[..len] else s
  }

  lemma InOrder<T>(a: T, b: T, c: T, d: T)
    ensures [] + [a] + [b] + [c] + [d] == [a, b, c, d]
  {
  }

  lemma StuffedNext(sent: seq<bv8>, ch: bv8, before: seq<bv8>)
    ensures before + Stuffed(sent + [ch]) == before + Stuffed(sent) + if ch == DLE then [DLE] + [ch] else [ch]
  {
    assert (sent + [ch])[..|sent|] == sent;
    assert [DLE, ch] == [DLE] + [ch];
  }

  /** The next packet, and what is left to collect after it. */
  method Next(d: Driver) returns (ok: bool, packet: Packet)
    requires d.Valid()
    modifies d, d.rxBuf
    ensures d.Valid() && !d.rxBufValid
    ensures old(d.rxBufValid) || !ok || |d.input| < |old(d.input)|
    ensures |d.input| <= |old(d.input)|
    ensures var all := Drain(d.Filter(), old(d.State()), old(d.input));
            if ok then var (z, more) := Drain(d.Filter(), d.State(), d.input); all == (z, [packet] + more)
            else all == (d.State(), []) && d.input == []
  {
    var data;
    ok, data := d.Recv(MAX_MESSAGE_LEN);
    packet := Packet(d.rxHeaders, data);
  }

  lemma Regroup<T>(got: seq<T>, packet: T, more: seq<T>)
    ensures got + ([packet] + more) == got + [packet] + more && got + [] == got
  {
  }

  /** Collects messages until there are none left. */
  method Collect(d: Driver) returns (got: seq<Packet>)
    requires d.Valid()
    modifies d, d.rxBuf
    ensures d.Valid() && d.input == []
    ensures (d.State(), got) == Drain(d.Filter(), old(d.State()), old(d.input))
  {
    got := [];
    ghost var all := Drain(d.Filter(), d.State(), d.input);
    var ok, packet := Next(d);
    ghost var left := Drain(d.Filter(), d.State(), d.input);
    assert ok ==> all.1 == got + [packet] + left.1;
    while ok
      invariant d.Valid() && !d.rxBufValid
      invariant !ok ==> all == (d.State(), got) && d.input == []
      invariant ok ==> left == Drain(d.Filter(), d.State(), d.input)
      invariant ok ==> all == (left.0, got + [packet] + left.1)
      decreases |d.input|, ok
    {
      got := got + [packet];
      ok, packet := Next(d);
      left := Drain(d.Filter(), d.State(), d.input);
      Regroup(got, packet, left.1);
    }
  }

  lemma {:induction false} StreamNext(bursts: seq<Burst>, b: Burst)
    ensures Stream(bursts + [b]) == Stream(bursts) + (b.noise + Frame(b.packet))
  {
    if bursts == [] {
      assert Stream([b]) == b.noise + Frame(b.packet) + Stream([]);
    } else {
      assert (bursts + [b])[1..] == bursts[1..] + [b];
      StreamNext(bursts[1..], b);
    }
  }

  /** What one driver sends, and the noise around it, is on the input of the other. */
  method Transmit(a: Driver, b: Driver, bursts: seq<Burst>)
    requires a != b && b.input == []
    modifies a, b`input
    ensures b.input == Stream(bursts)
  {
    var i := 0;
    while i < |bursts|
      invariant i <= |bursts| && b.input == Stream(bursts[..i])
    {
      a.txHeaders := bursts[i].packet.headers;
      var before := |a.output|;
      a.Send(bursts[i].packet.data);
      b.input := b.input + (bursts[i].noise + a.output[before..]);
      StreamNext(bursts[..i], bursts[i]);
      assert bursts[..i] + [bursts[i]] == bursts[..i + 1];
      i := i + 1;
    }
    assert bursts[..i] == bursts;
  }

  /** Two drivers on one line: every packet that is for the receiver arrives, in order and unaltered. */
  method Exchange(a: Driver, b: Driver, bursts: seq<Burst>) returns (got: seq<Packet>)
    requires a != b && b.Valid() && Quiet(b.State()) && b.input == []
    requires forall x :: x in bursts ==> x.Valid()
    modifies a, b, b.rxBuf
    ensures b.Valid() && Quiet(b.State()) && b.input == []
    ensures got == Addressed(b.Filter(), bursts)
    ensures forall p :: p in got <==>
              (b.promiscuous || p.headers.to == b.thisAddress || p.headers.to == 0xff) &&
              exists x :: x in bursts && x.packet == p
  {
    forall p
      ensures p in Addressed(b.Filter(), bursts) <==>
              (b.promiscuous || p.headers.to == b.thisAddress || p.headers.to == 0xff) &&
              exists x :: x in bursts && x.packet == p
    {
      AddressedAre(b.Filter(), bursts, p);
    }
    Transmit(a, b, bursts);
    Delivered(b.Filter(), b.State(), bursts);
    got := Collect(b);
  }
}

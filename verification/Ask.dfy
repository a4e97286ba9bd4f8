/** The RH_ASK driver: a transmitter and a receiver on the same timer interrupt. */
module Ask {
  import opened Common
  import opened AskPll
  import opened AskCodec
  import opened AskLink
  import Crc

  const PREAMBLE_LEN := 8

  datatype Mode = Idle | Rx | Tx

  /** A tick before bit `before`, or inside it: a bit stays on the line for eight ticks. */
  predicate Puts(bits: seq<bool>, before: nat, sample: nat, pin: bool,
                 mode: Mode, position: nat, next: nat, put: bool) {
    && next == (sample + 1) % 8
    && if sample != 0 then mode == Tx && position == before && put == pin
       else if before < |bits| then mode == Tx && position == before + 1 && put == bits[before]
       else mode == Idle && !put
  }

  class Driver {
    const thisAddress: byte
    const promiscuous: bool
    var mode: Mode

    var txHeaders: Headers
    const txBuf: array<byte>
    var txBufLen: nat
    var txIndex: nat
    var txBit: nat
    var txSample: nat
    var txGood: nat
    var txPin: bool

    var rxPllRamp: byte
    var rxIntegrator: byte
    var rxLastSample: bool
    var rxActive: bool
    var rxBits: Register
    var rxBitCount: nat
    const rxBuf: array<byte>
    var rxBufLen: nat
    var rxCount: byte
    var rxBufFull: bool
    var rxBufValid: bool
    var rxBad: nat
    var rxGood: nat
    var rxHeaders: Headers

    predicate TxValid()
      reads this`txIndex, this`txBufLen, this`txBit, this`txSample, txBuf
    {
      && txBuf.Length == 2 * MAX_PAYLOAD_LEN + PREAMBLE_LEN && txBuf[..PREAMBLE_LEN] == PREAMBLE
      && txIndex <= txBufLen <= txBuf.Length && txBit < 6 && txSample < 8
    }

    predicate RxValid()
      reads this`rxBufLen, this`rxActive, this`rxCount, this`rxBufFull
    {
      && rxBuf.Length == MAX_PAYLOAD_LEN && rxBufLen <= MAX_PAYLOAD_LEN
      && (rxActive ==> rxBufLen == 0 || (rxBufLen < rxCount && 7 <= rxCount <= MAX_PAYLOAD_LEN))
      && (rxBufFull ==> !rxActive && rxBufLen >= 7)
    }

    predicate Valid()
      reads this, txBuf
    {
      TxValid() && RxValid() && txBuf != rxBuf && !rxBufValid && (mode == Rx ==> !rxBufFull)
    }

    function PllState(): Pll
      reads this`rxPllRamp, this`rxIntegrator, this`rxLastSample
    {
      Pll(rxPllRamp, rxIntegrator, rxLastSample)
    }

    function DecoderState(): Decoder
      requires RxValid()
      reads this`rxActive, this`rxBits, this`rxBitCount, this`rxCount, this`rxBufLen, this`rxBufFull, this`rxBad
      reads rxBuf
    {
      Decoder(rxActive, rxBits, rxBitCount, rxCount, rxBuf[..rxBufLen], rxBufFull, rxBad)
    }

    function ReceiverState(): Receiver
      requires RxValid()
      reads this, rxBuf
    {
      Receiver(PllState(), DecoderState())
    }

    constructor (address: byte, promiscuous: bool)
      ensures Valid() && mode == Idle && Idling(DecoderState()) && PllState() == Pll(0, 0, false)
      ensures thisAddress == address && this.promiscuous == promiscuous
      ensures fresh(txBuf) && fresh(rxBuf)
    {
      thisAddress, this.promiscuous, mode := address, promiscuous, Idle;
      txHeaders, txBufLen, txIndex, txBit, txSample := Headers(BROADCAST_ADDRESS, address, 0, 0), 0, 0, 0, 0;
      txGood, txPin := 0, false;
      rxPllRamp, rxIntegrator, rxLastSample := 0, 0, false;
      rxActive, rxBits, rxBitCount, rxBufLen, rxCount := false, 0, 0, 0, 0;
      rxBufFull, rxBufValid, rxBad, rxGood := false, false, 0, 0;
      rxHeaders := Headers(0, 0, 0, 0);
      rxBuf := new byte[MAX_PAYLOAD_LEN](_ => 0);
      txBuf := new byte[2 * MAX_PAYLOAD_LEN + PREAMBLE_LEN](i => if 0 <= i < PREAMBLE_LEN then PREAMBLE[i] else 0);
      new;
      assert txBuf[..PREAMBLE_LEN] == PREAMBLE;
    }

    // ----- Receiving -----

    method ByteIn(b: byte)
      requires RxValid() && rxActive && !rxBufFull
      modifies this`rxCount, this`rxActive, this`rxBad, this`rxBufLen, this`rxBufFull, this`rxBitCount, rxBuf
      ensures RxValid() && DecoderState() == AskCodec.ByteIn(old(DecoderState()), b)
    {
      ghost var before := rxBuf[..rxBufLen];
      if rxBufLen == 0 {
        rxCount := b;
        if rxCount < 7 || rxCount > MAX_PAYLOAD_LEN {
          rxActive, rxBad := false, rxBad + 1;
          return;
        }
      }
      rxBuf[rxBufLen] := b;
      rxBufLen := rxBufLen + 1;
      assert rxBuf[..rxBufLen] == before + [b];
      if rxBufLen >= rxCount {
        rxActive, rxBufFull := false, true;
      }
      rxBitCount := 0;
    }

    /** The six lower bits are the high nibble. */
    method DecodeBits() returns (b: byte)
      ensures b == Byte12(rxBits)
    {
      var high := Symbol6to4(rxBits % 64);
      var low := Symbol6to4(rxBits / 64);
      assert Byte12(rxBits) == 16 * high + low;
      b := 16 * high + low;
    }

    /** Twelve bits make a byte. */
    method CollectBit()
      requires RxValid() && rxActive && !rxBufFull
      modifies this`rxCount, this`rxActive, this`rxBad, this`rxBufLen, this`rxBufFull, this`rxBitCount, rxBuf
      ensures RxValid()
      ensures var d := old(DecoderState()); var e := d.(bitCount := d.bitCount + 1);
              DecoderState() == if e.bitCount >= 12 then AskCodec.ByteIn(e, Byte12(e.bits)) else e
    {
      rxBitCount := rxBitCount + 1;
      if rxBitCount >= 12 {
        var b := DecodeBits();
        ByteIn(b);
      }
    }

    method BitIn(b: bool)
      requires RxValid() && !rxBufFull
      modifies this`rxBits, this`rxCount, this`rxActive, this`rxBad, this`rxBufLen, this`rxBufFull, this`rxBitCount
      modifies rxBuf
      ensures RxValid() && DecoderState() == AskCodec.BitIn(old(DecoderState()), b)
    {
      rxBits := ShiftIn(rxBits, b);
      if rxActive {
        CollectBit();
      } else if rxBits == START_SYMBOL {
        rxActive, rxBitCount, rxBufLen := true, 0, 0;
        assert rxBuf[..rxBufLen] == [];
      }
    }

    /** A sample: the ramp of the PLL, and at its end the slicer. */
    method Slice(sample: bool) returns (bit: Option<bool>)
      modifies this`rxIntegrator, this`rxPllRamp, this`rxLastSample
      ensures (PllState(), bit) == Sample(old(PllState()), sample)
    {
      if sample {
        rxIntegrator := Wrap(rxIntegrator + 1);
      }
      if sample != rxLastSample {
        rxPllRamp := Wrap(rxPllRamp + if rxPllRamp < RAMP_TRANSITION then RAMP_INC_RETARD else RAMP_INC_ADVANCE);
        rxLastSample := sample;
      } else {
        rxPllRamp := Wrap(rxPllRamp + RAMP_INC);
      }
      bit := None;
      if rxPllRamp >= RAMP_LEN {
        bit := Some(rxIntegrator >= 5);
        rxPllRamp := rxPllRamp - RAMP_LEN;
        rxIntegrator := 0;
      }
    }

    method ReceiveTimer(sample: bool)
      requires RxValid() && !rxBufFull && mode == Rx
      modifies this`rxIntegrator, this`rxPllRamp, this`rxLastSample
      modifies this`rxBits, this`rxCount, this`rxActive, this`rxBad, this`rxBufLen, this`rxBufFull, this`rxBitCount
      modifies rxBuf, this`mode, this`txPin
      ensures RxValid() && ReceiverState() == Hear(old(ReceiverState()), sample)
      ensures mode == if rxBufFull then Idle else Rx
    {
      var bit := Slice(sample);
      Decide(bit);
    }

    method Decide(bit: Option<bool>)
      requires RxValid() && !rxBufFull && mode == Rx
      modifies this`rxBits, this`rxCount, this`rxActive, this`rxBad, this`rxBufLen, this`rxBufFull, this`rxBitCount
      modifies rxBuf, this`mode, this`txPin
      ensures RxValid() && mode == if rxBufFull then Idle else Rx
      ensures DecoderState() ==
              if bit.Some? then AskCodec.BitIn(old(DecoderState()), bit.value) else old(DecoderState())
    {
      if bit.Some? {
        BitIn(bit.value);
        if rxBufFull {
          SetModeIdle();
        }
      }
    }

    method SetModeIdle()
      modifies this`mode, this`txPin
      ensures mode == Idle && txPin == if old(mode) == Idle then old(txPin) else false
    {
      if mode != Idle {
        txPin, mode := false, Idle;
      }
    }

    // ----- Sending -----

    /** The first `p` symbols are the frame of `sent`. */
    ghost predicate Filled(p: nat, sent: seq<byte>)
      reads txBuf
    {
      txBuf.Length == 2 * MAX_PAYLOAD_LEN + PREAMBLE_LEN && p <= txBuf.Length && txBuf[..p] == FrameSymbols(sent)
    }

    /** The two symbols of a byte, high nibble first. */
    method Put(p: nat, b: byte, ghost sent: seq<byte>) returns (q: nat)
      requires Filled(p, sent) && p + 2 <= txBuf.Length
      modifies txBuf
      ensures q == p + 2 && Filled(q, sent + [b])
    {
      txBuf[p] := SYMBOLS[b / 16];
      txBuf[p + 1] := SYMBOLS[b % 16];
      q := p + 2;
      FrameNext(sent, b);
      assert txBuf[..q] == FrameSymbols(sent) + Coded(b);
    }

    /** A byte that the check sequence covers. */
    method Encode(p: nat, crc: bv16, b: byte, ghost sent: seq<byte>) returns (q: nat, sum: bv16)
      requires Filled(p, sent) && p + 2 <= txBuf.Length && crc == Sum(sent)
      modifies txBuf
      ensures q == p + 2 && Filled(q, sent + [b]) && sum == Sum(sent + [b])
    {
      SumNext(sent, b, sent + [b], crc);
      sum := Crc.CcittUpdate(crc, b as bv8);
      q := Put(p, b, sent);
    }

    /** The headers after the count. */
    method EncodeHeaders(p: nat, crc: bv16, ghost sent: seq<byte>) returns (q: nat, sum: bv16)
      requires Filled(p, sent) && p + 8 <= txBuf.Length && crc == Sum(sent)
      modifies txBuf
      ensures var more := [txHeaders.to, txHeaders.from, txHeaders.id, txHeaders.flags];
              q == p + 8 && Filled(q, sent + more) && sum == Sum(sent + more)
    {
      ghost var h := txHeaders;
      q, sum := Encode(p, crc, txHeaders.to, sent);
      q, sum := Encode(q, sum, txHeaders.from, sent + [h.to]);
      q, sum := Encode(q, sum, txHeaders.id, sent + [h.to] + [h.from]);
      q, sum := Encode(q, sum, txHeaders.flags, sent + [h.to] + [h.from] + [h.id]);
      assert sent + [h.to] + [h.from] + [h.id] + [h.flags] == sent + [h.to, h.from, h.id, h.flags];
    }

    method EncodeData(p: nat, crc: bv16, data: seq<byte>, ghost sent: seq<byte>) returns (q: nat, sum: bv16)
      requires Filled(p, sent) && p + 2 * |data| <= txBuf.Length && crc == Sum(sent)
      modifies txBuf
      ensures q == p + 2 * |data| && Filled(q, sent + data) && sum == Sum(sent + data)
    {
      q, sum := p, crc;
      var i := 0;
      assert sent + data[..0] == sent;
      while i < |data|
        invariant i <= |data| && q == p + 2 * i && Filled(q, sent + data[..i]) && sum == Sum(sent + data[..i])
      {
        q, sum := Encode(q, sum, data[i], sent + data[..i]);
        assert sent + data[..i] + [data[i]] == sent + data[..i + 1];
        i := i + 1;
      }
      assert data[..i] == data;
    }

    method EncodeFront(count: byte) returns (p: nat, crc: bv16)
      requires Filled(PREAMBLE_LEN, [])
      modifies txBuf
      ensures var front := [count, txHeaders.to, txHeaders.from, txHeaders.id, txHeaders.flags];
              p == PREAMBLE_LEN + 10 && Filled(p, front) && crc == Sum(front)
    {
      NothingSent();
      p, crc := Encode(PREAMBLE_LEN, 0xffff, count, []);
      assert [] + [count] == [count];
      p, crc := EncodeHeaders(p, crc, [count]);
      assert [count] + [txHeaders.to, txHeaders.from, txHeaders.id, txHeaders.flags] ==
             [count, txHeaders.to, txHeaders.from, txHeaders.id, txHeaders.flags];
    }

    method EncodeBody(data: seq<byte>) returns (p: nat, crc: bv16)
      requires Filled(PREAMBLE_LEN, []) && |data| <= MAX_MESSAGE_LEN
      modifies txBuf
      ensures p == PREAMBLE_LEN + 2 * (|data| + HEADER_LEN + 1)
      ensures Filled(p, Body(txHeaders, data)) && crc == Sum(Body(txHeaders, data))
    {
      var count := |data| + 3 + HEADER_LEN;
      p, crc := EncodeFront(count);
      p, crc := EncodeData(p, crc, data, [count, txHeaders.to, txHeaders.from, txHeaders.id, txHeaders.flags]);
    }

    /** The check sequence is sent low byte first, and is not covered by itself. */
    method EncodeCheck(p: nat, crc: bv16, ghost body: seq<byte>) returns (q: nat)
      requires Filled(p, body) && p + 4 <= txBuf.Length && crc == Sum(body)
      modifies txBuf
      ensures q == p + 4 && Filled(q, Checked(body))
    {
      var fcs := !crc;
      var low, high := LowByte(fcs), HighByte(fcs);
      CheckedByParts(body, low, high);
      q := Put(p, low, body);
      q := Put(q, high, body + [low]);
    }

    method Send(data: seq<byte>) returns (ok: bool)
      requires Valid() && mode != Tx
      modifies this`txBufLen, this`txIndex, this`txBit, this`txSample, this`mode, txBuf
      ensures Valid() && ok == (|data| <= MAX_MESSAGE_LEN)
      ensures !ok ==> mode == old(mode)
      ensures ok ==> mode == Tx && txIndex == txBit == txSample == 0
      ensures ok ==> txBuf[..txBufLen] == FrameSymbols(Message(txHeaders, data))
    {
      if |data| > MAX_MESSAGE_LEN {
        return false;
      }
      NothingSent();
      var p, crc := EncodeBody(data);
      p := EncodeCheck(p, crc, Body(txHeaders, data));
      assert txBuf[..PREAMBLE_LEN] == txBuf[..p][..PREAMBLE_LEN];
      txBufLen := p;
      SetModeTx();
      return true;
    }

    method SetModeTx()
      requires mode != Tx
      modifies this`txIndex, this`txBit, this`txSample, this`mode
      ensures mode == Tx && txIndex == txBit == txSample == 0
    {
      txIndex, txBit, txSample, mode := 0, 0, 0, Tx;
    }

    /** How many bits have been put on the line. */
    function Position(): nat
      reads this`txIndex, this`txBit
    {
      6 * txIndex + txBit
    }

    /** The bits of the frame in the buffer. */
    function LineBits(): seq<bool>
      requires txBufLen <= txBuf.Length
      reads this`txBufLen, txBuf
    {
      SymbolBits(txBuf[..txBufLen])
    }

    /** What a tick has done that found the transmitter `before` bits into the frame. */
    ghost predicate Sent(before: nat, sample: nat, pin: bool)
      requires txBufLen <= txBuf.Length
      reads this`txSample, this`mode, this`txPin, this`txBit, this`txIndex, this`txBufLen, txBuf
    {
      Puts(LineBits(), before, sample, pin, mode, Position(), txSample, txPin)
    }

    method TransmitTimer()
      requires Valid() && mode == Tx
      modifies this`txSample, this`mode, this`txPin, this`txGood, this`txBit, this`txIndex
      ensures Valid() && Sent(old(Position()), old(txSample), old(txPin))
    {
      if txSample == 0 {
        NextBit();
      }
      txSample := txSample + 1;
      if txSample > 7 {
        txSample := 0;
      }
    }

    /** The next bit, or the end one bit period after the last one. */
    method NextBit()
      requires TxValid() && mode == Tx
      modifies this`mode, this`txPin, this`txGood, this`txBit, this`txIndex
      ensures TxValid()
      ensures if old(Position()) < |LineBits()|
              then mode == Tx && Position() == old(Position()) + 1 && txPin == LineBits()[old(Position())]
              else mode == Idle && !txPin
    {
      SymbolBitsLength(txBuf[..txBufLen]);
      if txIndex >= txBufLen {
        SetModeIdle();
        txGood := txGood + 1;
      } else {
        SendBit();
      }
    }

    /** The lowest bit of a symbol goes first. */
    method SendBit()
      requires TxValid() && txIndex < txBufLen
      modifies this`txPin, this`txBit, this`txIndex
      ensures TxValid() && Position() == old(Position()) + 1
      ensures old(Position()) < |LineBits()| && txPin == LineBits()[old(Position())]
    {
      SymbolBitsAt(txBuf[..txBufLen], txIndex, txBit);
      txPin := BitOf(txBuf[txIndex], txBit);
      txBit := txBit + 1;
      if txBit >= 6 {
        txBit := 0;
        txIndex := txIndex + 1;
      }
    }

    method HandleTimerInterrupt(sample: bool)
      requires Valid()
      modifies this`rxIntegrator, this`rxPllRamp, this`rxLastSample
      modifies this`rxBits, this`rxCount, this`rxActive, this`rxBad, this`rxBufLen, this`rxBufFull, this`rxBitCount
      modifies rxBuf, this`mode, this`txPin, this`txSample, this`txGood, this`txBit, this`txIndex
      ensures Valid()
      ensures old(mode) == Rx ==> ReceiverState() == Hear(old(ReceiverState()), sample)
      ensures old(mode) == Rx ==> mode == if rxBufFull then Idle else Rx
      ensures old(mode) != Rx ==> ReceiverState() == old(ReceiverState())
      ensures old(mode) == Idle ==> mode == Idle
      ensures old(mode) != Tx ==> Position() == old(Position()) && txSample == old(txSample)
      ensures old(mode) == Tx ==> Sent(old(Position()), old(txSample), old(txPin))
    {
      if mode == Rx {
        ReceiveTimer(sample);
      } else if mode == Tx {
        TransmitTimer();
      }
    }

    // ----- Collecting a message -----

    method SumOfBuffer() returns (crc: bv16)
      requires RxValid()
      ensures crc == Sum(rxBuf[..rxBufLen])
    {
      crc := 0xffff;
      var i := 0;
      ghost var s := rxBuf[..rxBufLen];
      NothingSent();
      while i < rxBufLen
        invariant i <= rxBufLen && crc == Sum(s[..i])
      {
        var b := rxBuf[i];
        assert s[..i + 1] == s[..i] + [b];
        SumNext(s[..i], b, s[..i + 1], crc);
        crc := Crc.CcittUpdate(crc, b as bv8);
        i := i + 1;
      }
      assert s[..i] == s;
    }

    /** A damaged message is dropped; one for somebody else leaves its headers only. */
    method ValidateRxBuf()
      requires RxValid() && rxBufFull
      modifies this`rxBad, this`rxBufValid, this`rxHeaders, this`rxGood
      ensures var s := rxBuf[..rxBufLen];
              var wanted := promiscuous || s[1] == thisAddress || s[1] == BROADCAST_ADDRESS;
              && rxHeaders == (if Good(s) then Headers(s[1], s[2], s[3], s[4]) else old(rxHeaders))
              && rxBufValid == (Good(s) && (wanted || old(rxBufValid)))
              && rxGood == (if Good(s) && wanted then old(rxGood) + 1 else old(rxGood))
              && rxBad == (if Good(s) then old(rxBad) else old(rxBad) + 1)
    {
      var crc := SumOfBuffer();
      if crc != Crc.GOOD_FCS {
        rxBad, rxBufValid := rxBad + 1, false;
        return;
      }
      rxHeaders := Headers(rxBuf[1], rxBuf[2], rxBuf[3], rxBuf[4]);
      if promiscuous || rxHeaders.to == thisAddress || rxHeaders.to == BROADCAST_ADDRESS {
        rxGood, rxBufValid := rxGood + 1, true;
      }
    }

    method SetModeRx()
      modifies this`mode, this`txPin
      ensures mode == Rx
    {
      if mode != Rx {
        txPin, mode := false, Rx;
      }
    }

    /** `available` and `recv` in one step. */
    method Recv(len: byte) returns (ok: bool, data: seq<byte>)
      requires Valid()
      modifies this`mode, this`txPin, this`rxBufFull, this`rxBad, this`rxBufValid, this`rxHeaders, this`rxGood
      ensures Valid() && mode == if old(mode) == Tx then Tx else Rx
      ensures ok <==> && old(mode) != Tx && old(rxBufFull) && Good(rxBuf[..rxBufLen])
                      && (promiscuous || rxBuf[1] == thisAddress || rxBuf[1] == BROADCAST_ADDRESS)
      ensures ok ==> rxHeaders == Headers(rxBuf[1], rxBuf[2], rxBuf[3], rxBuf[4])
      ensures ok ==> data == rxBuf[5..5 + if len > rxBufLen - 7 then rxBufLen - 7 else len]
    {
      data := [];
      if mode == Tx {
        return false, data;
      }
      SetModeRx();
      if rxBufFull {
        ValidateRxBuf();
        rxBufFull := false;
      }
      ok := rxBufValid;
      if ok {
        var messageLen := rxBufLen - HEADER_LEN - 3;
        var n := if len > messageLen then messageLen else len;
        data := rxBuf[HEADER_LEN + 1..HEADER_LEN + 1 + n];
        rxBufValid := false;
      }
    }
  }

  lemma CheckedByParts(body: seq<byte>, low: byte, high: byte)
    requires low == LowByte(!Sum(body)) && high == HighByte(!Sum(body))
    ensures body + [low] + [high] == Checked(body)
  {
  }

  lemma NothingSent()
    ensures FrameSymbols([]) == PREAMBLE && Sum([]) == 0xffff
  {
  }

  lemma {:induction false} SymbolBitsLength(s: seq<byte>)
    ensures |SymbolBits(s)| == 6 * |s|
  {
    if s == [] {
    } else {
      SymbolBitsLength(s[..|s| - 1]);
      WordBitsLength(s[|s| - 1], 6);
    }
  }

  lemma {:induction false} SymbolBitsAt(s: seq<byte>, i: nat, k: nat)
    requires i < |s| && k < 6
    ensures 6 * i + k < |SymbolBits(s)| && SymbolBits(s)[6 * i + k] == BitOf(s[i], k)
  {
    SymbolBitsLength(s);
    SymbolBitsLength(s[..|s| - 1]);
    if i == |s| - 1 {
      WordBitsAt(s[i], 6, k);
    } else {
      SymbolBitsAt(s[..|s| - 1], i, k);
    }
  }

  lemma FrameNext(sent: seq<byte>, b: byte)
    ensures FrameSymbols(sent + [b]) == FrameSymbols(sent) + Coded(b)
  {
  }

  // ----- Two drivers on one line -----

  /** The line so far: whole bits, and `sample` samples of the last one. */
  ghost predicate OnLine(heard: seq<bool>, bits: seq<bool>, position: nat, sample: nat, pin: bool) {
    && position <= |bits| && (sample != 0 ==> position > 0 && pin == bits[position - 1])
    && heard <= Line(bits) && |heard| + (if sample == 0 then 0 else 8 - sample) == 8 * position
  }

  /** Eight samples for a bit. */
  lemma {:induction false} LineAt(bits: seq<bool>, i: nat)
    requires i < 8 * |bits|
    ensures |Line(bits)| == 8 * |bits| && Line(bits)[i] == bits[i / 8]
  {
    LineLength(bits[..|bits| - 1]);
    if i / 8 == |bits| - 1 {
    } else {
      LineAt(bits[..|bits| - 1], i);
    }
  }

  lemma {:induction false} LineLength(bits: seq<bool>)
    ensures |Line(bits)| == 8 * |bits|
  {
    if bits == [] {
    } else {
      LineLength(bits[..|bits| - 1]);
    }
  }

  lemma PrefixGrows<T>(s: seq<T>, t: seq<T>)
    requires s <= t && |s| < |t|
    ensures s + [t[|s|]] <= t
  {
  }

  lemma NextSample(heard: seq<bool>, bits: seq<bool>)
    requires heard <= Line(bits) && |heard| < 8 * |bits|
    ensures heard + [bits[|heard| / 8]] <= Line(bits)
  {
    LineAt(bits, |heard|);
    PrefixGrows(heard, Line(bits));
  }

  predicate Apart(a: Driver, b: Driver) {
    a != b && a.rxBuf != b.rxBuf && a.txBuf != b.rxBuf && a.rxBuf != b.txBuf && a.txBuf != b.txBuf
  }

  /** The transmitter has put `heard` on the line. */
  ghost predicate Sending(a: Driver, heard: seq<bool>, bits: seq<bool>)
    reads a, a.txBuf
  {
    && a.Valid() && a.LineBits() == bits
    && if a.mode == Tx then OnLine(heard, bits, a.Position(), a.txSample, a.txPin)
       else a.mode == Idle && heard == Line(bits) + [false]
  }

  /** The receiver, once in the state `r`, has heard the line since. */
  ghost predicate Listening(b: Driver, r: Receiver, heard: seq<bool>)
    reads b, b.rxBuf, b.txBuf
  {
    b.Valid() && b.ReceiverState() == HearAll(r, heard) && b.mode == (if b.rxBufFull then Idle else Rx)
  }

  ghost function TicksLeft(a: Driver, bits: seq<bool>): int
    reads a
  {
    if a.mode == Tx then 1 + 8 * (|bits| - a.Position()) + (8 - a.txSample) % 8 else 0
  }

  lemma HeardOnce(r: Receiver, heard: seq<bool>, pin: bool)
    ensures HearAll(r, heard + [pin]) == Hear(HearAll(r, heard), pin)
  {
  }

  /** What a tick has put on the line. */
  lemma LineGoesOn(heard: seq<bool>, bits: seq<bool>, before: nat, sample: nat, pin: bool,
                   mode: Mode, position: nat, next: nat, put: bool)
    requires OnLine(heard, bits, before, sample, pin) && sample < 8
    requires Puts(bits, before, sample, pin, mode, position, next, put)
    ensures if mode == Tx then OnLine(heard + [put], bits, position, next, put)
            else mode == Idle && heard + [put] == Line(bits) + [false]
  {
    LineLength(bits);
    if sample != 0 || before < |bits| {
      NextSample(heard, bits);
    }
  }

  lemma TicksFall(a: Driver, bits: seq<bool>, before: nat, sample: nat, pin: bool)
    requires before <= |bits| && sample < 8
    requires a.txBufLen <= a.txBuf.Length && a.LineBits() == bits && a.Sent(before, sample, pin)
    ensures TicksLeft(a, bits) < 1 + 8 * (|bits| - before) + (8 - sample) % 8
  {
  }

  method TickSender(a: Driver, ghost heard: seq<bool>, ghost bits: seq<bool>)
    requires Sending(a, heard, bits) && a.mode == Tx
    modifies a`rxIntegrator, a`rxPllRamp, a`rxLastSample
    modifies a`rxBits, a`rxCount, a`rxActive, a`rxBad, a`rxBufLen, a`rxBufFull, a`rxBitCount
    modifies a.rxBuf, a`mode, a`txPin, a`txSample, a`txGood, a`txBit, a`txIndex
    ensures Sending(a, heard + [a.txPin], bits)
    ensures 0 <= TicksLeft(a, bits) < old(TicksLeft(a, bits))
  {
    ghost var before, sample, pin := a.Position(), a.txSample, a.txPin;
    a.HandleTimerInterrupt(false);
    LineGoesOn(heard, bits, before, sample, pin, a.mode, a.Position(), a.txSample, a.txPin);
    TicksFall(a, bits, before, sample, pin);
  }

  method TickReceiver(b: Driver, pin: bool, ghost r: Receiver, ghost heard: seq<bool>)
    requires Listening(b, r, heard)
    modifies b`rxIntegrator, b`rxPllRamp, b`rxLastSample
    modifies b`rxBits, b`rxCount, b`rxActive, b`rxBad, b`rxBufLen, b`rxBufFull, b`rxBitCount
    modifies b.rxBuf, b`mode, b`txPin, b`txSample, b`txGood, b`txBit, b`txIndex
    ensures Listening(b, r, heard + [pin])
  {
    HeardOnce(r, heard, pin);
    b.HandleTimerInterrupt(pin);
  }

  /** Timer interrupts on both sides until the frame has been sent. */
  method Carry(a: Driver, b: Driver, ghost r: Receiver, ghost bits: seq<bool>)
    requires Apart(a, b) && Sending(a, [], bits) && Listening(b, r, []) && a.mode == Tx
    modifies a`rxIntegrator, a`rxPllRamp, a`rxLastSample
    modifies a`rxBits, a`rxCount, a`rxActive, a`rxBad, a`rxBufLen, a`rxBufFull, a`rxBitCount
    modifies a.rxBuf, a`mode, a`txPin, a`txSample, a`txGood, a`txBit, a`txIndex
    modifies b`rxIntegrator, b`rxPllRamp, b`rxLastSample
    modifies b`rxBits, b`rxCount, b`rxActive, b`rxBad, b`rxBufLen, b`rxBufFull, b`rxBitCount
    modifies b.rxBuf, b`mode, b`txPin, b`txSample, b`txGood, b`txBit, b`txIndex
    ensures a.Valid() && a.mode == Idle && Listening(b, r, Line(bits) + [false])
  {
    ghost var heard := [];
    while a.mode == Tx
      invariant Sending(a, heard, bits) && Listening(b, r, heard)
      decreases TicksLeft(a, bits)
    {
      TickSender(a, heard, bits);
      TickReceiver(b, a.txPin, r, heard);
      heard := heard + [a.txPin];
    }
  }

  lemma DataInside(buf: seq<byte>, len: nat, h: Headers, data: seq<byte>, n: nat)
    requires len <= |buf| && |data| <= MAX_MESSAGE_LEN && buf[..len] == Message(h, data) && n <= |data|
    ensures len == |data| + 7 && buf[5..5 + n] == data[..n] && Headers(buf[1], buf[2], buf[3], buf[4]) == h
  {
    MessageLayout(h, data);
    var front := [|data| + 7, h.to, h.from, h.id, h.flags] + data;
    assert buf[..len][..|front|] == buf[..|front|] == front;
    assert buf[5..5 + n] == front[5..5 + n] == data[..n];
    assert forall k :: 0 <= k < 5 ==> buf[k] == front[k];
  }

  /** A message that is complete is returned if it is for this driver. */
  method Collect(b: Driver, len: byte, ghost h: Headers, ghost data: seq<byte>) returns (ok: bool, got: seq<byte>)
    requires b.Valid() && b.mode != Tx && b.rxBufFull && |data| <= MAX_MESSAGE_LEN
    requires b.rxBuf[..b.rxBufLen] == Message(h, data)
    modifies b`mode, b`txPin, b`rxBufFull, b`rxBad, b`rxBufValid, b`rxHeaders, b`rxGood
    ensures b.Valid() && (ok <==> b.promiscuous || h.to == b.thisAddress || h.to == BROADCAST_ADDRESS)
    ensures ok ==> b.rxHeaders == h && got == data[..if len > |data| then |data| else len]
  {
    MessageIsCounted(h, data);
    DataInside(b.rxBuf[..], b.rxBufLen, h, data, if len > |data| then |data| else len);
    ok, got := b.Recv(len);
  }

  /** A message sent by one driver and collected from another one that is locked and idle. */
  method Exchange(a: Driver, b: Driver, data: seq<byte>, len: byte) returns (ok: bool, got: seq<byte>)
    requires Apart(a, b) && a.Valid() && b.Valid() && a.mode != Tx && b.mode == Rx
    requires Locked(b.PllState()) && Idling(b.DecoderState()) && |data| <= MAX_MESSAGE_LEN
    modifies a, a.txBuf, a.rxBuf, b, b.rxBuf
    ensures var to := old(a.txHeaders.to);
            && a.Valid() && b.Valid()
            && (ok <==> b.promiscuous || to == b.thisAddress || to == BROADCAST_ADDRESS)
    ensures ok ==> b.rxHeaders == old(a.txHeaders) && got == data[..if len > |data| then |data| else len]
  {
    ghost var message := Message(a.txHeaders, data);
    ghost var r := b.ReceiverState();
    var sent := a.Send(data);
    MessageIsCounted(a.txHeaders, data);
    RoundTrip(r, message, false);
    Carry(a, b, r, SymbolBits(FrameSymbols(message)));
    ok, got := Collect(b, len, old(a.txHeaders), data);
  }

  // ----- Three drivers on one line -----

  method TickBoth(b: Driver, c: Driver, pin: bool, ghost r: Receiver, ghost q: Receiver, ghost heard: seq<bool>)
    requires Apart(b, c) && Listening(b, r, heard) && Listening(c, q, heard)
    modifies b`rxIntegrator, b`rxPllRamp, b`rxLastSample
    modifies b`rxBits, b`rxCount, b`rxActive, b`rxBad, b`rxBufLen, b`rxBufFull, b`rxBitCount
    modifies b.rxBuf, b`mode, b`txPin, b`txSample, b`txGood, b`txBit, b`txIndex
    modifies c`rxIntegrator, c`rxPllRamp, c`rxLastSample
    modifies c`rxBits, c`rxCount, c`rxActive, c`rxBad, c`rxBufLen, c`rxBufFull, c`rxBitCount
    modifies c.rxBuf, c`mode, c`txPin, c`txSample, c`txGood, c`txBit, c`txIndex
    ensures Listening(b, r, heard + [pin]) && Listening(c, q, heard + [pin])
  {
    TickReceiver(b, pin, r, heard);
    TickReceiver(c, pin, q, heard);
  }

  method TickAll(a: Driver, b: Driver, c: Driver, ghost r: Receiver, ghost q: Receiver,
                 ghost heard: seq<bool>, ghost bits: seq<bool>)
    requires Apart(a, b) && Apart(a, c) && Apart(b, c)
    requires Sending(a, heard, bits) && Listening(b, r, heard) && Listening(c, q, heard) && a.mode == Tx
    modifies a`rxIntegrator, a`rxPllRamp, a`rxLastSample
    modifies a`rxBits, a`rxCount, a`rxActive, a`rxBad, a`rxBufLen, a`rxBufFull, a`rxBitCount
    modifies a.rxBuf, a`mode, a`txPin, a`txSample, a`txGood, a`txBit, a`txIndex
    modifies b`rxIntegrator, b`rxPllRamp, b`rxLastSample
    modifies b`rxBits, b`rxCount, b`rxActive, b`rxBad, b`rxBufLen, b`rxBufFull, b`rxBitCount
    modifies b.rxBuf, b`mode, b`txPin, b`txSample, b`txGood, b`txBit, b`txIndex
    modifies c`rxIntegrator, c`rxPllRamp, c`rxLastSample
    modifies c`rxBits, c`rxCount, c`rxActive, c`rxBad, c`rxBufLen, c`rxBufFull, c`rxBitCount
    modifies c.rxBuf, c`mode, c`txPin, c`txSample, c`txGood, c`txBit, c`txIndex
    ensures Sending(a, heard + [a.txPin], bits)
    ensures Listening(b, r, heard + [a.txPin]) && Listening(c, q, heard + [a.txPin])
    ensures 0 <= TicksLeft(a, bits) < old(TicksLeft(a, bits))
  {
    TickSender(a, heard, bits);
    TickBoth(b, c, a.txPin, r, q, heard);
  }

  method CarryToBoth(a: Driver, b: Driver, c: Driver, ghost r: Receiver, ghost q: Receiver, ghost bits: seq<bool>)
    requires Apart(a, b) && Apart(a, c) && Apart(b, c)
    requires Sending(a, [], bits) && Listening(b, r, []) && Listening(c, q, []) && a.mode == Tx
    modifies a`rxIntegrator, a`rxPllRamp, a`rxLastSample
    modifies a`rxBits, a`rxCount, a`rxActive, a`rxBad, a`rxBufLen, a`rxBufFull, a`rxBitCount
    modifies a.rxBuf, a`mode, a`txPin, a`txSample, a`txGood, a`txBit, a`txIndex
    modifies b`rxIntegrator, b`rxPllRamp, b`rxLastSample
    modifies b`rxBits, b`rxCount, b`rxActive, b`rxBad, b`rxBufLen, b`rxBufFull, b`rxBitCount
    modifies b.rxBuf, b`mode, b`txPin, b`txSample, b`txGood, b`txBit, b`txIndex
    modifies c`rxIntegrator, c`rxPllRamp, c`rxLastSample
    modifies c`rxBits, c`rxCount, c`rxActive, c`rxBad, c`rxBufLen, c`rxBufFull, c`rxBitCount
    modifies c.rxBuf, c`mode, c`txPin, c`txSample, c`txGood, c`txBit, c`txIndex
    ensures a.Valid() && a.mode == Idle
    ensures Listening(b, r, Line(bits) + [false]) && Listening(c, q, Line(bits) + [false])
  {
    ghost var heard := [];
    while a.mode == Tx
      invariant Sending(a, heard, bits) && Listening(b, r, heard) && Listening(c, q, heard)
      decreases TicksLeft(a, bits)
    {
      TickAll(a, b, c, r, q, heard, bits);
      heard := heard + [a.txPin];
    }
  }

  predicate ReadyToHear(b: Driver)
    reads b, b.rxBuf, b.txBuf
  {
    b.Valid() && b.mode == Rx && Locked(b.PllState()) && Idling(b.DecoderState())
  }

  /** The message `message` is complete and has not been collected. */
  ghost predicate Holds(b: Driver, message: seq<byte>)
    reads b, b.rxBuf, b.txBuf
  {
    b.Valid() && b.mode == Idle && b.rxBufFull && b.rxBuf[..b.rxBufLen] == message
  }

  lemma HeardIsHeld(b: Driver, r: Receiver, message: seq<byte>)
    requires Locked(r.pll) && Idling(r.decoder) && Counted(message)
    requires Listening(b, r, Line(SymbolBits(FrameSymbols(message))) + [false])
    ensures Holds(b, message)
  {
    RoundTrip(r, message, false);
  }

  method SendToBoth(a: Driver, b: Driver, c: Driver, data: seq<byte>)
    requires Apart(a, b) && Apart(a, c) && Apart(b, c) && a.Valid() && a.mode != Tx
    requires ReadyToHear(b) && ReadyToHear(c) && |data| <= MAX_MESSAGE_LEN
    modifies a, a.txBuf, a.rxBuf, b, b.rxBuf, c, c.rxBuf
    ensures var message := Message(old(a.txHeaders), data); Holds(b, message) && Holds(c, message)
  {
    ghost var message := Message(a.txHeaders, data);
    ghost var r, q := b.ReceiverState(), c.ReceiverState();
    MessageIsCounted(a.txHeaders, data);
    var sent := a.Send(data);
    CarryToBoth(a, b, c, r, q, SymbolBits(FrameSymbols(message)));
    HeardIsHeld(b, r, message);
    HeardIsHeld(c, q, message);
  }

  /** Of two drivers with different addresses that hear one frame only the addressed one returns it; a broadcast
      is returned by both.
    */
  method Overhear(a: Driver, b: Driver, c: Driver, data: seq<byte>, len: byte)
    returns (ok: bool, got: seq<byte>, alsoOk: bool, alsoGot: seq<byte>)
    requires Apart(a, b) && Apart(a, c) && Apart(b, c) && a.Valid() && a.mode != Tx
    requires ReadyToHear(b) && ReadyToHear(c) && |data| <= MAX_MESSAGE_LEN
    requires b.thisAddress != c.thisAddress && !b.promiscuous && !c.promiscuous
    modifies a, a.txBuf, a.rxBuf, b, b.rxBuf, c, c.rxBuf
    ensures var to := old(a.txHeaders.to);
            if to == BROADCAST_ADDRESS then ok && alsoOk
            else (ok <==> to == b.thisAddress) && (alsoOk <==> to == c.thisAddress) && !(ok && alsoOk)
    ensures ok ==> b.rxHeaders == old(a.txHeaders) && got == data[..if len > |data| then |data| else len]
    ensures alsoOk ==> c.rxHeaders == old(a.txHeaders) && alsoGot == data[..if len > |data| then |data| else len]
  {
    ghost var h := a.txHeaders;
    SendToBoth(a, b, c, data);
    ok, got := Collect(b, len, h, data);
    alsoOk, alsoGot := Collect(c, len, h, data);
  }
}

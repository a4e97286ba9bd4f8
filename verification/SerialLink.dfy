/** Framing on a serial line: DLE stuffing, the frame check and the receive state machine. */
module SerialLink {
  import opened Crc

  const STX: bv8 := 0x02
  const ETX: bv8 := 0x03
  const DLE: bv8 := 0x10
  const MAX_PAYLOAD_LEN := 64
  const HEADER_LEN := 4
  const MAX_MESSAGE_LEN := 60
  const BROADCAST_ADDRESS: bv8 := 0xff

  datatype Headers = Headers(to: bv8, from: bv8, id: bv8, flags: bv8)

  datatype Packet = Packet(headers: Headers, data: seq<bv8>)

  datatype RxState = RxIdle | RxDLE | RxData | RxEscape | RxWaitFCS1 | RxWaitFCS2

  type Store = s: seq<bv8> | |s| == 64 witness seq(64, _ => 0)

  /** The receiver; the first `len` octets of the buffer are filled. */
  datatype Receiver = Receiver(state: RxState, fcs: bv16, recdFcs: bv16, buf: Store, len: nat, valid: bool,
                               headers: Headers, good: nat, bad: nat)
  {
    predicate Sound() {
      len <= MAX_PAYLOAD_LEN
    }
  }

  /** Whose messages are taken. */
  datatype Filter = Filter(address: bv8, promiscuous: bool) {
    predicate Accepts(to: bv8) {
      promiscuous || to == address || to == BROADCAST_ADDRESS
    }
  }

  // ----- The receive state machine -----

  function Clear(r: Receiver): Receiver {
    r.(valid := false, fcs := 0xffff, len := 0)
  }

  /** What does not fit is not recorded, and the check will fail. */
  function Append(r: Receiver, ch: bv8): Receiver {
    if r.len < MAX_PAYLOAD_LEN then r.(buf := r.buf[r.len := ch], len := r.len + 1, fcs := CcittUpdate(r.fcs, ch))
    else r
  }

  /** Of a frame that is shorter than its headers the rest is what was in the buffer before. */
  function HeadersOf(buf: Store): Headers {
    Headers(buf[0], buf[1], buf[2], buf[3])
  }

  function Validate(f: Filter, r: Receiver): Receiver {
    if r.recdFcs != r.fcs then r.(bad := r.bad + 1)
    else
      var headers := HeadersOf(r.buf);
      if f.Accepts(headers.to) then r.(headers := headers, good := r.good + 1, valid := true)
      else r.(headers := headers)
  }

  function Upper(high: bv8): bv16 {
    high as bv16 << 8
  }

  function WithLower(x: bv16, low: bv8): bv16 {
    x | low as bv16
  }

  function HandleRx(f: Filter, r: Receiver, ch: bv8): Receiver {
    match r.state
    case RxIdle => if ch == DLE then r.(state := RxDLE) else r
    case RxDLE => if ch == STX then Clear(r).(state := RxData) else r.(state := RxIdle)
    case RxData => if ch == DLE then r.(state := RxEscape) else Append(r, ch)
    case RxEscape =>
      if ch == ETX then r.(fcs := CcittUpdate(CcittUpdate(r.fcs, DLE), ETX), state := RxWaitFCS1)
      else if ch == DLE then Append(r, ch).(state := RxData)
      else r.(state := RxIdle)
    case RxWaitFCS1 => r.(recdFcs := Upper(ch), state := RxWaitFCS2)
    case RxWaitFCS2 => Validate(f, r.(recdFcs := WithLower(r.recdFcs, ch), state := RxIdle))
  }

  function HandleAll(f: Filter, r: Receiver, s: seq<bv8>): Receiver {
    if s == [] then r else HandleRx(f, HandleAll(f, r, s[..|s| - 1]), s[|s| - 1])
  }

  lemma {:induction false} HandleConcat(f: Filter, r: Receiver, s: seq<bv8>, t: seq<bv8>)
    ensures HandleAll(f, r, s + t) == HandleAll(f, HandleAll(f, r, s), t)
  {
    if t == [] {
      assert s + t == s;
    } else {
      assert (s + t)[..|s + t| - 1] == s + t[..|t| - 1];
      HandleConcat(f, r, s, t[..|t| - 1]);
    }
  }

  lemma HandleOne(f: Filter, r: Receiver, ch: bv8)
    ensures HandleAll(f, r, [ch]) == HandleRx(f, r, ch)
  {
  }

  /** Only the last byte of a frame makes a message available. */
  lemma OnlyCheckMakesValid(f: Filter, r: Receiver, ch: bv8)
    requires !r.valid && HandleRx(f, r, ch).valid
    ensures r.state == RxWaitFCS2 && HandleRx(f, r, ch).state == RxIdle
  {
  }

  // ----- Frames -----

  /** A DLE in the data is sent twice. */
  function Stuffed(s: seq<bv8>): seq<bv8> {
    if s == [] then []
    else
      var b := s[|s| - 1];
      Stuffed(s[..|s| - 1]) + if b == DLE then [DLE, b] else [b]
  }

  function Octets(p: Packet): seq<bv8> {
    [p.headers.to, p.headers.from, p.headers.id, p.headers.flags] + p.data
  }

  /** The check covers the data without the stuffing, and the end of the frame. */
  function FrameSum(s: seq<bv8>): bv16 {
    CcittUpdate(CcittUpdate(Ccitt(s, 0xffff), DLE), ETX)
  }

  function FrameWith(s: seq<bv8>, fcs: bv16): seq<bv8> {
    [DLE, STX] + Stuffed(s) + [DLE, ETX, High(fcs), Low(fcs)]
  }

  function Frame(p: Packet): seq<bv8> {
    FrameWith(Octets(p), FrameSum(Octets(p)))
  }

  lemma FrameWithLayout(s: seq<bv8>, fcs: bv16)
    ensures FrameWith(s, fcs) == [0x10, 0x02] + Stuffed(s) + [0x10, 0x03, (fcs >> 8) as bv8, (fcs & 0xff) as bv8]
  {
  }

  /** The octets of a frame: headers and data with every DLE twice, between marks, and the sum, high byte first. */
  lemma FrameLayout(h: Headers, data: seq<bv8>, s: seq<bv8>, fcs: bv16)
    requires s == [h.to, h.from, h.id, h.flags] + data
    requires fcs == CcittUpdate(CcittUpdate(Ccitt(s, 0xffff), 0x10), 0x03)
    ensures Frame(Packet(h, data)) ==
            [0x10, 0x02] + Stuffed(s) + [0x10, 0x03, (fcs >> 8) as bv8, (fcs & 0xff) as bv8]
  {
    assert Octets(Packet(h, data)) == s;
    FrameWithLayout(s, fcs);
  }

  lemma {:induction false} StuffedConcat(s: seq<bv8>, t: seq<bv8>)
    ensures Stuffed(s + t) == Stuffed(s) + Stuffed(t)
  {
    if t == [] {
      assert s + t == s;
    } else {
      assert (s + t)[..|s + t| - 1] == s + t[..|t| - 1];
      StuffedConcat(s, t[..|t| - 1]);
    }
  }

  lemma StuffedOne(b: bv8)
    ensures Stuffed([b]) == if b == 0x10 then [0x10, 0x10] else [b]
  {
    assert [b][..0] == [];
  }

  lemma StuffedByte(f: Filter, r: Receiver, b: bv8)
    requires r.state == RxData && r.len < MAX_PAYLOAD_LEN
    ensures HandleAll(f, r, if b == DLE then [DLE, b] else [b]) ==
            r.(buf := r.buf[r.len := b], len := r.len + 1, fcs := CcittUpdate(r.fcs, b))
  {
    if b == DLE {
      assert [DLE, b] == [DLE] + [b];
      HandleConcat(f, r, [DLE], [b]);
      HandleOne(f, r, DLE);
      HandleOne(f, r.(state := RxEscape), b);
    } else {
      HandleOne(f, r, b);
    }
  }

  lemma CcittNext(s: seq<bv8>, b: bv8, t: seq<bv8>, start: bv16, sum: bv16)
    requires t == s + [b] && sum == Ccitt(s, start)
    ensures Ccitt(t, start) == CcittUpdate(sum, b)
  {
  }

  /** `r` has recorded `s`, and is `before` otherwise. */
  predicate Recorded(r: Receiver, before: Receiver, s: seq<bv8>) {
    && r.len == |s| <= MAX_PAYLOAD_LEN && r.buf[..|s|] == s
    && r == before.(buf := r.buf, len := |s|, fcs := Ccitt(s, 0xffff))
  }

  /** Stuffed data is recorded as it was before the stuffing. */
  lemma {:induction false} StuffedIn(f: Filter, r: Receiver, s: seq<bv8>)
    requires r.state == RxData && r.len == 0 && r.fcs == 0xffff && |s| <= MAX_PAYLOAD_LEN
    ensures Recorded(HandleAll(f, r, Stuffed(s)), r, s)
  {
    if s == [] {
    } else {
      var front, b := s[..|s| - 1], s[|s| - 1];
      StuffedIn(f, r, front);
      var q := HandleAll(f, r, Stuffed(front));
      HandleConcat(f, r, Stuffed(front), if b == DLE then [DLE, b] else [b]);
      StuffedByte(f, q, b);
      RecordedNext(q, r, front, b, s);
    }
  }

  lemma RecordedNext(q: Receiver, r: Receiver, front: seq<bv8>, b: bv8, s: seq<bv8>)
    requires Recorded(q, r, front) && s == front + [b] && |s| <= MAX_PAYLOAD_LEN
    ensures Recorded(q.(buf := q.buf[q.len := b], len := q.len + 1, fcs := CcittUpdate(q.fcs, b)), r, s)
  {
  }

  lemma JoinBack(x: bv16)
    ensures WithLower(Upper(High(x)), Low(x)) == x
  {
  }

  lemma StartIn(f: Filter, r: Receiver)
    requires r.state == RxIdle
    ensures HandleAll(f, r, [DLE, STX]) == Clear(r).(state := RxData)
  {
    assert [DLE, STX] == [DLE] + [STX];
    HandleConcat(f, r, [DLE], [STX]);
    HandleOne(f, r, DLE);
    HandleOne(f, r.(state := RxDLE), STX);
  }

  lemma EndIn(f: Filter, r: Receiver, sum: bv16)
    requires r.state == RxData && sum == CcittUpdate(CcittUpdate(r.fcs, DLE), ETX)
    ensures HandleAll(f, r, [DLE, ETX]) == r.(state := RxWaitFCS1, fcs := sum)
  {
    assert [DLE, ETX] == [DLE] + [ETX];
    HandleConcat(f, r, [DLE], [ETX]);
    HandleOne(f, r, DLE);
    HandleOne(f, r.(state := RxEscape), ETX);
  }

  lemma HighIn(f: Filter, r: Receiver, high: bv8)
    requires r.state == RxWaitFCS1
    ensures HandleAll(f, r, [high]) == r.(recdFcs := Upper(high), state := RxWaitFCS2)
  {
  }

  lemma LowIn(f: Filter, r: Receiver, low: bv8)
    requires r.state == RxWaitFCS2
    ensures HandleAll(f, r, [low]) == Validate(f, r.(recdFcs := WithLower(r.recdFcs, low), state := RxIdle))
  {
  }

  /** The receiver with the whole frame recorded, about to check it. */
  function Collected(r: Receiver, s: seq<bv8>, buf: Store, fcs: bv16): Receiver {
    r.(state := RxIdle, valid := false, buf := buf, len := |s|, fcs := FrameSum(s), recdFcs := fcs)
  }

  /** A whole frame, with any check sequence: what was stuffed is recorded and checked. */
  lemma FrameIn(f: Filter, r: Receiver, s: seq<bv8>, fcs: bv16)
    requires r.state == RxIdle && |s| <= MAX_PAYLOAD_LEN
    ensures var q := HandleAll(f, r, FrameWith(s, fcs));
            q.buf[..|s|] == s && q == Validate(f, Collected(r, s, q.buf, fcs))
  {
    var start := Clear(r).(state := RxData);
    StartIn(f, r);
    StuffedIn(f, start, s);
    var data := HandleAll(f, start, Stuffed(s));
    EndIn(f, data, FrameSum(s));
    var ended := HandleAll(f, data, [DLE, ETX]);
    HighIn(f, ended, High(fcs));
    var last := HandleAll(f, ended, [High(fcs)]);
    JoinBack(fcs);
    LowIn(f, last, Low(fcs));
    FrameParts(f, r, s, fcs);
  }

  lemma FrameParts(f: Filter, r: Receiver, s: seq<bv8>, fcs: bv16)
    ensures HandleAll(f, r, FrameWith(s, fcs)) ==
            HandleAll(f, HandleAll(f, HandleAll(f, HandleAll(f, HandleAll(f, r, [DLE, STX]), Stuffed(s)), [DLE, ETX]),
                                   [High(fcs)]), [Low(fcs)])
  {
    var front := [DLE, STX] + Stuffed(s) + [DLE, ETX];
    assert FrameWith(s, fcs) == front + [High(fcs)] + [Low(fcs)];
    HandleConcat(f, r, front + [High(fcs)], [Low(fcs)]);
    HandleConcat(f, r, front, [High(fcs)]);
    HandleConcat(f, r, [DLE, STX] + Stuffed(s), [DLE, ETX]);
    HandleConcat(f, r, [DLE, STX], Stuffed(s));
  }

  // ----- Frames that are too long -----

  /** When the buffer is full the rest of the data changes nothing. */
  lemma {:induction false} RestIgnored(f: Filter, r: Receiver, s: seq<bv8>)
    requires r.state == RxData && r.len == MAX_PAYLOAD_LEN
    ensures HandleAll(f, r, Stuffed(s)) == r
  {
    if s == [] {
    } else {
      var b := s[|s| - 1];
      RestIgnored(f, r, s[..|s| - 1]);
      HandleConcat(f, r, Stuffed(s[..|s| - 1]), if b == DLE then [DLE, b] else [b]);
      FullByte(f, r, b);
    }
  }

  lemma FullByte(f: Filter, r: Receiver, b: bv8)
    requires r.state == RxData && r.len == MAX_PAYLOAD_LEN
    ensures HandleAll(f, r, if b == DLE then [DLE, b] else [b]) == r
  {
    if b == DLE {
      assert [DLE, b] == [DLE] + [b];
      HandleConcat(f, r, [DLE], [b]);
      HandleOne(f, r, DLE);
      HandleOne(f, r.(state := RxEscape), b);
    } else {
      HandleOne(f, r, b);
    }
  }

  lemma LongDataIn(f: Filter, r: Receiver, s: seq<bv8>)
    requires r.state == RxData && r.len == 0 && r.fcs == 0xffff && |s| > MAX_PAYLOAD_LEN
    ensures Recorded(HandleAll(f, r, Stuffed(s)), r, s[..64])
  {
    var front, rest := s[..64], s[64..];
    StuffedIn(f, r, front);
    RestIgnored(f, HandleAll(f, r, Stuffed(front)), rest);
    assert s == front + rest;
    StuffedConcat(front, rest);
    HandleConcat(f, r, Stuffed(front), Stuffed(rest));
  }

  /** Of a frame that is too long the first 64 octets are recorded, and its sum is compared with theirs. */
  lemma LongFrameIn(f: Filter, r: Receiver, s: seq<bv8>, fcs: bv16)
    requires r.state == RxIdle && |s| > MAX_PAYLOAD_LEN
    ensures var q := HandleAll(f, r, FrameWith(s, fcs));
            q.buf == s[..64] && q == Validate(f, Collected(r, s[..64], q.buf, fcs))
  {
    var start := Clear(r).(state := RxData);
    StartIn(f, r);
    LongDataIn(f, start, s);
    var data := HandleAll(f, start, Stuffed(s));
    EndIn(f, data, FrameSum(s[..64]));
    var ended := HandleAll(f, data, [DLE, ETX]);
    HighIn(f, ended, High(fcs));
    var last := HandleAll(f, ended, [High(fcs)]);
    JoinBack(fcs);
    LowIn(f, last, Low(fcs));
    FrameParts(f, r, s, fcs);
  }

  /** So a frame that is too long is dropped, unless the sum of its first 64 octets happens to be its own. */
  lemma LongFrameDropped(f: Filter, r: Receiver, p: Packet)
    requires r.state == RxIdle && |p.data| > MAX_MESSAGE_LEN
    ensures var q, s := HandleAll(f, r, Frame(p)), Octets(p);
            && q.state == RxIdle
            && (q.valid <==> (FrameSum(s) == FrameSum(s[..64]) &&
                              (f.promiscuous || p.headers.to == f.address || p.headers.to == 0xff)))
  {
    var s := Octets(p);
    LongFrameIn(f, r, s, FrameSum(s));
    assert s[..64][0] == p.headers.to;
  }

  // ----- When the receiver has a message -----

  /** No message becomes available before the last byte of `s`. */
  predicate Silent(f: Filter, r: Receiver, s: seq<bv8>) {
    s == [] || (Silent(f, r, s[..|s| - 1]) && !HandleAll(f, r, s[..|s| - 1]).valid)
  }

  lemma {:induction false} SilentConcat(f: Filter, r: Receiver, s: seq<bv8>, t: seq<bv8>)
    requires Silent(f, r, s) && Silent(f, HandleAll(f, r, s), t)
    ensures Silent(f, r, s + t)
  {
    if t == [] {
      assert s + t == s;
    } else {
      assert (s + t)[..|s + t| - 1] == s + t[..|t| - 1];
      SilentConcat(f, r, s, t[..|t| - 1]);
      HandleConcat(f, r, s, t[..|t| - 1]);
    }
  }

  lemma SilentOne(f: Filter, r: Receiver, ch: bv8)
    requires !r.valid
    ensures Silent(f, r, [ch])
  {
    assert [ch][..|[ch]| - 1] == [];
    assert HandleAll(f, r, []) == r;
  }

  lemma SilentPair(f: Filter, r: Receiver, a: bv8, b: bv8)
    requires !r.valid && r.state != RxWaitFCS2
    ensures Silent(f, r, [a, b]) && !HandleAll(f, r, [a]).valid
  {
    assert [a, b] == [a] + [b];
    SilentOne(f, r, a);
    HandleOne(f, r, a);
    if HandleRx(f, r, a).valid {
      OnlyCheckMakesValid(f, r, a);
    }
    SilentOne(f, HandleAll(f, r, [a]), b);
    SilentConcat(f, r, [a], [b]);
  }

  lemma {:induction false} StuffedSilent(f: Filter, r: Receiver, s: seq<bv8>)
    requires r.state == RxData && r.len == 0 && r.fcs == 0xffff && |s| <= MAX_PAYLOAD_LEN && !r.valid
    ensures Silent(f, r, Stuffed(s))
  {
    if s == [] {
    } else {
      var front, b := s[..|s| - 1], s[|s| - 1];
      StuffedSilent(f, r, front);
      StuffedIn(f, r, front);
      var q := HandleAll(f, r, Stuffed(front));
      if b == DLE {
        SilentPair(f, q, DLE, b);
      } else {
        SilentOne(f, q, b);
      }
      SilentConcat(f, r, Stuffed(front), if b == DLE then [DLE, b] else [b]);
    }
  }

  lemma FrameSilent(f: Filter, r: Receiver, s: seq<bv8>, fcs: bv16)
    requires r.state == RxIdle && |s| <= MAX_PAYLOAD_LEN && !r.valid
    ensures Silent(f, r, FrameWith(s, fcs))
  {
    var start := Clear(r).(state := RxData);
    SilentPair(f, r, DLE, STX);
    StartIn(f, r);
    StuffedSilent(f, start, s);
    SilentConcat(f, r, [DLE, STX], Stuffed(s));
    StuffedIn(f, start, s);
    HandleConcat(f, r, [DLE, STX], Stuffed(s));
    var data := HandleAll(f, start, Stuffed(s));
    EndSilent(f, data, fcs);
    SilentConcat(f, r, [DLE, STX] + Stuffed(s), [DLE, ETX, High(fcs), Low(fcs)]);
  }

  lemma EndSilent(f: Filter, r: Receiver, fcs: bv16)
    requires r.state == RxData && !r.valid
    ensures Silent(f, r, [DLE, ETX, High(fcs), Low(fcs)])
  {
    SilentPair(f, r, DLE, ETX);
    EndIn(f, r, CcittUpdate(CcittUpdate(r.fcs, DLE), ETX));
    SilentPair(f, HandleAll(f, r, [DLE, ETX]), High(fcs), Low(fcs));
    SilentConcat(f, r, [DLE, ETX], [High(fcs), Low(fcs)]);
    assert [DLE, ETX] + [High(fcs), Low(fcs)] == [DLE, ETX, High(fcs), Low(fcs)];
  }

  /** Bytes between the frames, none of which is a DLE. */
  predicate Noise(s: seq<bv8>) {
    DLE !in s
  }

  lemma {:induction false} NoiseIn(f: Filter, r: Receiver, s: seq<bv8>)
    requires r.state == RxIdle && Noise(s) && !r.valid
    ensures HandleAll(f, r, s) == r && Silent(f, r, s)
  {
    if s == [] {
    } else {
      NoiseIn(f, r, s[..|s| - 1]);
    }
  }

  // ----- Collecting messages -----

  /** `available`: bytes are handled until there is a message or nothing is left to read. */
  function Poll(f: Filter, r: Receiver, input: seq<bv8>): (result: (Receiver, seq<bv8>))
    ensures |result.1| <= |input| && (!r.valid && result.0.valid ==> |result.1| < |input|)
    ensures result.0.valid || result.1 == []
    decreases |input|
  {
    if r.valid || input == [] then (r, input) else Poll(f, HandleRx(f, r, input[0]), input[1..])
  }

  lemma {:induction false} PollThrough(f: Filter, r: Receiver, s: seq<bv8>, rest: seq<bv8>)
    requires Silent(f, r, s)
    ensures Poll(f, r, s + rest) == Poll(f, HandleAll(f, r, s), rest)
  {
    if s == [] {
      assert s + rest == rest;
    } else {
      var front, b := s[..|s| - 1], s[|s| - 1];
      assert s + rest == front + ([b] + rest);
      PollThrough(f, r, front, [b] + rest);
      assert ([b] + rest)[1..] == rest;
    }
  }

  function MessageOf(r: Receiver): Packet
    requires r.Sound()
  {
    Packet(r.headers, if r.len >= HEADER_LEN then r.buf[HEADER_LEN..r.len] else [])
  }

  lemma SoundStep(f: Filter, r: Receiver, ch: bv8)
    requires r.Sound()
    ensures HandleRx(f, r, ch).Sound()
  {
  }

  lemma {:induction false} PollSound(f: Filter, r: Receiver, input: seq<bv8>)
    requires r.Sound()
    ensures Poll(f, r, input).0.Sound()
    decreases |input|
  {
    if !r.valid && input != [] {
      SoundStep(f, r, input[0]);
      PollSound(f, HandleRx(f, r, input[0]), input[1..]);
    }
  }

  /** `recv` again and again until there is nothing left. */
  function Drain(f: Filter, r: Receiver, input: seq<bv8>): (Receiver, seq<Packet>)
    requires r.Sound()
    decreases |input|, r.valid
  {
    var (q, rest) := Poll(f, r, input);
    PollSound(f, r, input);
    if q.valid then
      var (z, more) := Drain(f, Clear(q), rest);
      (z, [MessageOf(q)] + more)
    else (q, [])
  }

  /** What is sent: noise, then a packet. */
  datatype Burst = Burst(noise: seq<bv8>, packet: Packet) {
    predicate Valid() {
      Noise(noise) && |packet.data| <= MAX_MESSAGE_LEN
    }
  }

  function Stream(bursts: seq<Burst>): seq<bv8> {
    if bursts == [] then [] else bursts[0].noise + Frame(bursts[0].packet) + Stream(bursts[1..])
  }

  /** The packets that are for this receiver. */
  function Addressed(f: Filter, bursts: seq<Burst>): seq<Packet> {
    if bursts == [] then []
    else (if f.Accepts(bursts[0].packet.headers.to) then [bursts[0].packet] else []) + Addressed(f, bursts[1..])
  }

  lemma AddressedOne(f: Filter, b: Burst)
    ensures var to := b.packet.headers.to;
            Addressed(f, [b]) == if f.promiscuous || to == f.address || to == 0xff then [b.packet] else []
  {
    assert [b][1..] == [];
  }

  lemma {:induction false} AddressedConcat(f: Filter, s: seq<Burst>, t: seq<Burst>)
    ensures Addressed(f, s + t) == Addressed(f, s) + Addressed(f, t)
    decreases |s|
  {
    if s == [] {
      assert s + t == t;
    } else {
      assert (s + t)[1..] == s[1..] + t;
      AddressedConcat(f, s[1..], t);
    }
  }

  /** The packets that are for this receiver are those sent to its address or to everybody, or all of them. */
  lemma {:induction false} AddressedAre(f: Filter, bursts: seq<Burst>, p: Packet)
    ensures p in Addressed(f, bursts) <==>
            (f.promiscuous || p.headers.to == f.address || p.headers.to == 0xff) &&
            exists b :: b in bursts && b.packet == p
    decreases |bursts|
  {
    if bursts == [] {
    } else {
      var rest := bursts[1..];
      assert bursts == [bursts[0]] + rest;
      AddressedOne(f, bursts[0]);
      AddressedConcat(f, [bursts[0]], rest);
      AddressedAre(f, rest, p);
      assert forall b :: b in bursts <==> b == bursts[0] || b in rest;
    }
  }

  /** Of two receivers with different addresses on one line, no packet is for both unless it is for everybody. */
  lemma NotForBoth(f: Filter, g: Filter, bursts: seq<Burst>, p: Packet)
    requires !f.promiscuous && !g.promiscuous && f.address != g.address
    requires p in Addressed(f, bursts)
    ensures p in Addressed(g, bursts) <==> p.headers.to == 0xff
  {
    AddressedAre(f, bursts, p);
    AddressedAre(g, bursts, p);
  }

  predicate Quiet(r: Receiver) {
    r.state == RxIdle && !r.valid && r.Sound()
  }

  lemma BurstIn(f: Filter, r: Receiver, b: Burst)
    requires Quiet(r) && b.Valid()
    ensures var q := HandleAll(f, r, b.noise + Frame(b.packet));
            && q.state == RxIdle && q.Sound()
            && (q.valid <==> f.promiscuous || b.packet.headers.to == f.address || b.packet.headers.to == 0xff)
            && (q.valid ==> MessageOf(q) == b.packet)
    ensures Silent(f, r, b.noise + Frame(b.packet))
  {
    var s := Octets(b.packet);
    NoiseIn(f, r, b.noise);
    FrameSilent(f, r, s, FrameSum(s));
    SilentConcat(f, r, b.noise, Frame(b.packet));
    HandleConcat(f, r, b.noise, Frame(b.packet));
    FrameIn(f, r, s, FrameSum(s));
    PacketBack(b.packet, HandleAll(f, r, Frame(b.packet)).buf);
  }

  lemma PacketBack(p: Packet, buf: Store)
    requires |p.data| <= MAX_MESSAGE_LEN && buf[..|Octets(p)|] == Octets(p)
    ensures HeadersOf(buf) == p.headers && buf[HEADER_LEN..|Octets(p)|] == p.data
  {
  }

  /** An idle receiver gets exactly the packets that are for it, in order and unaltered, and is idle again. */
  lemma {:induction false} Delivered(f: Filter, r: Receiver, bursts: seq<Burst>)
    requires Quiet(r) && forall b :: b in bursts ==> b.Valid()
    ensures var (z, got) := Drain(f, r, Stream(bursts)); got == Addressed(f, bursts) && Quiet(z)
    decreases |bursts|
  {
    if bursts == [] {
    } else {
      var b, rest := bursts[0], Stream(bursts[1..]);
      var s := b.noise + Frame(b.packet);
      BurstIn(f, r, b);
      var q := HandleAll(f, r, s);
      PollThrough(f, r, s, rest);
      if q.valid {
        Delivered(f, Clear(q), bursts[1..]);
      } else {
        Delivered(f, q, bursts[1..]);
      }
    }
  }

  // ----- Damage -----

  /** The frame of a message in which one octet has been changed is dropped. */
  lemma DamageIsDropped(f: Filter, r: Receiver, s: seq<bv8>, t: seq<bv8>, k: nat)
    requires r.state == RxIdle && |s| <= MAX_PAYLOAD_LEN && OneByteOff(s, t, k)
    ensures var q := HandleAll(f, r, FrameWith(t, FrameSum(s))); !q.valid && q.state == RxIdle && q.bad == r.bad + 1
  {
    FrameIn(f, r, t, FrameSum(s));
    OneByteDetected(s, t, k, 0xffff);
    EndKeepsApart(Ccitt(s, 0xffff), Ccitt(t, 0xffff));
  }

  lemma EndKeepsApart(a: bv16, b: bv16)
    requires a != b
    ensures CcittUpdate(CcittUpdate(a, DLE), ETX) != CcittUpdate(CcittUpdate(b, DLE), ETX)
  {
    if CcittUpdate(CcittUpdate(a, DLE), ETX) == CcittUpdate(CcittUpdate(b, DLE), ETX) {
      CcittKeepsApart(CcittUpdate(a, DLE), CcittUpdate(b, DLE), ETX);
      CcittKeepsApart(a, b, DLE);
    }
  }
}

/** A receiver that is out of step with the frames on the line: what it loses, and when it is in step again. */
module SerialSync {
  import opened Crc
  import opened SerialLink
  import Serial

  /** In step, after a DLE that starts no frame, or inside a frame that never was. */
  predicate Settled(r: Receiver) {
    (r.state == RxIdle || r.state == RxDLE || r.state == RxData) && !r.valid && r.Sound()
  }

  /** `s` makes no message available and leaves the receiver settled in `state`. */
  predicate Passes(f: Filter, r: Receiver, s: seq<bv8>, state: RxState) {
    Silent(f, r, s) && Settled(HandleAll(f, r, s)) && HandleAll(f, r, s).state == state
  }

  lemma PassesConcat(f: Filter, r: Receiver, s: seq<bv8>, t: seq<bv8>, state: RxState, end: RxState)
    requires Passes(f, r, s, state) && Passes(f, HandleAll(f, r, s), t, end)
    ensures Passes(f, r, s + t, end)
  {
    SilentConcat(f, r, s, t);
    HandleConcat(f, r, s, t);
  }

  lemma PassesOne(f: Filter, r: Receiver, ch: bv8)
    requires Settled(r) && Settled(HandleRx(f, r, ch))
    ensures Passes(f, r, [ch], HandleRx(f, r, ch).state)
  {
    SilentOne(f, r, ch);
    HandleOne(f, r, ch);
  }

  lemma PassesPair(f: Filter, r: Receiver, a: bv8, b: bv8)
    requires Settled(r) && Settled(HandleRx(f, HandleRx(f, r, a), b))
    ensures Passes(f, r, [a, b], HandleRx(f, HandleRx(f, r, a), b).state)
    ensures HandleAll(f, r, [a, b]) == HandleRx(f, HandleRx(f, r, a), b)
  {
    SilentPair(f, r, a, b);
    assert [a, b] == [a] + [b];
    HandleConcat(f, r, [a], [b]);
    HandleOne(f, r, a);
    HandleOne(f, HandleRx(f, r, a), b);
  }

  // ----- A frame that is not heard from its start -----

  /** An idle receiver ignores stuffed data: a DLE in it comes twice. */
  lemma {:induction false} IdleThrough(f: Filter, r: Receiver, s: seq<bv8>)
    requires Settled(r) && r.state == RxIdle
    ensures Passes(f, r, Stuffed(s), RxIdle)
    decreases |s|
  {
    if s == [] {
    } else {
      var front, b := s[..|s| - 1], s[|s| - 1];
      IdleThrough(f, r, front);
      var q := HandleAll(f, r, Stuffed(front));
      if b == DLE {
        PassesPair(f, q, DLE, b);
        PassesConcat(f, r, Stuffed(front), [DLE, b], RxIdle, RxIdle);
      } else {
        PassesOne(f, q, b);
        PassesConcat(f, r, Stuffed(front), [b], RxIdle, RxIdle);
      }
    }
  }

  /** Where the two octets of a check sequence leave an idle receiver: they are not stuffed. */
  function AfterSum(fcs: bv16): RxState {
    if High(fcs) == DLE then (if Low(fcs) == STX then RxData else RxIdle)
    else if Low(fcs) == DLE then RxDLE
    else RxIdle
  }

  lemma SumPasses(f: Filter, r: Receiver, fcs: bv16)
    requires Settled(r) && r.state == RxIdle
    ensures Passes(f, r, [High(fcs), Low(fcs)], AfterSum(fcs))
  {
    PassesPair(f, r, High(fcs), Low(fcs));
  }

  lemma TailPasses(f: Filter, r: Receiver, s: seq<bv8>, fcs: bv16)
    requires Settled(r) && r.state == RxIdle
    ensures Passes(f, r, Stuffed(s) + [DLE, ETX] + [High(fcs), Low(fcs)], AfterSum(fcs))
  {
    IdleThrough(f, r, s);
    var q := HandleAll(f, r, Stuffed(s));
    PassesPair(f, q, DLE, ETX);
    PassesConcat(f, r, Stuffed(s), [DLE, ETX], RxIdle, RxIdle);
    SumPasses(f, HandleAll(f, r, Stuffed(s) + [DLE, ETX]), fcs);
    PassesConcat(f, r, Stuffed(s) + [DLE, ETX], [High(fcs), Low(fcs)], RxIdle, AfterSum(fcs));
  }

  lemma FrameSplit(s: seq<bv8>, fcs: bv16)
    ensures FrameWith(s, fcs) == [DLE, STX] + (Stuffed(s) + [DLE, ETX] + [High(fcs), Low(fcs)])
  {
  }

  /** Out of step, the start of a frame is taken for the end of something else, and the frame is lost. */
  lemma FrameLost(f: Filter, r: Receiver, s: seq<bv8>, fcs: bv16)
    requires Settled(r) && r.state != RxIdle
    ensures Passes(f, r, FrameWith(s, fcs), AfterSum(fcs))
  {
    var tail := Stuffed(s) + [DLE, ETX] + [High(fcs), Low(fcs)];
    FrameSplit(s, fcs);
    PassesPair(f, r, DLE, STX);
    TailPasses(f, HandleAll(f, r, [DLE, STX]), s, fcs);
    PassesConcat(f, r, [DLE, STX], tail, RxIdle, AfterSum(fcs));
  }

  /** Where noise leaves the receiver: an STX in it is the start of a frame if the octet before was a DLE. */
  function AfterNoise(state: RxState, noise: seq<bv8>): RxState {
    if state == RxDLE && noise != [] then (if noise[0] == STX then RxData else RxIdle) else state
  }

  lemma {:induction false} NoisePasses(f: Filter, r: Receiver, noise: seq<bv8>)
    requires Settled(r) && Noise(noise)
    ensures Passes(f, r, noise, AfterNoise(r.state, noise))
    decreases |noise|
  {
    if noise == [] {
    } else {
      var front, b := noise[..|noise| - 1], noise[|noise| - 1];
      NoisePasses(f, r, front);
      PassesOne(f, HandleAll(f, r, front), b);
      assert noise == front + [b];
      PassesConcat(f, r, front, [b], AfterNoise(r.state, front), AfterNoise(r.state, noise));
    }
  }

  // ----- Which packets arrive -----

  function Sum(p: Packet): bv16 {
    FrameSum(Octets(p))
  }

  /** How many frames are lost: the receiver must be in step when a frame begins, and stays in step then. */
  function Lost(state: RxState, bursts: seq<Burst>): (n: nat)
    ensures n <= |bursts|
    decreases |bursts|
  {
    if bursts == [] || AfterNoise(state, bursts[0].noise) == RxIdle then 0
    else 1 + Lost(AfterSum(Sum(bursts[0].packet)), bursts[1..])
  }

  predicate AllValid(bursts: seq<Burst>) {
    forall b :: b in bursts ==> b.Valid()
  }

  /** Draining `input` gives exactly `packets`. */
  predicate Arrives(f: Filter, r: Receiver, input: seq<bv8>, packets: seq<Packet>)
    requires r.Sound()
  {
    Drain(f, r, input).1 == packets && Settled(Drain(f, r, input).0)
  }

  lemma Taken(f: Filter, r: Receiver, s: seq<bv8>, rest: seq<bv8>)
    requires r.Sound() && Silent(f, r, s) && HandleAll(f, r, s).Sound()
    ensures Drain(f, r, s + rest) == Drain(f, HandleAll(f, r, s), rest)
  {
    PollThrough(f, r, s, rest);
  }

  /** A receiver that is in step loses nothing. */
  lemma InStep(f: Filter, r: Receiver, bursts: seq<Burst>)
    requires Settled(r) && r.state == RxIdle && AllValid(bursts)
    ensures Arrives(f, r, Stream(bursts), Addressed(f, bursts))
  {
    Delivered(f, r, bursts);
  }

  /** Whatever settled state the receiver starts in, exactly the packets for it that follow the lost frames arrive. */
  lemma {:induction false} Resynchronised(f: Filter, r: Receiver, bursts: seq<Burst>)
    requires Settled(r) && AllValid(bursts)
    ensures Arrives(f, r, Stream(bursts), Addressed(f, bursts[Lost(r.state, bursts)..]))
    decreases |bursts|
  {
    if bursts == [] {
    } else {
      var b, rest := bursts[0], bursts[1..];
      StillValid(f, bursts);
      NoiseFirst(bursts);
      NoisePasses(f, r, b.noise);
      var q := HandleAll(f, r, b.noise);
      Taken(f, r, b.noise, Frame(b.packet) + Stream(rest));
      if q.state == RxIdle {
        InStep(f, q, WithoutNoise(bursts));
      } else {
        FrameLost(f, q, Octets(b.packet), Sum(b.packet));
        Taken(f, q, Frame(b.packet), Stream(rest));
        Resynchronised(f, HandleAll(f, q, Frame(b.packet)), rest);
        RestOfRest(bursts, Lost(AfterSum(Sum(b.packet)), rest));
      }
    }
  }

  lemma RestOfRest<T>(s: seq<T>, n: nat)
    requires n < |s|
    ensures s[1..][n..] == s[1 + n..]
  {
  }

  lemma Regroup<T>(a: seq<T>, b: seq<T>, c: seq<T>)
    ensures a + b + c == a + (b + c) && [] + b + c == b + c
  {
  }

  function WithoutNoise(bursts: seq<Burst>): seq<Burst>
    requires bursts != []
  {
    [Burst([], bursts[0].packet)] + bursts[1..]
  }

  lemma NoiseFirst(bursts: seq<Burst>)
    requires bursts != []
    ensures var s := Frame(bursts[0].packet) + Stream(bursts[1..]);
            Stream(bursts) == bursts[0].noise + s && Stream(WithoutNoise(bursts)) == s
  {
    var b, rest := bursts[0], bursts[1..];
    assert WithoutNoise(bursts)[1..] == rest;
    Regroup(b.noise, Frame(b.packet), Stream(rest));
  }

  lemma StillValid(f: Filter, bursts: seq<Burst>)
    requires AllValid(bursts) && bursts != []
    ensures bursts[0].Valid() && AllValid(WithoutNoise(bursts)) && AllValid(bursts[1..])
    ensures Addressed(f, WithoutNoise(bursts)) == Addressed(f, bursts)
  {
    var b := bursts[0];
    assert b.Valid() && Burst([], b.packet).Valid();
    assert WithoutNoise(bursts)[1..] == bursts[1..];
  }

  function Copies(b: Burst, n: nat): (s: seq<Burst>)
    ensures |s| == n
  {
    if n == 0 then [] else [b] + Copies(b, n - 1)
  }

  /** The same burst again and again, heard out of step: it is lost once if its own check sequence lets the
      receiver go, and for ever if not.
    */
  lemma {:induction false} LostAgain(state: RxState, b: Burst, n: nat)
    requires AfterNoise(state, b.noise) != RxIdle
    ensures Lost(state, Copies(b, n)) ==
            if n > 1 && AfterNoise(AfterSum(Sum(b.packet)), b.noise) == RxIdle then 1 else n
    decreases n
  {
    if n == 0 {
    } else {
      assert Copies(b, n)[1..] == Copies(b, n - 1);
      var next := AfterSum(Sum(b.packet));
      if AfterNoise(next, b.noise) != RxIdle {
        LostAgain(next, b, n - 1);
      } else if n > 1 {
        assert Copies(b, n - 1)[0] == b;
      }
    }
  }

  // ----- Any state -----

  /** After an end of data that it never saw the start of, a receiver may take what it has for a message. */
  lemma CheckTaken(f: Filter, r: Receiver, ch: bv8, rest: seq<bv8>) returns (extra: seq<Packet>, q: Receiver)
    requires r.Sound() && !r.valid && r.state == RxWaitFCS2
    ensures Settled(q) && q.state == RxIdle && |extra| <= 1
    ensures Drain(f, r, [ch] + rest).0 == Drain(f, q, rest).0
    ensures Drain(f, r, [ch] + rest).1 == extra + Drain(f, q, rest).1
  {
    SilentOne(f, r, ch);
    HandleOne(f, r, ch);
    var checked := HandleRx(f, r, ch);
    Taken(f, r, [ch], rest);
    if checked.valid {
      extra, q := [MessageOf(checked)], Clear(checked);
    } else {
      extra, q := [], checked;
    }
  }

  lemma OneTaken(f: Filter, r: Receiver, ch: bv8, rest: seq<bv8>)
    requires r.Sound() && !r.valid && !HandleRx(f, r, ch).valid
    ensures HandleRx(f, r, ch).Sound() && Drain(f, r, [ch] + rest) == Drain(f, HandleRx(f, r, ch), rest)
  {
    SilentOne(f, r, ch);
    HandleOne(f, r, ch);
    SoundStep(f, r, ch);
    Taken(f, r, [ch], rest);
  }

  /** The same bursts without the first octet of noise. */
  function Shorter(bursts: seq<Burst>): seq<Burst>
    requires bursts != [] && bursts[0].noise != []
  {
    [Burst(bursts[0].noise[1..], bursts[0].packet)] + bursts[1..]
  }

  lemma ShorterIsRest(bursts: seq<Burst>)
    requires bursts != [] && bursts[0].noise != [] && AllValid(bursts)
    ensures Stream(bursts) == [bursts[0].noise[0]] + Stream(Shorter(bursts)) && bursts[0].noise[0] != DLE
    ensures AllValid(Shorter(bursts)) && Shorter(bursts)[1..] == bursts[1..]
  {
    var b := bursts[0];
    assert b.Valid();
    assert Shorter(bursts)[1..] == bursts[1..];
    FirstOut(b.noise, Frame(b.packet), Stream(bursts[1..]));
  }

  lemma FirstOut<T>(s: seq<T>, t: seq<T>, u: seq<T>)
    requires s != []
    ensures s + t + u == [s[0]] + (s[1..] + t + u)
  {
  }

  lemma TwoOut<T>(a: T, b: T, s: seq<T>, t: seq<T>)
    ensures [] + ([a, b] + s) + t == [a] + ([b] + (s + t))
  {
  }

  lemma ShorterAddressed(f: Filter, bursts: seq<Burst>, lost: nat)
    requires bursts != [] && bursts[0].noise != [] && lost <= |bursts|
    ensures Addressed(f, Shorter(bursts)[lost..]) == Addressed(f, bursts[lost..])
  {
    assert Shorter(bursts)[1..] == bursts[1..];
    if lost == 0 {
      assert bursts[lost..] == bursts && Shorter(bursts)[lost..] == Shorter(bursts);
    } else {
      assert Shorter(bursts)[lost..] == bursts[1..][lost - 1..] == bursts[lost..];
    }
  }

  /** At most one message that was never sent, then all packets for this receiver but the first `lost` frames. */
  predicate Recovers(f: Filter, r: Receiver, input: seq<bv8>, extra: seq<Packet>, bursts: seq<Burst>, lost: nat)
    requires r.Sound()
  {
    && lost <= |bursts| && |extra| <= 1
    && (bursts != [] ==> lost <= 1 + Lost(AfterSum(Sum(bursts[0].packet)), bursts[1..]))
    && Arrives(f, r, input, extra + Addressed(f, bursts[lost..]))
  }

  /** A receiver that is idle inside the first frame. */
  lemma InsideFrame(f: Filter, r: Receiver, bursts: seq<Burst>) returns (lost: nat)
    requires Settled(r) && r.state == RxIdle && bursts != [] && AllValid(bursts)
    ensures Recovers(f, r, RestOfFrame(bursts[0].packet) + Stream(bursts[1..]), [], bursts, lost)
  {
    var p, rest := bursts[0].packet, bursts[1..];
    TailPasses(f, r, Octets(p), Sum(p));
    Taken(f, r, RestOfFrame(p), Stream(rest));
    Resynchronised(f, HandleAll(f, r, RestOfFrame(p)), rest);
    lost := 1 + Lost(AfterSum(Sum(p)), rest);
    RestOfRest(bursts, lost - 1);
    assert [] + Addressed(f, bursts[lost..]) == Addressed(f, bursts[lost..]);
  }

  /** A frame without its start. */
  function RestOfFrame(p: Packet): seq<bv8> {
    Stuffed(Octets(p)) + [DLE, ETX] + [High(Sum(p)), Low(Sum(p))]
  }

  lemma FrameInParts(bursts: seq<Burst>)
    requires bursts != [] && bursts[0].noise == []
    ensures Stream(bursts) == [DLE] + ([STX] + (RestOfFrame(bursts[0].packet) + Stream(bursts[1..])))
  {
    var p := bursts[0].packet;
    FrameSplit(Octets(p), Sum(p));
    TwoOut(DLE, STX, RestOfFrame(p), Stream(bursts[1..]));
  }

  lemma FromSecondCheck(f: Filter, r: Receiver, bursts: seq<Burst>) returns (extra: seq<Packet>, lost: nat)
    requires r.Sound() && !r.valid && r.state == RxWaitFCS2 && bursts != [] && AllValid(bursts)
    ensures Recovers(f, r, Stream(bursts), extra, bursts, lost)
  {
    var q;
    if bursts[0].noise != [] {
      ShorterIsRest(bursts);
      extra, q := CheckTaken(f, r, bursts[0].noise[0], Stream(Shorter(bursts)));
      InStep(f, q, Shorter(bursts));
      lost := 0;
      ShorterAddressed(f, bursts, 0);
      assert bursts[0..] == bursts && Shorter(bursts)[0..] == Shorter(bursts);
    } else {
      var tail := RestOfFrame(bursts[0].packet) + Stream(bursts[1..]);
      FrameInParts(bursts);
      extra, q := CheckTaken(f, r, DLE, [STX] + tail);
      OneTaken(f, q, STX, tail);
      lost := InsideFrame(f, q, bursts);
      assert [] + Addressed(f, bursts[lost..]) == Addressed(f, bursts[lost..]);
    }
  }

  lemma FromFirstCheck(f: Filter, r: Receiver, bursts: seq<Burst>) returns (extra: seq<Packet>, lost: nat)
    requires r.Sound() && !r.valid && r.state == RxWaitFCS1 && bursts != [] && AllValid(bursts)
    ensures Recovers(f, r, Stream(bursts), extra, bursts, lost)
  {
    if bursts[0].noise != [] {
      ShorterIsRest(bursts);
      OneTaken(f, r, bursts[0].noise[0], Stream(Shorter(bursts)));
      extra, lost := FromSecondCheck(f, HandleRx(f, r, bursts[0].noise[0]), Shorter(bursts));
      ShorterAddressed(f, bursts, lost);
    } else {
      var tail := RestOfFrame(bursts[0].packet) + Stream(bursts[1..]);
      FrameInParts(bursts);
      OneTaken(f, r, DLE, [STX] + tail);
      var q;
      extra, q := CheckTaken(f, HandleRx(f, r, DLE), STX, tail);
      lost := InsideFrame(f, q, bursts);
      assert [] + Addressed(f, bursts[lost..]) == Addressed(f, bursts[lost..]);
    }
  }

  /** Stuffed data after an escaped DLE is data, though it is not the data of one frame. */
  lemma {:induction false} DataThrough(f: Filter, r: Receiver, s: seq<bv8>)
    requires Settled(r) && r.state == RxData
    ensures Passes(f, r, Stuffed(s), RxData)
    decreases |s|
  {
    if s == [] {
    } else {
      var front, b := s[..|s| - 1], s[|s| - 1];
      DataThrough(f, r, front);
      var q := HandleAll(f, r, Stuffed(front));
      if b == DLE {
        PassesPair(f, q, DLE, b);
        PassesConcat(f, r, Stuffed(front), [DLE, b], RxData, RxData);
      } else {
        PassesOne(f, q, b);
        PassesConcat(f, r, Stuffed(front), [b], RxData, RxData);
      }
    }
  }

  /** The end of the data and the high byte of the check sequence. */
  lemma EndTaken(f: Filter, r: Receiver, high: bv8, rest: seq<bv8>) returns (q: Receiver)
    requires Settled(r) && r.state == RxData
    ensures q.Sound() && !q.valid && q.state == RxWaitFCS2
    ensures Drain(f, r, [DLE] + ([ETX] + ([high] + rest))) == Drain(f, q, rest)
  {
    OneTaken(f, r, DLE, [ETX] + ([high] + rest));
    q := HandleRx(f, r, DLE);
    OneTaken(f, q, ETX, [high] + rest);
    q := HandleRx(f, q, ETX);
    OneTaken(f, q, high, rest);
    q := HandleRx(f, q, high);
  }

  /** The first frame is taken for more data of an old one, up to its own end. */
  lemma FrameAsData(f: Filter, r: Receiver, bursts: seq<Burst>) returns (extra: seq<Packet>)
    requires Settled(r) && r.state == RxData && bursts != [] && AllValid(bursts)
    ensures Recovers(f, r, RestOfFrame(bursts[0].packet) + Stream(bursts[1..]), extra, bursts, 1)
  {
    var rest := bursts[1..];
    var s, sum := Octets(bursts[0].packet), Sum(bursts[0].packet);
    var end := [Low(sum)] + Stream(rest);
    TailOut(Stuffed(s), DLE, ETX, High(sum), Low(sum), Stream(rest));
    DataThrough(f, r, s);
    Taken(f, r, Stuffed(s), [DLE] + ([ETX] + ([High(sum)] + end)));
    var q := EndTaken(f, HandleAll(f, r, Stuffed(s)), High(sum), end);
    extra, q := CheckTaken(f, q, Low(sum), Stream(rest));
    InStep(f, q, rest);
  }

  lemma TailOut<T>(s: seq<T>, a: T, b: T, c: T, d: T, t: seq<T>)
    ensures s + [a, b] + [c, d] + t == s + ([a] + ([b] + ([c] + ([d] + t))))
  {
  }

  lemma NothingExtra(f: Filter, r: Receiver, bursts: seq<Burst>)
    requires Settled(r) && r.state == RxIdle && AllValid(bursts)
    ensures Recovers(f, r, Stream(bursts), [], bursts, 0)
  {
    InStep(f, r, bursts);
    assert bursts[0..] == bursts && [] + Addressed(f, bursts) == Addressed(f, bursts);
  }

  lemma EscapedByNoise(f: Filter, r: Receiver, bursts: seq<Burst>) returns (extra: seq<Packet>, lost: nat)
    requires r.Sound() && !r.valid && r.state == RxEscape && bursts != [] && AllValid(bursts)
    requires bursts[0].noise != []
    ensures Recovers(f, r, Stream(bursts), extra, bursts, lost)
  {
    var ch := bursts[0].noise[0];
    ShorterIsRest(bursts);
    OneTaken(f, r, ch, Stream(Shorter(bursts)));
    var q := HandleRx(f, r, ch);
    if ch == ETX {
      extra, lost := FromFirstCheck(f, q, Shorter(bursts));
    } else {
      extra, lost := [], 0;
      NothingExtra(f, q, Shorter(bursts));
    }
    ShorterAddressed(f, bursts, lost);
  }

  lemma EscapedByFrame(f: Filter, r: Receiver, bursts: seq<Burst>) returns (extra: seq<Packet>)
    requires r.Sound() && !r.valid && r.state == RxEscape && bursts != [] && AllValid(bursts)
    requires bursts[0].noise == []
    ensures Recovers(f, r, Stream(bursts), extra, bursts, 1)
  {
    var tail := RestOfFrame(bursts[0].packet) + Stream(bursts[1..]);
    FrameInParts(bursts);
    OneTaken(f, r, DLE, [STX] + tail);
    var q := HandleRx(f, r, DLE);
    OneTaken(f, q, STX, tail);
    extra := FrameAsData(f, HandleRx(f, q, STX), bursts);
  }

  /** Whatever state the receiver is in, it loses no more frames than one that is idle inside the first of them,
      and returns at most one message that nobody sent.
    */
  lemma AnyState(f: Filter, r: Receiver, bursts: seq<Burst>) returns (extra: seq<Packet>, lost: nat)
    requires r.Sound() && !r.valid && bursts != [] && AllValid(bursts)
    ensures Recovers(f, r, Stream(bursts), extra, bursts, lost)
    ensures Settled(r) ==> extra == [] && lost == Lost(r.state, bursts)
  {
    match r.state
    case RxEscape =>
      if bursts[0].noise != [] {
        extra, lost := EscapedByNoise(f, r, bursts);
      } else {
        extra := EscapedByFrame(f, r, bursts);
        lost := 1;
      }
    case RxWaitFCS1 => extra, lost := FromFirstCheck(f, r, bursts);
    case RxWaitFCS2 => extra, lost := FromSecondCheck(f, r, bursts);
    case _ =>
      extra, lost := [], Lost(r.state, bursts);
      Resynchronised(f, r, bursts);
      assert [] + Addressed(f, bursts[lost..]) == Addressed(f, bursts[lost..]);
  }

  /** Two drivers on one line, of which the second may be in the middle of anything. */
  method Rejoin(a: Serial.Driver, b: Serial.Driver, bursts: seq<Burst>)
    returns (got: seq<Packet>, ghost extra: seq<Packet>, ghost lost: nat)
    requires a != b && b.Valid() && !b.rxBufValid && b.input == [] && bursts != [] && AllValid(bursts)
    modifies a, b, b.rxBuf
    ensures b.Valid() && Settled(b.State()) && b.input == []
    ensures lost <= |bursts| && got == extra + Addressed(b.Filter(), bursts[lost..])
    ensures |extra| <= 1 && lost <= 1 + Lost(AfterSum(Sum(bursts[0].packet)), bursts[1..])
    ensures Settled(old(b.State())) ==> extra == [] && lost == Lost(old(b.rxState), bursts)
  {
    Serial.Transmit(a, b, bursts);
    extra, lost := AnyState(b.Filter(), b.State(), bursts);
    got := Serial.Collect(b);
  }
}

/** From the samples on the line to the message: the slicer and the decoder together, and the frame check. */
module AskLink {
  import opened Common
  import opened AskPll
  import opened AskCodec
  import Crc

  const HEADER_LEN := 4
  const MAX_MESSAGE_LEN := 60
  const BROADCAST_ADDRESS: byte := 0xff

  datatype Headers = Headers(to: byte, from: byte, id: byte, flags: byte)

  // ----- The frame check -----

  function Octets(s: seq<byte>): seq<bv8> {
    seq(|s|, i requires 0 <= i < |s| => s[i] as bv8)
  }

  function Sum(s: seq<byte>): bv16 {
    Crc.Ccitt(Octets(s), 0xffff)
  }

  predicate Good(s: seq<byte>) {
    Sum(s) == Crc.GOOD_FCS
  }

  lemma SumNext(s: seq<byte>, b: byte, t: seq<byte>, sum: bv16)
    requires t == s + [b] && sum == Sum(s)
    ensures Sum(t) == Crc.CcittUpdate(sum, b as bv8)
  {
    assert Octets(t)[..|s|] == Octets(s);
  }

  function LowByte(x: bv16): byte {
    ByteRange(Crc.Low(x));
    Crc.Low(x) as int
  }

  function HighByte(x: bv16): byte {
    ByteRange(Crc.High(x));
    Crc.High(x) as int
  }

  lemma ByteRange(b: bv8)
    ensures 0 <= b as int < 256
  {
  }

  lemma ByteBack(b: bv8)
    ensures 0 <= b as int < 256 && (b as int) as bv8 == b
  {
  }

  lemma ByteApart(a: byte, b: byte)
    requires a as bv8 == b as bv8
    ensures a == b
  {
    OctetBack(a);
    OctetBack(b);
  }

  lemma OctetAfter(b: bv8)
    requires b < 255
    ensures (b + 1) as int == b as int + 1
  {
  }

  lemma LastOctet(b: bv8)
    requires b == 255
    ensures b as int == 255
  {
  }

  /** Every byte is the value of some octet. */
  lemma {:induction false} OctetOf(n: nat) returns (b: bv8)
    requires n < 256
    ensures b as int == n
  {
    if n == 0 {
      b := 0;
    } else {
      var a := OctetOf(n - 1);
      if a == 255 {
        LastOctet(a);
      } else {
        OctetAfter(a);
      }
      b := a + 1;
    }
  }

  lemma OctetBack(n: nat)
    requires n < 256
    ensures (n as bv8) as int == n
  {
    var b := OctetOf(n);
    ByteBack(b);
  }

  /** The check sequence is sent low byte first, as the complement of the sum. */
  function Checked(s: seq<byte>): seq<byte> {
    s + [LowByte(!Sum(s)), HighByte(!Sum(s))]
  }

  lemma SumOfTwoMore(s: seq<byte>, low: byte, high: byte, l: bv8, h: bv8)
    requires low as bv8 == l && high as bv8 == h
    ensures Sum(s + [low] + [high]) == Crc.CcittUpdate(Crc.CcittUpdate(Sum(s), l), h)
  {
    SumNext(s, low, s + [low], Sum(s));
    SumNext(s + [low], high, s + [low] + [high], Sum(s + [low]));
  }

  lemma CheckedIsGood(s: seq<byte>)
    ensures Good(Checked(s))
  {
    var fcs := !Sum(s);
    var low, high := LowByte(fcs), HighByte(fcs);
    ByteBack(Crc.Low(fcs));
    ByteBack(Crc.High(fcs));
    SumOfTwoMore(s, low, high, Crc.Low(fcs), Crc.High(fcs));
    assert Checked(s) == s + [low] + [high];
    Crc.ComplementIsGood(Sum(s));
  }

  lemma DamageIsDetected(s: seq<byte>, t: seq<byte>, k: nat)
    requires Good(s) && Crc.OneByteOff(s, t, k)
    ensures !Good(t)
  {
    var a, b := Octets(s), Octets(t);
    if a[k] == b[k] {
      ByteApart(s[k], t[k]);
    }
    assert a[..k] == Octets(s[..k]) && b[..k] == Octets(t[..k]);
    assert a[k + 1..] == Octets(s[k + 1..]) && b[k + 1..] == Octets(t[k + 1..]);
    assert Crc.OneByteOff(a, b, k);
    Crc.OneByteDetected(a, b, k, 0xffff);
  }

  // ----- Messages -----

  /** The byte count counts itself and the check sequence. */
  function Body(h: Headers, data: seq<byte>): seq<byte>
    requires |data| <= MAX_MESSAGE_LEN
  {
    [|data| + HEADER_LEN + 3, h.to, h.from, h.id, h.flags] + data
  }

  function Message(h: Headers, data: seq<byte>): seq<byte>
    requires |data| <= MAX_MESSAGE_LEN
  {
    Checked(Body(h, data))
  }

  lemma CheckedLayout(s: seq<byte>, sum: bv16)
    requires sum == Sum(s)
    ensures |Checked(s)| == |s| + 2 && Checked(s)[..|s|] == s
    ensures Checked(s)[|s|] as bv8 == Crc.Low(!sum) && Checked(s)[|s| + 1] as bv8 == Crc.High(!sum)
  {
    ByteBack(Crc.Low(!sum));
    ByteBack(Crc.High(!sum));
  }

  /** The octets of a message: its length, the headers, the data, and the check sequence, low byte first. */
  lemma MessageLayout(h: Headers, data: seq<byte>)
    requires |data| <= MAX_MESSAGE_LEN
    ensures var s, front := Message(h, data), [|data| + 7, h.to, h.from, h.id, h.flags] + data;
            && |s| == |front| + 2 && s[..|front|] == front
            && s[|front|] as bv8 == Crc.Low(!Sum(front)) && s[|front| + 1] as bv8 == Crc.High(!Sum(front))
  {
    CheckedLayout(Body(h, data), Sum(Body(h, data)));
  }

  lemma MessageIsCounted(h: Headers, data: seq<byte>)
    requires |data| <= MAX_MESSAGE_LEN
    ensures Counted(Message(h, data)) && Good(Message(h, data))
    ensures HeadersOf(Message(h, data)) == h && DataOf(Message(h, data)) == data
  {
    CheckedIsGood(Body(h, data));
  }

  function HeadersOf(s: seq<byte>): Headers
    requires |s| >= 7
  {
    Headers(s[1], s[2], s[3], s[4])
  }

  function DataOf(s: seq<byte>): seq<byte>
    requires |s| >= 7
  {
    s[HEADER_LEN + 1..|s| - 2]
  }

  // ----- The receiver as a whole -----

  datatype Receiver = Receiver(pll: Pll, decoder: Decoder)

  /** A sample at the timer interrupt; a complete message stops the receiver. */
  function Hear(r: Receiver, s: bool): Receiver {
    if r.decoder.full then r
    else
      var (p, bit) := Sample(r.pll, s);
      Receiver(p, if bit.Some? then BitIn(r.decoder, bit.value) else r.decoder)
  }

  function HearAll(r: Receiver, line: seq<bool>): Receiver {
    if line == [] then r else Hear(HearAll(r, line[..|line| - 1]), line[|line| - 1])
  }

  /** Hearing samples is feeding the decoder the bits that the slicer decides. */
  lemma {:induction false} HearIsFeed(r: Receiver, line: seq<bool>)
    requires !r.decoder.full
    ensures var (q, bits) := Samples(r.pll, line);
            var e := HearAll(r, line);
            e.decoder == Feed(r.decoder, bits) && (!e.decoder.full ==> e.pll == q)
  {
    if line == [] {
    } else {
      var front, s := line[..|line| - 1], line[|line| - 1];
      HearIsFeed(r, front);
      var (q, bits) := Samples(r.pll, front);
      var (p, bit) := Sample(q, s);
      var e := Feed(r.decoder, bits);
      if bit.Some? {
        FeedConcat(r.decoder, bits, [bit.value]);
        if e.full {
          FullStays(e, [bit.value]);
        } else {
          FeedOne(e, bit.value);
        }
      }
    }
  }

  /** One sample after the last bit is enough for a locked receiver to have decided all of them. */
  lemma LockedDecides(p: Pll, bits: seq<bool>, after: bool)
    requires Locked(p)
    ensures Samples(p, Line(bits) + [after]).1 == Undecided(p) + bits
  {
    BitsAreSamples(p, bits);
    LockedReceives(p, bits);
    var (q, decided) := Bits(p, bits);
    SamplesConcat(p, Line(bits), [after]);
    SamplesOne(q, after);
    if Early(q) {
      assert decided + [] == decided;
    }
  }

  lemma PendingBit(d: Decoder, p: Pll)
    requires Locked(p) && Idling(d)
    ensures var e := Feed(d, Undecided(p)); Idling(e) || Started(e)
  {
  }

  /** A locked, idle receiver collects the message that was framed, whatever it heard before. */
  lemma RoundTrip(r: Receiver, s: seq<byte>, after: bool)
    requires Locked(r.pll) && Idling(r.decoder) && Counted(s)
    ensures Complete(HearAll(r, Line(SymbolBits(FrameSymbols(s))) + [after]).decoder, s)
  {
    var bits := SymbolBits(FrameSymbols(s));
    HearIsFeed(r, Line(bits) + [after]);
    LockedDecides(r.pll, bits, after);
    FeedConcat(r.decoder, Undecided(r.pll), bits);
    PendingBit(r.decoder, r.pll);
    FrameIn(Feed(r.decoder, Undecided(r.pll)), s);
  }
}

/** Bits to bytes in the ASK receiver: the start symbol, 4-to-6 coding and the byte count. */
module AskCodec {
  import opened Common
  import opened AskPll

  const SYMBOLS: seq<byte> := [
    0x0d, 0x0e, 0x13, 0x15, 0x16, 0x19, 0x1a, 0x1c, 0x23, 0x25, 0x26, 0x29, 0x2a, 0x2c, 0x32, 0x34
  ]

  const START_SYMBOL := 0xb38
  const MAX_PAYLOAD_LEN := 67
  const PREAMBLE: seq<byte> := [0x2a, 0x2a, 0x2a, 0x2a, 0x2a, 0x2a, 0x38, 0x2c]

  // ----- 4-to-6 coding -----

  /** The search of `count` entries of the table from index `i` on; 0 if nothing is found. */
  function SearchFrom(symbol: byte, i: nat, count: nat): nat
    requires i + count <= 16
    decreases count
  {
    if count == 0 then 0
    else if symbol == SYMBOLS[i] then i
    else SearchFrom(symbol, i + 1, count - 1)
  }

  /** Bit 5 of a symbol says in which half of the table it is. */
  function Half(symbol: byte): nat {
    if symbol / 32 % 2 == 1 then 8 else 0
  }

  function Decode6(symbol: byte): nat {
    SearchFrom(symbol, Half(symbol), 8)
  }

  method Symbol6to4(symbol: byte) returns (r: nat)
    ensures r == Decode6(symbol)
  {
    var i: nat, count: nat := Half(symbol), 8;
    while count > 0
      invariant i + count <= 16
      invariant SearchFrom(symbol, i, count) == Decode6(symbol)
    {
      if symbol == SYMBOLS[i] {
        return i;
      }
      i, count := i + 1, count - 1;
    }
    return 0;
  }

  lemma {:induction false} NotFound(symbol: byte, i: nat, count: nat)
    requires i + count <= 16 && forall n :: 0 <= n < 16 ==> SYMBOLS[n] != symbol
    ensures SearchFrom(symbol, i, count) == 0
    decreases count
  {
    if count == 0 {
    } else {
      NotFound(symbol, i + 1, count - 1);
    }
  }

  /** What is no symbol is decoded as 0. */
  lemma NoSymbol(symbol: byte)
    requires forall n :: 0 <= n < 16 ==> SYMBOLS[n] != symbol
    ensures Decode6(symbol) == 0
  {
    NotFound(symbol, Half(symbol), 8);
  }

  lemma {:induction false} SearchBound(symbol: byte, i: nat, count: nat)
    requires i + count <= 16
    ensures SearchFrom(symbol, i, count) < 16
    decreases count
  {
    if count == 0 {
    } else {
      SearchBound(symbol, i + 1, count - 1);
    }
  }

  lemma {:induction false} SearchFinds(n: nat, i: nat, count: nat)
    requires i <= n < i + count <= 16
    ensures SearchFrom(SYMBOLS[n], i, count) == n
    decreases count
  {
    if i < n {
      assert SYMBOLS[i] != SYMBOLS[n];
      SearchFinds(n, i + 1, count - 1);
    }
  }

  lemma HalfOf(n: nat)
    requires n < 16
    ensures SYMBOLS[n] < 64 && Half(SYMBOLS[n]) == if n < 8 then 0 else 8
  {
  }

  /** Searching half of the table is enough: every symbol decodes to the nibble it stands for. */
  lemma DecodeSymbol(n: nat)
    requires n < 16
    ensures SYMBOLS[n] < 64 && Decode6(SYMBOLS[n]) == n
  {
    HalfOf(n);
    SearchFinds(n, if n < 8 then 0 else 8, 8);
  }

  // ----- Bits -----

  /** Bit `k` of a symbol. */
  function BitOf(v: nat, k: nat): bool {
    if k == 0 then v % 2 == 1 else BitOf(v / 2, k - 1)
  }

  /** The lowest `n` bits of a word, lowest first: the order of transmission. */
  function WordBits(w: nat, n: nat): seq<bool> {
    if n == 0 then [] else [w % 2 == 1] + WordBits(w / 2, n - 1)
  }

  lemma {:induction false} WordBitsAt(w: nat, n: nat, k: nat)
    requires k < n
    ensures |WordBits(w, n)| == n && WordBits(w, n)[k] == BitOf(w, k)
  {
    WordBitsLength(w / 2, n - 1);
    assert WordBits(w, n) == [w % 2 == 1] + WordBits(w / 2, n - 1);
    if k == 0 {
    } else {
      WordBitsAt(w / 2, n - 1, k - 1);
    }
  }

  lemma {:induction false} WordBitsLength(w: nat, n: nat)
    ensures |WordBits(w, n)| == n
  {
    if n == 0 {
    } else {
      WordBitsLength(w / 2, n - 1);
    }
  }

  /** The bits of symbols sent one after the other. */
  function SymbolBits(s: seq<byte>): seq<bool> {
    if s == [] then [] else SymbolBits(s[..|s| - 1]) + WordBits(s[|s| - 1], 6)
  }

  lemma {:induction false} SymbolBitsConcat(s: seq<byte>, t: seq<byte>)
    ensures SymbolBits(s + t) == SymbolBits(s) + SymbolBits(t)
  {
    if t == [] {
      assert s + t == s;
    } else {
      assert (s + t)[..|s + t| - 1] == s + t[..|t| - 1];
      SymbolBitsConcat(s, t[..|t| - 1]);
      Regroup(SymbolBits(s), SymbolBits(t[..|t| - 1]), WordBits(t[|t| - 1], 6));
    }
  }

  /** The two symbols of a byte, high nibble first. */
  function Coded(b: byte): seq<byte> {
    [SYMBOLS[b / 16], SYMBOLS[b % 16]]
  }

  function CodedAll(s: seq<byte>): seq<byte> {
    if s == [] then [] else CodedAll(s[..|s| - 1]) + Coded(s[|s| - 1])
  }

  // ----- The receiver -----

  type Register = x: int | 0 <= x < 0x1000

  /** Three of the six bits are 1, and no four in a row are the same. */
  predicate Balanced(symbol: byte) {
    && symbol < 64
    && symbol % 2 + symbol / 2 % 2 + symbol / 4 % 2 + symbol / 8 % 2 + symbol / 16 % 2 + symbol / 32 % 2 == 3
    && 0 < symbol % 16 < 15 && 0 < symbol / 2 % 16 < 15 && 0 < symbol / 4 % 16 < 15
  }

  lemma Halves(symbol: byte, a: nat, b: nat, c: nat, d: nat, e: nat, f: nat)
    requires a < 2 && b < 2 && c < 2 && d < 2 && e < 2 && f < 2
    requires symbol == a + 2 * b + 4 * c + 8 * d + 16 * e + 32 * f
    ensures symbol / 2 == b + 2 * c + 4 * d + 8 * e + 16 * f && symbol / 4 == c + 2 * d + 4 * e + 8 * f
    ensures symbol / 8 == d + 2 * e + 4 * f && symbol / 16 == e + 2 * f && symbol / 32 == f
  {
  }

  lemma LowBit(x: nat, h: nat, b: nat)
    requires x == b + 2 * h && b < 2
    ensures x % 2 == b
  {
  }

  lemma LowBits(x: nat, h: nat, n: nat)
    requires x == n + 16 * h && n < 16
    ensures x % 16 == n
  {
  }

  lemma Weighed(symbol: byte, a: nat, b: nat, c: nat, d: nat, e: nat, f: nat)
    requires a < 2 && b < 2 && c < 2 && d < 2 && e < 2 && f < 2 && a + b + c + d + e + f == 3
    requires symbol == a + 2 * b + 4 * c + 8 * d + 16 * e + 32 * f
    requires 0 < a + b + c + d < 4 && 0 < b + c + d + e < 4 && 0 < c + d + e + f < 4
    ensures Balanced(symbol)
  {
    Halves(symbol, a, b, c, d, e, f);
    LowBit(symbol, symbol / 2, a);
    LowBit(symbol / 2, symbol / 4, b);
    LowBit(symbol / 4, symbol / 8, c);
    LowBit(symbol / 8, symbol / 16, d);
    LowBit(symbol / 16, f, e);
    LowBit(symbol / 32, 0, f);
    LowBits(symbol, e + 2 * f, a + 2 * b + 4 * c + 8 * d);
    LowBits(symbol / 2, f, b + 2 * c + 4 * d + 8 * e);
    LowBits(symbol / 4, 0, c + 2 * d + 4 * e + 8 * f);
  }

  lemma AllBalanced()
    ensures forall n :: 0 <= n < 16 ==> Balanced(SYMBOLS[n])
  {
    Weighed(0x0d, 1, 0, 1, 1, 0, 0);
    Weighed(0x0e, 0, 1, 1, 1, 0, 0);
    Weighed(0x13, 1, 1, 0, 0, 1, 0);
    Weighed(0x15, 1, 0, 1, 0, 1, 0);
    Weighed(0x16, 0, 1, 1, 0, 1, 0);
    Weighed(0x19, 1, 0, 0, 1, 1, 0);
    Weighed(0x1a, 0, 1, 0, 1, 1, 0);
    Weighed(0x1c, 0, 0, 1, 1, 1, 0);
    Weighed(0x23, 1, 1, 0, 0, 0, 1);
    Weighed(0x25, 1, 0, 1, 0, 0, 1);
    Weighed(0x26, 0, 1, 1, 0, 0, 1);
    Weighed(0x29, 1, 0, 0, 1, 0, 1);
    Weighed(0x2a, 0, 1, 0, 1, 0, 1);
    Weighed(0x2c, 0, 0, 1, 1, 0, 1);
    Weighed(0x32, 0, 1, 0, 0, 1, 1);
    Weighed(0x34, 0, 0, 1, 0, 1, 1);
  }

  /** The symbols are in order and balanced, and the first half of the start symbol is none of them. */
  lemma SymbolsBalanced(n: nat)
    requires n < 16
    ensures Balanced(SYMBOLS[n]) && SYMBOLS[n] != START_SYMBOL % 64
    ensures n > 0 ==> SYMBOLS[n - 1] < SYMBOLS[n]
  {
    AllBalanced();
  }

  /** `buf` is the part of the receive buffer filled so far. */
  datatype Decoder = Decoder(active: bool, bits: Register, bitCount: nat, count: byte,
                             buf: seq<byte>, full: bool, bad: nat)

  /** The last twelve bits, the newest one on top. */
  function ShiftIn(bits: Register, b: bool): Register {
    bits / 2 + if b then 0x800 else 0
  }

  /** A decoded byte: the first one is the count of the message. */
  function ByteIn(d: Decoder, b: byte): Decoder {
    if d.buf == [] && (b < 7 || b > MAX_PAYLOAD_LEN) then
      d.(count := b, active := false, bad := d.bad + 1)
    else
      var count := if d.buf == [] then b else d.count;
      var full := |d.buf| + 1 >= count;
      d.(count := count, buf := d.buf + [b], bitCount := 0,
         active := !full, full := d.full || full)
  }

  function Byte12(bits: Register): byte {
    SearchBound(bits % 64, Half(bits % 64), 8);
    SearchBound(bits / 64, Half(bits / 64), 8);
    16 * Decode6(bits % 64) + Decode6(bits / 64)
  }

  /** A bit decided by the slicer. */
  function BitIn(d: Decoder, b: bool): Decoder {
    var e := d.(bits := ShiftIn(d.bits, b));
    if e.active then
      var f := e.(bitCount := e.bitCount + 1);
      if f.bitCount >= 12 then ByteIn(f, Byte12(f.bits)) else f
    else if e.bits == START_SYMBOL then e.(active := true, bitCount := 0, buf := [])
    else e
  }

  /** Bits one after the other; a complete message stops the receiver. */
  function Feed(d: Decoder, bits: seq<bool>): Decoder {
    if bits == [] then d
    else
      var e := Feed(d, bits[..|bits| - 1]);
      if e.full then e else BitIn(e, bits[|bits| - 1])
  }

  lemma {:induction false} FeedConcat(d: Decoder, bits: seq<bool>, more: seq<bool>)
    ensures Feed(d, bits + more) == Feed(Feed(d, bits), more)
  {
    if more == [] {
      assert bits + more == bits;
    } else {
      assert (bits + more)[..|bits + more| - 1] == bits + more[..|more| - 1];
      FeedConcat(d, bits, more[..|more| - 1]);
    }
  }

  lemma FeedOne(d: Decoder, b: bool)
    requires !d.full
    ensures Feed(d, [b]) == BitIn(d, b)
  {
  }

  lemma FeedFirst(d: Decoder, b: bool, more: seq<bool>)
    requires !d.full
    ensures Feed(d, [b] + more) == Feed(BitIn(d, b), more)
  {
    FeedConcat(d, [b], more);
    FeedOne(d, b);
  }

  lemma {:induction false} FullStays(d: Decoder, bits: seq<bool>)
    requires d.full
    ensures Feed(d, bits) == d
  {
    if bits == [] {
    } else {
      FullStays(d, bits[..|bits| - 1]);
    }
  }

  // ----- A coded byte -----

  /** The register and the bits to come are one number that moves down a bit at a time. */
  lemma Slide(y: nat)
    ensures ShiftIn(y % 0x1000, y / 0x1000 % 2 == 1) == y / 2 % 0x1000
  {
  }

  function Slid(y: nat, n: nat): nat {
    if n == 0 then y else Slid(y / 2, n - 1)
  }

  lemma SlidWord(bits: Register, w: Register)
    ensures Slid(bits + 0x1000 * w, 12) == w
  {
    Slid6(bits + 0x1000 * w, 6);
    Slid6((bits + 0x1000 * w) / 64, 0);
  }

  lemma Slid6(y: nat, n: nat)
    ensures Slid(y, n + 6) == Slid(y / 64, n)
  {
    assert Slid(y, n + 6) == Slid(y / 2, n + 5) == Slid(y / 2 / 2, n + 4);
    assert y / 2 / 2 == y / 4 && y / 4 / 2 == y / 8 && y / 8 / 2 == y / 16;
    assert y / 16 / 2 == y / 32 && y / 32 / 2 == y / 64;
    assert Slid(y / 4, n + 4) == Slid(y / 8, n + 3) == Slid(y / 16, n + 2);
    assert Slid(y / 16, n + 2) == Slid(y / 32, n + 1) == Slid(y / 64, n);
  }

  /** The last `n` of the twelve bits of a byte. */
  lemma {:induction false} ShiftByte(d: Decoder, y: nat, n: nat)
    requires d.active && !d.full && d.bitCount + n == 12 && n > 0 && d.bits == y % 0x1000
    ensures var bits := Slid(y, n) % 0x1000;
            Feed(d, WordBits(y / 0x1000, n)) == ByteIn(d.(bits := bits, bitCount := 12), Byte12(bits))
    decreases n
  {
    Slide(y);
    assert y / 0x1000 / 2 == y / 2 / 0x1000;
    var b := y / 0x1000 % 2 == 1;
    FeedFirst(d, b, WordBits(y / 2 / 0x1000, n - 1));
    if n > 1 {
      ShiftByte(BitIn(d, b), y / 2, n - 1);
    }
  }

  lemma WordIn(d: Decoder, w: Register)
    requires d.active && !d.full && d.bitCount == 0
    ensures Feed(d, WordBits(w, 12)) == ByteIn(d.(bits := w, bitCount := 12), Byte12(w))
  {
    var y := d.bits + 0x1000 * w;
    Stack(d.bits, w);
    SlidWord(d.bits, w);
    ShiftByte(d, y, 12);
  }

  lemma Stack(bits: Register, w: Register)
    ensures (bits + 0x1000 * w) % 0x1000 == bits && (bits + 0x1000 * w) / 0x1000 == w && w % 0x1000 == w
  {
  }

  function CodedWord(b: byte): Register {
    HalfOf(b / 16);
    HalfOf(b % 16);
    TwoSymbols(SYMBOLS[b / 16], SYMBOLS[b % 16])
  }

  /** Twelve bits: the first symbol is the lower one. */
  function TwoSymbols(s: byte, t: byte): Register
    requires s < 64 && t < 64
  {
    var high: int := t;
    s + 64 * high
  }

  lemma TwoSymbolsApart(s: byte, t: byte)
    requires s < 64 && t < 64
    ensures TwoSymbols(s, t) % 64 == s && TwoSymbols(s, t) / 64 == t
  {
  }

  lemma CodedWordDecodes(b: byte)
    ensures Byte12(CodedWord(b)) == b
  {
    HalfOf(b / 16);
    HalfOf(b % 16);
    TwoSymbolsApart(SYMBOLS[b / 16], SYMBOLS[b % 16]);
    DecodeSymbol(b / 16);
    DecodeSymbol(b % 16);
  }

  /** The lowest `n` bits from `v`, the ones above from `w`. */
  function Joined(v: nat, w: nat, n: nat): nat {
    if n == 0 then w else v % 2 + 2 * Joined(v / 2, w, n - 1)
  }

  lemma {:induction false} JoinedBits(v: nat, w: nat, n: nat, m: nat)
    ensures WordBits(Joined(v, w, n), n + m) == WordBits(v, n) + WordBits(w, m)
  {
    if n == 0 {
    } else {
      JoinedBits(v / 2, w, n - 1, m);
      Regroup([v % 2 == 1], WordBits(v / 2, n - 1), WordBits(w, m));
    }
  }

  lemma Regroup(a: seq<bool>, b: seq<bool>, c: seq<bool>)
    ensures a + (b + c) == a + b + c
  {
  }

  lemma SymbolsJoined(s: byte, t: byte)
    requires s < 64 && t < 64
    ensures Joined(s, t, 6) == TwoSymbols(s, t)
  {
    assert s / 2 / 2 == s / 4 && s / 4 / 2 == s / 8 && s / 8 / 2 == s / 16 && s / 16 / 2 == s / 32;
    assert Joined(s / 32, t, 1) == s / 32 + 2 * t;
    assert Joined(s / 16, t, 2) == s / 16 + 4 * t;
    assert Joined(s / 8, t, 3) == s / 8 + 8 * t;
    assert Joined(s / 4, t, 4) == s / 4 + 16 * t;
    assert Joined(s / 2, t, 5) == s / 2 + 32 * t;
  }

  lemma CodedBits(b: byte)
    ensures SymbolBits(Coded(b)) == WordBits(CodedWord(b), 12)
  {
    HalfOf(b / 16);
    HalfOf(b % 16);
    TwoSymbolBits(SYMBOLS[b / 16], SYMBOLS[b % 16], CodedWord(b));
  }

  /** The receiver decodes the byte that was coded. */
  lemma CodedByteIn(d: Decoder, b: byte)
    requires d.active && !d.full && d.bitCount == 0
    ensures Feed(d, SymbolBits(Coded(b))) == ByteIn(d.(bits := CodedWord(b), bitCount := 12), b)
  {
    CodedBits(b);
    WordIn(d, CodedWord(b));
    CodedWordDecodes(b);
  }

  // ----- A message -----

  /** A message begins with its own length. */
  predicate Counted(s: seq<byte>) {
    7 <= |s| <= MAX_PAYLOAD_LEN && s[0] == |s|
  }

  predicate Collecting(d: Decoder, s: seq<byte>, k: nat)
    requires 0 < |s| && k <= |s|
  {
    d.active && !d.full && d.bitCount == 0 && d.buf == s[..k] && (k > 0 ==> d.count == s[0])
  }

  predicate Complete(d: Decoder, s: seq<byte>) {
    d.full && !d.active && d.buf == s
  }

  /** `k` bytes of the message have been received. */
  predicate Progress(d: Decoder, s: seq<byte>, k: nat)
    requires 0 < |s| && k <= |s|
  {
    if k < |s| then Collecting(d, s, k) else Complete(d, s)
  }

  lemma {:induction false} FeedMessage(d: Decoder, s: seq<byte>, k: nat)
    requires Counted(s) && Collecting(d, s, 0) && k <= |s|
    ensures Progress(Feed(d, SymbolBits(CodedAll(s[..k]))), s, k)
  {
    if k == 0 {
      assert s[..0] == [];
      assert SymbolBits(CodedAll([])) == [];
    } else {
      FeedMessage(d, s, k - 1);
      var e := Feed(d, SymbolBits(CodedAll(s[..k - 1])));
      FeedNext(d, e, s, k - 1);
    }
  }

  lemma FeedNext(d: Decoder, e: Decoder, s: seq<byte>, k: nat)
    requires Counted(s) && k < |s| && Collecting(e, s, k)
    requires e == Feed(d, SymbolBits(CodedAll(s[..k])))
    ensures Progress(Feed(d, SymbolBits(CodedAll(s[..k + 1]))), s, k + 1)
  {
    MoreBits(d, s[..k + 1]);
    assert s[..k + 1][..k] == s[..k];
    NextByte(e, s, k);
  }

  lemma MoreBits(d: Decoder, s: seq<byte>)
    requires s != []
    ensures Feed(d, SymbolBits(CodedAll(s))) ==
            Feed(Feed(d, SymbolBits(CodedAll(s[..|s| - 1]))), SymbolBits(Coded(s[|s| - 1])))
  {
    SymbolBitsConcat(CodedAll(s[..|s| - 1]), Coded(s[|s| - 1]));
    FeedConcat(d, SymbolBits(CodedAll(s[..|s| - 1])), SymbolBits(Coded(s[|s| - 1])));
  }

  lemma NextByte(d: Decoder, s: seq<byte>, k: nat)
    requires Counted(s) && k < |s| && Collecting(d, s, k)
    ensures Progress(Feed(d, SymbolBits(Coded(s[k]))), s, k + 1)
  {
    CodedByteIn(d, s[k]);
    AppendNext(s, k);
    ByteProgress(d.(bits := CodedWord(s[k]), bitCount := 12), s, k);
  }

  lemma AppendNext(s: seq<byte>, k: nat)
    requires k < |s|
    ensures s[..k + 1] == s[..k] + [s[k]]
    ensures s[..|s|] == s
  {
  }

  lemma ByteProgress(d: Decoder, s: seq<byte>, k: nat)
    requires Counted(s) && k < |s| && Collecting(d.(bitCount := 0), s, k)
    ensures Progress(ByteIn(d, s[k]), s, k + 1)
  {
  }

  // ----- The preamble -----

  predicate Idling(d: Decoder) {
    !d.active && !d.full
  }

  /** The start symbol has just been seen. */
  predicate Started(d: Decoder) {
    d.active && !d.full && d.bitCount == 0 && d.buf == []
  }

  function Pairs(n: nat): seq<bool> {
    if n == 0 then [] else [false, true] + Pairs(n - 1)
  }

  const PREAMBLE_BITS := Pairs(18) + WordBits(START_SYMBOL, 12)

  lemma PairIn(d: Decoder, more: seq<bool>)
    requires Idling(d)
    ensures Feed(d, [false, true] + more) == Feed(BitIn(BitIn(d, false), true), more)
  {
    assert [false, true] + more == [false] + ([true] + more);
    assert d.bits / 2 < 0x800;
    FeedFirst(d, false, [true] + more);
    FeedFirst(BitIn(d, false), true, more);
  }

  lemma PairShifts(d: Decoder)
    requires Idling(d)
    ensures !BitIn(d, false).active
    ensures d.bits / 4 == 0x338 ==> Started(BitIn(BitIn(d, false), true))
    ensures d.bits / 4 != 0x338 ==> BitIn(BitIn(d, false), true) == d.(bits := d.bits / 4 + 0x800)
  {
  }

  /** How close to 0xaaa the register is after `n` pairs of bits. */
  predicate Settled(bits: Register, n: nat) {
    match n
    case 0 => true
    case 1 => 0x800 <= bits < 0xc00
    case 2 => 0xa00 <= bits < 0xb00
    case 3 => 0xa80 <= bits < 0xac0
    case 4 => 0xaa0 <= bits < 0xab0
    case 5 => 0xaa8 <= bits < 0xaac
    case _ => bits == 0xaaa
  }

  lemma {:induction false} PairsIn(d: Decoder, n: nat, m: nat)
    requires Idling(d) && Settled(d.bits, n) && (n == 0 ==> d.bits / 4 != 0x338)
    ensures var e := Feed(d, Pairs(m)); Settled(e.bits, n + m) && e == d.(bits := e.bits)
    decreases m
  {
    if m == 0 {
    } else {
      PairIn(d, Pairs(m - 1));
      PairShifts(d);
      PairsIn(d.(bits := d.bits / 4 + 0x800), n + 1, m - 1);
    }
  }

  lemma {:induction false} PairsConcat(n: nat, m: nat)
    ensures Pairs(n + m) == Pairs(n) + Pairs(m)
  {
    if n == 0 {
    } else {
      PairsConcat(n - 1, m);
      Regroup([false, true], Pairs(n - 1), Pairs(m));
    }
  }

  function PairWord(n: nat): nat {
    if n == 0 then 0 else 2 + 4 * PairWord(n - 1)
  }

  lemma BitFirst(w: nat, v: nat, b: bool, n: nat)
    requires w == 2 * v + if b then 1 else 0
    ensures WordBits(w, n + 1) == [b] + WordBits(v, n)
  {
  }

  lemma PairFirst(w: nat, n: nat)
    ensures WordBits(2 + 4 * w, n + 2) == [false, true] + WordBits(w, n)
  {
    BitFirst(2 + 4 * w, 1 + 2 * w, false, n + 1);
    BitFirst(1 + 2 * w, w, true, n);
    Regroup([false], [true], WordBits(w, n));
  }

  lemma {:induction false} PairsAreAWord(n: nat)
    ensures Pairs(n) == WordBits(PairWord(n), 2 * n)
  {
    if n == 0 {
    } else {
      PairsAreAWord(n - 1);
      PairFirst(PairWord(n - 1), 2 * (n - 1));
    }
  }

  lemma SixPairsAreAWord()
    ensures Pairs(6) == WordBits(0xaaa, 12)
  {
    PairsAreAWord(6);
    assert PairWord(6) == 2 + 4 * PairWord(5) && PairWord(4) == 2 + 4 * PairWord(3);
    assert PairWord(2) == 10;
  }

  lemma PreambleWordDecodes()
    ensures Byte12(0xaaa) == 0xcc
  {
  }

  /** A start symbol seen too soon is followed by an impossible count, and the receiver gives up at once. */
  lemma FalseStartDropped(d: Decoder)
    requires Started(d)
    ensures var e := Feed(d, Pairs(6)); Idling(e) && e.bits == 0xaaa && e.bad == d.bad + 1
  {
    SixPairsAreAWord();
    WordIn(d, 0xaaa);
    PreambleWordDecodes();
  }

  lemma SevenPairs(d: Decoder)
    requires Idling(d) || Started(d)
    ensures var e := Feed(d, Pairs(7)); Idling(e) && e.bits == 0xaaa
  {
    if Started(d) {
      FalseStartDropped(d);
      var e := Feed(d, Pairs(6));
      PairsConcat(6, 1);
      FeedConcat(d, Pairs(6), Pairs(1));
      PairsIn(e, 6, 1);
    } else if d.bits / 4 == 0x338 {
      PairShifts(d);
      PairIn(d, Pairs(6));
      FalseStartDropped(BitIn(BitIn(d, false), true));
    } else {
      PairsIn(d, 0, 7);
    }
  }

  lemma AllPairs(d: Decoder)
    requires Idling(d) || Started(d)
    ensures var e := Feed(d, Pairs(18)); Idling(e) && e.bits == 0xaaa
  {
    SevenPairs(d);
    PairsConcat(7, 11);
    FeedConcat(d, Pairs(7), Pairs(11));
    PairsIn(Feed(d, Pairs(7)), 7, 11);
  }

  /** An idle receiver only moves the bits along. */
  lemma {:induction false} IdleShift(d: Decoder, y: nat, n: nat)
    requires Idling(d) && d.bits == y % 0x1000
    requires forall k :: 1 <= k <= n ==> Slid(y, k) % 0x1000 != START_SYMBOL
    ensures Feed(d, WordBits(y / 0x1000, n)) == d.(bits := Slid(y, n) % 0x1000)
    decreases n
  {
    if n == 0 {
    } else {
      Slide(y);
      assert y / 0x1000 / 2 == y / 2 / 0x1000;
      var b := y / 0x1000 % 2 == 1;
      FeedFirst(d, b, WordBits(y / 2 / 0x1000, n - 1));
      assert Slid(y, 1) == Slid(y / 2, 0) == y / 2;
      forall k | 1 <= k <= n - 1
        ensures Slid(y / 2, k) % 0x1000 != START_SYMBOL
      {
        assert Slid(y, k + 1) == Slid(y / 2, k);
      }
      IdleShift(BitIn(d, b), y / 2, n - 1);
    }
  }

  const SYNC := 0xaaa + 0x1000 * START_SYMBOL

  lemma {:induction false} SlidEnd(y: nat, k: nat)
    ensures Slid(y, k + 1) == Slid(y, k) / 2
  {
    if k == 0 {
    } else {
      SlidEnd(y / 2, k - 1);
    }
  }

  /** Shifting the start symbol in shows it at the end and not before. */
  lemma SyncValues(k: nat)
    requires 1 <= k <= 12
    ensures Slid(SYNC, k) % 0x1000 == START_SYMBOL <==> k == 12
  {
    SyncValue(k);
  }

  /** The number that is left after each of the twelve bits. */
  function Halved(k: nat): nat
    requires k <= 12
  {
    [0xb38aaa, 0x59c555, 0x2ce2aa, 0x167155, 0xb38aa, 0x59c55, 0x2ce2a, 0x16715, 0xb38a, 0x59c5, 0x2ce2, 0x1671,
     0xb38][k]
  }

  lemma {:induction false} SyncValue(k: nat)
    requires k <= 12
    ensures Slid(SYNC, k) == Halved(k)
  {
    if k == 0 {
    } else {
      SyncValue(k - 1);
      SlidEnd(SYNC, k - 1);
    }
  }

  lemma NotYet(d: Decoder, w: Register, y: nat, n: nat)
    requires Idling(d) && y == d.bits + 0x1000 * w
    requires forall k :: 1 <= k <= n ==> Slid(y, k) % 0x1000 != START_SYMBOL
    ensures Feed(d, WordBits(w, n)) == d.(bits := Slid(y, n) % 0x1000)
  {
    Stack(d.bits, w);
    IdleShift(d, y, n);
  }

  lemma Matched(d: Decoder, w: Register, y: nat, n: nat)
    requires Idling(d) && y == d.bits + 0x1000 * w
    requires forall k :: 1 <= k <= n ==> Slid(y, k) % 0x1000 != START_SYMBOL
    requires ShiftIn(Slid(y, n) % 0x1000, BitOf(w, n)) == START_SYMBOL
    ensures Started(Feed(d, WordBits(w, n + 1)))
  {
    NotYet(d, w, y, n);
    LastBit(d, w, n);
  }

  lemma SyncNotYet(n: nat)
    requires n < 12
    ensures forall k :: 1 <= k <= n ==> Slid(SYNC, k) % 0x1000 != START_SYMBOL
  {
    forall k | 1 <= k <= n
      ensures Slid(SYNC, k) % 0x1000 != START_SYMBOL
    {
      SyncValues(k);
    }
  }

  lemma SyncMatched()
    ensures ShiftIn(Slid(SYNC, 11) % 0x1000, BitOf(START_SYMBOL, 11)) == START_SYMBOL
  {
    SyncValue(11);
  }

  lemma SyncIn(d: Decoder, n: nat)
    requires Idling(d) && d.bits == 0xaaa && n < 12
    ensures Idling(Feed(d, WordBits(START_SYMBOL, n)))
  {
    SyncNotYet(n);
    NotYet(d, START_SYMBOL, SYNC, n);
  }

  lemma SyncStarts(d: Decoder)
    requires Idling(d) && d.bits == 0xaaa
    ensures Started(Feed(d, WordBits(START_SYMBOL, 12)))
  {
    SyncNotYet(11);
    SyncMatched();
    Matched(d, START_SYMBOL, SYNC, 11);
  }

  lemma {:induction false} WordBitsEnd(w: nat, n: nat)
    ensures WordBits(w, n + 1) == WordBits(w, n) + [BitOf(w, n)]
  {
    if n == 0 {
      assert WordBits(w / 2, 0) == [];
    } else {
      WordBitsEnd(w / 2, n - 1);
      Regroup([w % 2 == 1], WordBits(w / 2, n - 1), [BitOf(w, n)]);
    }
  }

  lemma LastBit(d: Decoder, w: nat, n: nat)
    requires !Feed(d, WordBits(w, n)).full
    ensures Feed(d, WordBits(w, n + 1)) == BitIn(Feed(d, WordBits(w, n)), BitOf(w, n))
  {
    WordBitsEnd(w, n);
    FeedConcat(d, WordBits(w, n), [BitOf(w, n)]);
    FeedOne(Feed(d, WordBits(w, n)), BitOf(w, n));
  }

  /** Whatever an idle receiver has heard before, the preamble starts a message, at its last bit. */
  lemma PreambleStarts(d: Decoder)
    requires Idling(d) || Started(d)
    ensures Started(Feed(d, PREAMBLE_BITS))
  {
    AllPairs(d);
    FeedConcat(d, Pairs(18), WordBits(START_SYMBOL, 12));
    SyncStarts(Feed(d, Pairs(18)));
  }

  /** Before its last bit an idle receiver is misled by what it has heard before in one case only. */
  lemma FalseStart(d: Decoder)
    requires Idling(d)
    ensures |PREAMBLE_BITS| == 48
    ensures (exists k :: 0 <= k < 48 && Feed(d, PREAMBLE_BITS[..k]).active) <==> d.bits / 4 == 0x338
  {
    PreambleLength();
    if d.bits / 4 == 0x338 {
      PairShifts(d);
      PairIn(d, []);
      assert PREAMBLE_BITS[..2] == [false, true] + [];
      assert Feed(BitIn(BitIn(d, false), true), []) == BitIn(BitIn(d, false), true);
      assert Feed(d, PREAMBLE_BITS[..2]).active;
    } else {
      forall k | 0 <= k < 48
        ensures !Feed(d, PREAMBLE_BITS[..k]).active
      {
        NotMisled(d, k);
      }
    }
  }

  lemma {:induction false} PairsLength(n: nat)
    ensures |Pairs(n)| == 2 * n
  {
    if n == 0 {
    } else {
      PairsLength(n - 1);
    }
  }

  lemma PreambleLength()
    ensures |PREAMBLE_BITS| == 48 && PREAMBLE_BITS[..36] == Pairs(18)
    ensures PREAMBLE_BITS[36..] == WordBits(START_SYMBOL, 12)
  {
    PairsLength(18);
    WordBitsLength(START_SYMBOL, 12);
  }

  lemma {:induction false} WordBitsPrefix(w: nat, n: nat, k: nat)
    requires k <= n
    ensures |WordBits(w, n)| == n && WordBits(w, n)[..k] == WordBits(w, k)
  {
    WordBitsLength(w, n);
    if k < n {
      WordBitsPrefix(w, n - 1, k);
      WordBitsEnd(w, n - 1);
      WordBitsLength(w, n - 1);
    }
  }

  lemma PairsPrefix(n: nat, j: nat)
    requires j <= n
    ensures |Pairs(n)| == 2 * n && Pairs(n)[..2 * j] == Pairs(j)
  {
  }

  lemma NotMisled(d: Decoder, k: nat)
    requires Idling(d) && d.bits / 4 != 0x338 && k < 48
    ensures |PREAMBLE_BITS| == 48 && !Feed(d, PREAMBLE_BITS[..k]).active
  {
    PreambleLength();
    if k < 36 {
      assert PREAMBLE_BITS[..k] == Pairs(18)[..k];
      NotMisledByPairs(d, 18, k);
    } else {
      var n := k - 36;
      PairsIn(d, 0, 18);
      WordBitsPrefix(START_SYMBOL, 12, n);
      assert PREAMBLE_BITS[..k] == PREAMBLE_BITS[..36] + PREAMBLE_BITS[36..][..n];
      NotMisledBySync(d, Pairs(18), n);
    }
  }

  lemma NotMisledBySync(d: Decoder, pairs: seq<bool>, n: nat)
    requires Idling(Feed(d, pairs)) && Feed(d, pairs).bits == 0xaaa && n < 12
    ensures !Feed(d, pairs + WordBits(START_SYMBOL, n)).active
  {
    FeedConcat(d, pairs, WordBits(START_SYMBOL, n));
    SyncIn(Feed(d, pairs), n);
  }

  lemma PairsCut(n: nat, k: nat)
    requires k < 2 * n
    ensures |Pairs(n)| == 2 * n
    ensures Pairs(n)[..k] == if k % 2 == 0 then Pairs(k / 2) else Pairs(k / 2) + [false]
  {
    var j := k / 2;
    PairsPrefix(n, j);
    PairsPrefix(n, j + 1);
    HalfPair(j);
    if k > 2 * j {
      assert Pairs(n)[..k] == Pairs(n)[..2 * (j + 1)][..k];
    }
  }

  lemma NotMisledByPairs(d: Decoder, n: nat, k: nat)
    requires Idling(d) && d.bits / 4 != 0x338 && k < 2 * n
    ensures |Pairs(n)| == 2 * n && !Feed(d, Pairs(n)[..k]).active
  {
    PairsCut(n, k);
    PairsIn(d, 0, k / 2);
    LowNext(d, Pairs(k / 2));
  }

  lemma LowNext(d: Decoder, bits: seq<bool>)
    requires Idling(Feed(d, bits))
    ensures !Feed(d, bits + [false]).active
  {
  }

  lemma HalfPair(j: nat)
    ensures |Pairs(j + 1)| == 2 * j + 2 && Pairs(j + 1)[..2 * j + 1] == Pairs(j) + [false]
  {
    PairsConcat(j, 1);
    assert Pairs(1) == [false, true] + Pairs(0);
    PairsLength(j);
  }

  // ----- A frame -----

  /** What the transmitter sends for a message. */
  function FrameSymbols(s: seq<byte>): seq<byte> {
    PREAMBLE + CodedAll(s)
  }

  lemma {:induction false} CodedAt(s: seq<byte>, i: nat)
    requires i < |s|
    ensures |CodedAll(s)| == 2 * |s|
    ensures CodedAll(s)[2 * i] == SYMBOLS[s[i] / 16] && CodedAll(s)[2 * i + 1] == SYMBOLS[s[i] % 16]
    decreases |s|
  {
    var front := s[..|s| - 1];
    if front == [] {
    } else {
      CodedAt(front, if i < |front| then i else 0);
    }
  }

  /** After the preamble two symbols for every byte, that of its high nibble first. */
  lemma FrameLayout(s: seq<byte>, i: nat)
    requires i < |s|
    ensures var f := FrameSymbols(s);
            && |f| == 8 + 2 * |s| && f[..8] == PREAMBLE
            && f[8 + 2 * i] == SYMBOLS[s[i] / 16] && f[9 + 2 * i] == SYMBOLS[s[i] % 16]
  {
    CodedAt(s, i);
  }

  lemma PreambleBits()
    ensures SymbolBits(PREAMBLE) == PREAMBLE_BITS
  {
    ThreePairs(0x2a);
    SixSymbols(0x2a, 3);
    assert PREAMBLE == [0x2a, 0x2a, 0x2a, 0x2a, 0x2a, 0x2a] + [0x38, 0x2c];
    SymbolBitsConcat([0x2a, 0x2a, 0x2a, 0x2a, 0x2a, 0x2a], [0x38, 0x2c]);
    StartBits();
  }

  lemma StartBits()
    ensures SymbolBits([0x38, 0x2c]) == WordBits(START_SYMBOL, 12)
  {
    TwoSymbolBits(0x38, 0x2c, START_SYMBOL);
  }

  lemma TwoSymbolBits(s: byte, t: byte, w: Register)
    requires s < 64 && t < 64 && w == TwoSymbols(s, t)
    ensures SymbolBits([s, t]) == WordBits(w, 12)
  {
    SymbolsJoined(s, t);
    JoinedBits(s, t, 6, 6);
    assert [s, t][..1] == [s] && [s][..0] == [];
    assert SymbolBits([s]) == SymbolBits([]) + WordBits(s, 6) == WordBits(s, 6);
  }

  lemma ThreePairs(b: byte)
    requires b == 0x2a
    ensures SymbolBits([b]) == Pairs(3)
  {
    PairsAreAWord(3);
    assert PairWord(3) == 0x2a;
    assert SymbolBits([b]) == SymbolBits([]) + WordBits(b, 6) == WordBits(b, 6);
  }

  lemma MorePairs(s: seq<byte>, t: seq<byte>, m: nat, k: nat)
    requires SymbolBits(s) == Pairs(m) && SymbolBits(t) == Pairs(k)
    ensures SymbolBits(s + t) == Pairs(m + k)
  {
    SymbolBitsConcat(s, t);
    PairsConcat(m, k);
  }

  lemma SixSymbols(b: byte, k: nat)
    requires SymbolBits([b]) == Pairs(k)
    ensures SymbolBits([b, b, b, b, b, b]) == Pairs(6 * k)
  {
    var two := [b] + [b];
    MorePairs([b], [b], k, k);
    MorePairs(two, two, 2 * k, 2 * k);
    MorePairs(two + two, two, 4 * k, 2 * k);
    assert two + two + two == [b, b, b, b, b, b];
  }

  /** An idle receiver gets the message that was framed, byte for byte, whatever it heard before. */
  lemma FrameIn(d: Decoder, s: seq<byte>)
    requires (Idling(d) || Started(d)) && Counted(s)
    ensures Complete(Feed(d, SymbolBits(FrameSymbols(s))), s)
  {
    PreambleBits();
    SymbolBitsConcat(PREAMBLE, CodedAll(s));
    FeedConcat(d, PREAMBLE_BITS, SymbolBits(CodedAll(s)));
    PreambleStarts(d);
    FeedMessage(Feed(d, PREAMBLE_BITS), s, |s|);
    assert s[..|s|] == s;
  }
}

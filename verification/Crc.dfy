/** The CRC routines: a one-bit step each, iterated, and the faster forms of the same sums. */
module Crc {

  /** The sum of a message: `update` applied to its bytes in turn. */
  function Fold<W>(update: (W, bv8) -> W, s: seq<bv8>, start: W): W {
    if s == [] then start else update(Fold(update, s[..|s| - 1], start), s[|s| - 1])
  }

  /** `n` steps in a row. */
  function Iterate<W>(step: W -> W, x: W, n: nat): W {
    if n == 0 then x else step(Iterate(step, x, n - 1))
  }

  // ----- One bit at a time -----

  function Step8(x: bv8): bv8 {
    if x & 1 == 1 then (x >> 1) ^ 0x8C else x >> 1
  }

  function Steps8(x: bv8, n: nat): bv8 {
    Iterate(Step8, x, n)
  }

  /** The iButton CRC after one more byte. */
  function Update8(crc: bv8, data: bv8): bv8 {
    Steps8(crc ^ data, 8)
  }

  function Crc8(s: seq<bv8>): bv8 {
    Fold(Update8, s, 0)
  }

  function Step16(x: bv16): bv16 {
    if x & 1 == 1 then (x >> 1) ^ 0xA001 else x >> 1
  }

  function Steps16(x: bv16, n: nat): bv16 {
    Iterate(Step16, x, n)
  }

  function Update16(crc: bv16, data: bv8): bv16 {
    Steps16(crc ^ data as bv16, 8)
  }

  function Crc16(s: seq<bv8>, crc: bv16): bv16 {
    Fold(Update16, s, crc)
  }

  method IbuttonUpdate(crc: bv8, data: bv8) returns (r: bv8)
    ensures r == Update8(crc, data)
  {
    r := crc ^ data;
    var i := 0;
    while i < 8
      invariant i <= 8 && r == Steps8(crc ^ data, i)
    {
      if r & 1 == 1 {
        r := (r >> 1) ^ 0x8C;
      } else {
        r := r >> 1;
      }
      i := i + 1;
    }
  }

  method Crc16Update(crc: bv16, data: bv8) returns (r: bv16)
    ensures r == Update16(crc, data)
  {
    r := crc ^ data as bv16;
    var i := 0;
    while i < 8
      invariant i <= 8 && r == Steps16(crc ^ data as bv16, i)
    {
      if r & 1 == 1 {
        r := (r >> 1) ^ 0xA001;
      } else {
        r := r >> 1;
      }
      i := i + 1;
    }
  }

  // ----- The bitwise loop of OneWire::crc8 -----

  /** One turn of the inner loop: a bit of the byte is mixed in as it is shifted out. */
  method MixBit(crc0: bv8, inbyte0: bv8) returns (crc: bv8, inbyte: bv8)
    ensures crc ^ inbyte == Step8(crc0 ^ inbyte0)
    ensures inbyte == inbyte0 >> 1
  {
    var mix := (crc0 ^ inbyte0) & 1;
    crc := crc0 >> 1;
    if mix != 0 {
      crc := crc ^ 0x8C;
    }
    inbyte := inbyte0 >> 1;
  }

  method Crc8Bitwise(addr: seq<bv8>) returns (crc: bv8)
    ensures crc == Crc8(addr)
  {
    crc := 0;
    var n := 0;
    while n < |addr|
      invariant n <= |addr| && crc == Crc8(addr[..n])
    {
      crc := MixByte(crc, addr[n]);
      assert addr[..n + 1][..n] == addr[..n];
      n := n + 1;
    }
    assert addr[..n] == addr;
  }

  lemma LastMix(crc: bv8, inbyte: bv8)
    requires inbyte == 0
    ensures crc ^ inbyte == crc
  {
  }

  method MixByte(crc0: bv8, data: bv8) returns (crc: bv8)
    ensures crc == Update8(crc0, data)
  {
    crc := crc0;
    var inbyte := data;
    var i := 8;
    while i > 0
      invariant 0 <= i <= 8
      invariant crc ^ inbyte == Steps8(crc0 ^ data, 8 - i)
      invariant inbyte == Shifted(data, 8 - i)
    {
      crc, inbyte := MixBit(crc, inbyte);
      i := i - 1;
    }
    AllShifted(data);
    LastMix(crc, inbyte);
  }

  function Shifted(x: bv8, n: nat): bv8 {
    if n == 0 then x else Shifted(x, n - 1) >> 1
  }

  lemma ShiftedOut(x: bv8)
    ensures x >> 1 >> 1 >> 1 >> 1 >> 1 >> 1 >> 1 >> 1 == 0
  {
  }

  lemma AllShifted(x: bv8)
    ensures Shifted(x, 8) == 0
  {
    ShiftedOut(x);
    assert Shifted(x, 1) == x >> 1;
    assert Shifted(x, 2) == Shifted(x, 1) >> 1;
    assert Shifted(x, 3) == Shifted(x, 2) >> 1;
    assert Shifted(x, 4) == Shifted(x, 3) >> 1;
    assert Shifted(x, 5) == Shifted(x, 4) >> 1;
    assert Shifted(x, 6) == Shifted(x, 5) >> 1;
    assert Shifted(x, 7) == Shifted(x, 6) >> 1;
  }

  // ----- The table of OneWire::crc8 -----

  // Sixteen rows of sixteen, as the table is written
  const DSCRC_TABLE: seq<seq<bv8>> := [
    [0, 94, 188, 226, 97, 63, 221, 131, 194, 156, 126, 32, 163, 253, 31, 65],
    [157, 195, 33, 127, 252, 162, 64, 30, 95, 1, 227, 189, 62, 96, 130, 220],
    [35, 125, 159, 193, 66, 28, 254, 160, 225, 191, 93, 3, 128, 222, 60, 98],
    [190, 224, 2, 92, 223, 129, 99, 61, 124, 34, 192, 158, 29, 67, 161, 255],
    [70, 24, 250, 164, 39, 121, 155, 197, 132, 218, 56, 102, 229, 187, 89, 7],
    [219, 133, 103, 57, 186, 228, 6, 88, 25, 71, 165, 251, 120, 38, 196, 154],
    [101, 59, 217, 135, 4, 90, 184, 230, 167, 249, 27, 69, 198, 152, 122, 36],
    [248, 166, 68, 26, 153, 199, 37, 123, 58, 100, 134, 216, 91, 5, 231, 185],
    [140, 210, 48, 110, 237, 179, 81, 15, 78, 16, 242, 172, 47, 113, 147, 205],
    [17, 79, 173, 243, 112, 46, 204, 146, 211, 141, 111, 49, 178, 236, 14, 80],
    [175, 241, 19, 77, 206, 144, 114, 44, 109, 51, 209, 143, 12, 82, 176, 238],
    [50, 108, 142, 208, 83, 13, 239, 177, 240, 174, 76, 18, 145, 207, 45, 115],
    [202, 148, 118, 40, 171, 245, 23, 73, 8, 86, 180, 234, 105, 55, 213, 139],
    [87, 9, 235, 181, 54, 104, 138, 212, 149, 203, 41, 119, 244, 170, 72, 22],
    [233, 183, 85, 11, 136, 214, 52, 106, 43, 117, 151, 201, 74, 20, 246, 168],
    [116, 42, 200, 150, 21, 75, 169, 247, 182, 232, 10, 84, 215, 137, 107, 53]
  ]

  function Lookup(x: bv8): bv8 {
    DSCRC_TABLE[(x >> 4) as int][(x & 15) as int]
  }

  function Full8(x: bv8): bv8 {
    Step8(Step8(Step8(Step8(Step8(Step8(Step8(Step8(x))))))))
  }

  lemma FullIsSteps(x: bv8)
    ensures Full8(x) == Steps8(x, 8)
  {
    assert Steps8(x, 1) == Step8(x);
    assert Steps8(x, 2) == Step8(Steps8(x, 1));
    assert Steps8(x, 3) == Step8(Steps8(x, 2));
    assert Steps8(x, 4) == Step8(Steps8(x, 3));
    assert Steps8(x, 5) == Step8(Steps8(x, 4));
    assert Steps8(x, 6) == Step8(Steps8(x, 5));
    assert Steps8(x, 7) == Step8(Steps8(x, 6));
  }

  /** Within a row, every entry is the first entry of the row and the entry above it in row 0. */
  predicate RowLike(row: seq<bv8>, top: seq<bv8>) {
    |row| == 16 && |top| == 16 && forall j :: 0 <= j < 16 ==> row[j] == top[j] ^ row[0]
  }

  lemma FirstRow(lo: bv8)
    requires lo < 16
    ensures DSCRC_TABLE[0][lo as int] == Full8(lo)
  {
    assert Full8(0) == 0 && Full8(1) == 94 && Full8(2) == 188 && Full8(3) == 226;
    assert Full8(4) == 97 && Full8(5) == 63 && Full8(6) == 221 && Full8(7) == 131;
    assert Full8(8) == 194 && Full8(9) == 156 && Full8(10) == 126 && Full8(11) == 32;
    assert Full8(12) == 163 && Full8(13) == 253 && Full8(14) == 31 && Full8(15) == 65;
  }

  lemma FirstColumn(hi: bv8)
    requires hi < 16
    ensures DSCRC_TABLE[hi as int][0] == Full8(hi << 4)
  {
  }

  lemma RowsAlike()
    ensures forall i :: 0 <= i < 16 ==> RowLike(DSCRC_TABLE[i], DSCRC_TABLE[0])
  {
    UpperRowsAlike();
    LowerRowsAlike();
  }

  lemma UpperRowsAlike()
    ensures forall i :: 0 <= i < 8 ==> RowLike(DSCRC_TABLE[i], DSCRC_TABLE[0])
  {
  }

  lemma LowerRowsAlike()
    ensures forall i :: 8 <= i < 16 ==> RowLike(DSCRC_TABLE[i], DSCRC_TABLE[0])
  {
  }

  lemma SplitByte(x: bv8)
    ensures Full8(x) == Full8(x & 15) ^ Full8((x >> 4) << 4)
  {
  }

  lemma Halves(x: bv8)
    ensures x & 15 < 16 && x >> 4 < 16
  {
  }

  lemma TableEntry(lo: bv8, hi: bv8)
    requires lo < 16 && hi < 16
    ensures DSCRC_TABLE[hi as int][lo as int] == Full8(lo) ^ Full8(hi << 4)
  {
    FirstRow(lo);
    FirstColumn(hi);
    RowsAlike();
    assert RowLike(DSCRC_TABLE[hi as int], DSCRC_TABLE[0]);
  }

  lemma EntryOf(x: bv8)
    ensures Lookup(x) == Full8(x & 15) ^ Full8((x >> 4) << 4)
  {
    Halves(x);
    TableEntry(x & 15, x >> 4);
  }

  lemma StepsOf(x: bv8, sum: bv8)
    requires Full8(x & 15) ^ Full8((x >> 4) << 4) == sum
    ensures sum == Steps8(x, 8)
  {
    FullIsSteps(x);
    SplitByte(x);
  }

  /** The table holds eight steps for every byte. */
  lemma TableIsSteps(x: bv8)
    ensures Lookup(x) == Steps8(x, 8)
  {
    EntryOf(x);
    StepsOf(x, Lookup(x));
  }

  method Crc8Table(addr: seq<bv8>) returns (crc: bv8)
    ensures crc == Crc8(addr)
  {
    crc := 0;
    var n := 0;
    while n < |addr|
      invariant n <= |addr| && crc == Crc8(addr[..n])
    {
      TableIsSteps(crc ^ addr[n]);
      crc := Lookup(crc ^ addr[n]);
      assert addr[..n + 1][..n] == addr[..n];
      n := n + 1;
    }
    assert addr[..n] == addr;
  }

  // ----- The parity form of OneWire::crc16 -----

  const ODD_PARITY: seq<bool> := [
    false, true, true, false, true, false, false, true, true, false, false, true, false, true, true, false
  ]

  function ParityUpdate(crc: bv16, data: bv8): bv16 {
    var cdata := (data as bv16 ^ crc) & 0xff;
    var high := crc >> 8;
    var odd := ODD_PARITY[(cdata & 0x0f) as int] != ODD_PARITY[(cdata >> 4) as int];
    (if odd then high ^ 0xC001 else high) ^ (cdata << 6) ^ (cdata << 6 << 1)
  }

  function Full16(x: bv16): bv16 {
    Step16(Step16(Step16(Step16(Step16(Step16(Step16(Step16(x))))))))
  }

  lemma Full16IsSteps(x: bv16)
    ensures Full16(x) == Steps16(x, 8)
  {
    assert Steps16(x, 1) == Step16(x);
    assert Steps16(x, 2) == Step16(Steps16(x, 1));
    assert Steps16(x, 3) == Step16(Steps16(x, 2));
    assert Steps16(x, 4) == Step16(Steps16(x, 3));
    assert Steps16(x, 5) == Step16(Steps16(x, 4));
    assert Steps16(x, 6) == Step16(Steps16(x, 5));
    assert Steps16(x, 7) == Step16(Steps16(x, 6));
  }

  function Half16(z: bv16): bv16 {
    z >> 1
  }

  function Sum16(y: bv16, z: bv16): bv16 {
    y ^ z
  }

  predicate Even(z: bv16) {
    z & 1 == 0
  }

  /** Steps that a sum with an even number commutes with, the number being halved. */
  ghost predicate Splits<W(!new)>(step: W -> W, sum: (W, W) -> W, half: W -> W, even: W -> bool) {
    forall y, z :: even(z) ==> step(sum(y, z)) == sum(step(y), half(z))
  }

  /** `zs` is its first element and what comes of it by halving, everything but the last element even. */
  predicate Halving<W(==)>(half: W -> W, even: W -> bool, zs: seq<W>) {
    zs != [] && forall k :: 0 <= k < |zs| - 1 ==> even(zs[k]) && half(zs[k]) == zs[k + 1]
  }

  lemma {:induction false} IterateSplits<W(!new)>(step: W -> W, sum: (W, W) -> W, half: W -> W, even: W -> bool,
                                                  y: W, zs: seq<W>, n: nat)
    requires Splits(step, sum, half, even) && Halving(half, even, zs) && n < |zs|
    ensures Iterate(step, sum(y, zs[0]), n) == sum(Iterate(step, y, n), zs[n])
  {
    if n == 0 {
    } else {
      IterateSplits(step, sum, half, even, y, zs, n - 1);
      assert even(zs[n - 1]) && half(zs[n - 1]) == zs[n - 1 + 1];
    }
  }

  lemma Step16Sum(y: bv16, z: bv16, w: bv16)
    requires z & 1 == 0 && w == z >> 1
    ensures Step16(y ^ z) == Step16(y) ^ w
  {
  }

  lemma Step16Splits()
    ensures Splits(Step16, Sum16, Half16, Even)
  {
    forall y, z | Even(z)
      ensures Step16(Sum16(y, z)) == Sum16(Step16(y), Half16(z))
    {
      Step16Sum(y, z, z >> 1);
    }
  }

  function Shifts(z: bv16): seq<bv16> {
    [z, z >> 1, z >> 2, z >> 3, z >> 4, z >> 5, z >> 6, z >> 7, z >> 8]
  }

  /** The high byte of a word goes down as it is. */
  lemma ShiftsHalve(z: bv16)
    requires z & 0xff == 0
    ensures Halving(Half16, Even, Shifts(z))
  {
    LowBitsClear(z);
    ShiftsOnce(z);
  }

  lemma ShiftsOnce(z: bv16)
    ensures Half16(z) == z >> 1 && Half16(z >> 1) == z >> 2 && Half16(z >> 2) == z >> 3 && Half16(z >> 3) == z >> 4
    ensures Half16(z >> 4) == z >> 5 && Half16(z >> 5) == z >> 6 && Half16(z >> 6) == z >> 7 && Half16(z >> 7) == z >> 8
  {
  }

  lemma LowBitsClear(z: bv16)
    requires z & 0xff == 0
    ensures Even(z) && Even(z >> 1) && Even(z >> 2) && Even(z >> 3)
    ensures Even(z >> 4) && Even(z >> 5) && Even(z >> 6) && Even(z >> 7)
  {
  }

  lemma Bytes(x: bv16)
    ensures x & 0xff00 & 0xff == 0 && Sum16(x & 0xff, x & 0xff00) == x && (x & 0xff00) >> 8 == x >> 8
  {
  }

  lemma HighByteFalls(x: bv16)
    ensures Steps16(x, 8) == (x >> 8) ^ Steps16(x & 0xff, 8)
  {
    Bytes(x);
    ShiftsHalve(x & 0xff00);
    Step16Splits();
    IterateSplits(Step16, Sum16, Half16, Even, x & 0xff, Shifts(x & 0xff00), 8);
  }

  /** What the parity trick adds for the low byte `c`. */
  function Spread(c: bv16): bv16
    requires c < 256
  {
    (if ODD_PARITY[(c & 0x0f) as int] != ODD_PARITY[(c >> 4) as int] then 0xC001 else 0) ^ (c << 6) ^ (c << 6 << 1)
  }

  lemma LowByteSpreads(c: bv16)
    requires c < 256
    ensures Full16(c) == Spread(c)
  {
  }

  lemma LowByteSteps(c: bv16)
    requires c < 256
    ensures Steps16(c, 8) == Spread(c)
  {
    Full16IsSteps(c);
    LowByteSpreads(c);
  }

  lemma ParityForm(crc: bv16, data: bv8)
    ensures (data as bv16 ^ crc) & 0xff < 256
    ensures ParityUpdate(crc, data) == (crc >> 8) ^ Spread((data as bv16 ^ crc) & 0xff)
  {
  }

  lemma CDataSplit(crc: bv16, data: bv8)
    ensures (crc ^ data as bv16) & 0xff == (data as bv16 ^ crc) & 0xff
    ensures (crc ^ data as bv16) >> 8 == crc >> 8
    ensures (data as bv16 ^ crc) & 0xff < 256
  {
  }

  lemma StepsOfWord(x: bv16, high: bv16, low: bv16)
    requires x >> 8 == high && x & 0xff == low
    ensures Steps16(x, 8) == high ^ Steps16(low, 8)
  {
    HighByteFalls(x);
  }

  lemma UpdateOf(crc: bv16, data: bv8, low: bv16, steps: bv16)
    requires low == (data as bv16 ^ crc) & 0xff && steps == Steps16(low, 8)
    ensures Update16(crc, data) == (crc >> 8) ^ steps
  {
    CDataSplit(crc, data);
    StepsOfWord(crc ^ data as bv16, crc >> 8, low);
  }

  lemma ParityOf(crc: bv16, data: bv8, low: bv16, steps: bv16)
    requires low == (data as bv16 ^ crc) & 0xff && steps == Steps16(low, 8)
    ensures ParityUpdate(crc, data) == (crc >> 8) ^ steps
  {
    CDataSplit(crc, data);
    ParityForm(crc, data);
    LowByteSteps(low);
  }

  /** The parity trick is eight steps at once. */
  lemma ParityIsSteps(crc: bv16, data: bv8)
    ensures ParityUpdate(crc, data) == Update16(crc, data)
  {
    var low := (data as bv16 ^ crc) & 0xff;
    UpdateOf(crc, data, low, Steps16(low, 8));
    ParityOf(crc, data, low, Steps16(low, 8));
  }

  method Crc16Parity(input: seq<bv8>, crc0: bv16) returns (crc: bv16)
    ensures crc == Crc16(input, crc0)
  {
    crc := crc0;
    var i := 0;
    while i < |input|
      invariant i <= |input| && crc == Crc16(input[..i], crc0)
    {
      ParityIsSteps(crc, input[i]);
      crc := ParityUpdate(crc, input[i]);
      assert input[..i + 1][..i] == input[..i];
      i := i + 1;
    }
    assert input[..i] == input;
  }

  // ----- The CCITT update -----

  function CcittUpdate(crc: bv16, data: bv8): bv16 {
    var d0 := data ^ (crc & 0xff) as bv8;
    var d := d0 ^ (d0 << 4);
    ((d as bv16 << 8) | (crc >> 8)) ^ (d >> 4) as bv16 ^ (d as bv16 << 3)
  }

  function CcittStep(x: bv16): bv16 {
    if x & 1 == 1 then (x >> 1) ^ 0x8408 else x >> 1
  }

  function CcittSteps(x: bv16, n: nat): bv16 {
    Iterate(CcittStep, x, n)
  }

  function CcittFull(x: bv16): bv16 {
    CcittStep(CcittStep(CcittStep(CcittStep(CcittStep(CcittStep(CcittStep(CcittStep(x))))))))
  }

  lemma CcittFullIsSteps(x: bv16)
    ensures CcittFull(x) == CcittSteps(x, 8)
  {
    assert CcittSteps(x, 1) == CcittStep(x);
    assert CcittSteps(x, 2) == CcittStep(CcittSteps(x, 1));
    assert CcittSteps(x, 3) == CcittStep(CcittSteps(x, 2));
    assert CcittSteps(x, 4) == CcittStep(CcittSteps(x, 3));
    assert CcittSteps(x, 5) == CcittStep(CcittSteps(x, 4));
    assert CcittSteps(x, 6) == CcittStep(CcittSteps(x, 5));
    assert CcittSteps(x, 7) == CcittStep(CcittSteps(x, 6));
  }

  lemma CcittStepSum(y: bv16, z: bv16, w: bv16)
    requires z & 1 == 0 && w == z >> 1
    ensures CcittStep(y ^ z) == CcittStep(y) ^ w
  {
  }

  lemma CcittStepSplits()
    ensures Splits(CcittStep, Sum16, Half16, Even)
  {
    forall y, z | Even(z)
      ensures CcittStep(Sum16(y, z)) == Sum16(CcittStep(y), Half16(z))
    {
      CcittStepSum(y, z, z >> 1);
    }
  }

  lemma CcittHighFalls(x: bv16)
    ensures CcittSteps(x, 8) == (x >> 8) ^ CcittSteps(x & 0xff, 8)
  {
    Bytes(x);
    ShiftsHalve(x & 0xff00);
    CcittStepSplits();
    IterateSplits(CcittStep, Sum16, Half16, Even, x & 0xff, Shifts(x & 0xff00), 8);
  }

  /** What the straight-line form adds for the low byte `c`. */
  function CcittSpread(c: bv8): bv16 {
    var d := c ^ (c << 4);
    (d as bv16 << 8) ^ (d >> 4) as bv16 ^ (d as bv16 << 3)
  }

  lemma CcittLowSpreads(c: bv16)
    requires c < 256
    ensures CcittFull(c) == CcittSpread(c as bv8)
  {
  }

  lemma CcittLowSteps(c: bv16)
    requires c < 256
    ensures CcittSteps(c, 8) == CcittSpread(c as bv8)
  {
    CcittFullIsSteps(c);
    CcittLowSpreads(c);
  }

  lemma CcittLowByte(crc: bv16, data: bv8)
    ensures (crc ^ data as bv16) & 0xff < 256
    ensures data ^ (crc & 0xff) as bv8 == ((crc ^ data as bv16) & 0xff) as bv8
  {
  }

  lemma CcittParts(d: bv8, high: bv16)
    requires high < 256
    ensures ((d as bv16 << 8) | high) ^ (d >> 4) as bv16 ^ (d as bv16 << 3) ==
            high ^ ((d as bv16 << 8) ^ (d >> 4) as bv16 ^ (d as bv16 << 3))
  {
  }

  lemma CcittFormBy(crc: bv16, data: bv8, c: bv8)
    requires c == data ^ (crc & 0xff) as bv8
    ensures CcittUpdate(crc, data) == (crc >> 8) ^ CcittSpread(c)
  {
    CcittParts(c ^ (c << 4), crc >> 8);
  }

  lemma CcittForm(crc: bv16, data: bv8)
    ensures (crc ^ data as bv16) & 0xff < 256
    ensures CcittUpdate(crc, data) == (crc >> 8) ^ CcittSpread(((crc ^ data as bv16) & 0xff) as bv8)
  {
    CcittLowByte(crc, data);
    CcittFormBy(crc, data, ((crc ^ data as bv16) & 0xff) as bv8);
  }

  lemma CcittWord(x: bv16, high: bv16, low: bv16)
    requires x >> 8 == high && x & 0xff == low
    ensures CcittSteps(x, 8) == high ^ CcittSteps(low, 8)
  {
    CcittHighFalls(x);
  }

  lemma CcittValue(crc: bv16, data: bv8)
    ensures CcittUpdate(crc, data) == (crc >> 8) ^ CcittSteps((crc ^ data as bv16) & 0xff, 8)
  {
    CcittForm(crc, data);
    CcittLowSteps((crc ^ data as bv16) & 0xff);
  }

  lemma CcittStepsValue(crc: bv16, data: bv8, value: bv16)
    requires value == (crc >> 8) ^ CcittSteps((crc ^ data as bv16) & 0xff, 8)
    ensures value == CcittSteps(crc ^ data as bv16, 8)
  {
    HighOfXor(crc, data);
    CcittWord(crc ^ data as bv16, crc >> 8, (crc ^ data as bv16) & 0xff);
  }

  lemma HighOfXor(crc: bv16, data: bv8)
    ensures (crc ^ data as bv16) >> 8 == crc >> 8
  {
  }

  /** The straight-line form is eight one-bit steps with the reversed polynomial of RFC 1662, section C.2. */
  lemma CcittIsSteps(crc: bv16, data: bv8)
    ensures CcittUpdate(crc, data) == CcittSteps(crc ^ data as bv16, 8)
  {
    CcittValue(crc, data);
    CcittStepsValue(crc, data, CcittUpdate(crc, data));
  }

  function Ccitt(s: seq<bv8>, crc: bv16): bv16 {
    Fold(CcittUpdate, s, crc)
  }

  const GOOD_FCS: bv16 := 0xf0b8

  function Low(x: bv16): bv8 { (x & 0xff) as bv8 }

  function High(x: bv16): bv8 { (x >> 8) as bv8 }

  lemma ComplementIsGood(crc: bv16)
    ensures CcittUpdate(CcittUpdate(crc, Low(!crc)), High(!crc)) == GOOD_FCS
  {
  }

  // ----- Error detection -----

  lemma {:induction false} IterateKeepsApart<W(!new)>(step: W -> W, x: W, y: W, n: nat)
    requires forall a, b :: step(a) == step(b) ==> a == b
    requires Iterate(step, x, n) == Iterate(step, y, n)
    ensures x == y
  {
    if n == 0 {
    } else {
      IterateKeepsApart(step, x, y, n - 1);
    }
  }

  lemma Step8KeepsApart(x: bv8, y: bv8)
    requires Step8(x) == Step8(y)
    ensures x == y
  {
  }

  lemma Step16KeepsApart(x: bv16, y: bv16)
    requires Step16(x) == Step16(y)
    ensures x == y
  {
  }

  lemma CcittStepKeepsApart(x: bv16, y: bv16)
    requires CcittStep(x) == CcittStep(y)
    ensures x == y
  {
  }

  lemma Steps8KeepApart(x: bv8, y: bv8, n: nat)
    requires Steps8(x, n) == Steps8(y, n)
    ensures x == y
  {
    forall a, b | Step8(a) == Step8(b)
      ensures a == b
    {
      Step8KeepsApart(a, b);
    }
    IterateKeepsApart(Step8, x, y, n);
  }

  lemma Steps16KeepApart(x: bv16, y: bv16, n: nat)
    requires Steps16(x, n) == Steps16(y, n)
    ensures x == y
  {
    forall a, b | Step16(a) == Step16(b)
      ensures a == b
    {
      Step16KeepsApart(a, b);
    }
    IterateKeepsApart(Step16, x, y, n);
  }

  lemma CcittStepsKeepApart(x: bv16, y: bv16, n: nat)
    requires CcittSteps(x, n) == CcittSteps(y, n)
    ensures x == y
  {
    forall a, b | CcittStep(a) == CcittStep(b)
      ensures a == b
    {
      CcittStepKeepsApart(a, b);
    }
    IterateKeepsApart(CcittStep, x, y, n);
  }

  lemma Xor8Cancels(a: bv8, b: bv8, c: bv8)
    requires a ^ c == b ^ c
    ensures a == b
  {
  }

  lemma Xor8Separates(crc: bv8, a: bv8, b: bv8)
    requires crc ^ a == crc ^ b
    ensures a == b
  {
  }

  lemma Xor16Cancels(a: bv16, b: bv16, c: bv8)
    requires a ^ c as bv16 == b ^ c as bv16
    ensures a == b
  {
  }

  lemma Xor16Separates(crc: bv16, a: bv8, b: bv8)
    requires crc ^ a as bv16 == crc ^ b as bv16
    ensures a == b
  {
  }

  lemma Update8Separates(crc: bv8, a: bv8, b: bv8)
    requires Update8(crc, a) == Update8(crc, b)
    ensures a == b
  {
    Steps8KeepApart(crc ^ a, crc ^ b, 8);
    Xor8Separates(crc, a, b);
  }

  lemma Update8KeepsApart(c: bv8, d: bv8, a: bv8)
    requires Update8(c, a) == Update8(d, a)
    ensures c == d
  {
    Steps8KeepApart(c ^ a, d ^ a, 8);
    Xor8Cancels(c, d, a);
  }

  lemma Update16Separates(crc: bv16, a: bv8, b: bv8)
    requires Update16(crc, a) == Update16(crc, b)
    ensures a == b
  {
    Steps16KeepApart(crc ^ a as bv16, crc ^ b as bv16, 8);
    Xor16Separates(crc, a, b);
  }

  lemma Update16KeepsApart(c: bv16, d: bv16, a: bv8)
    requires Update16(c, a) == Update16(d, a)
    ensures c == d
  {
    Steps16KeepApart(c ^ a as bv16, d ^ a as bv16, 8);
    Xor16Cancels(c, d, a);
  }

  lemma CcittSeparates(crc: bv16, a: bv8, b: bv8)
    requires CcittUpdate(crc, a) == CcittUpdate(crc, b)
    ensures a == b
  {
    CcittIsSteps(crc, a);
    CcittIsSteps(crc, b);
    CcittStepsKeepApart(crc ^ a as bv16, crc ^ b as bv16, 8);
    Xor16Separates(crc, a, b);
  }

  lemma StartsKeptApart(c: bv16, d: bv16, a: bv8, u: bv16)
    requires u == CcittSteps(c ^ a as bv16, 8) && u == CcittSteps(d ^ a as bv16, 8)
    ensures c == d
  {
    CcittStepsKeepApart(c ^ a as bv16, d ^ a as bv16, 8);
    Xor16Cancels(c, d, a);
  }

  lemma CcittKeepsApart(c: bv16, d: bv16, a: bv8)
    requires CcittUpdate(c, a) == CcittUpdate(d, a)
    ensures c == d
  {
    var u := CcittUpdate(c, a);
    CcittIsSteps(c, a);
    CcittIsSteps(d, a);
    StartsKeptApart(c, d, a, u);
  }

  /** Distinct sums stay distinct, and distinct bytes make distinct sums. */
  ghost predicate Separating<W(!new)>(update: (W, bv8) -> W) {
    && (forall c, d, a :: update(c, a) == update(d, a) ==> c == d)
    && (forall c, a, b :: update(c, a) == update(c, b) ==> a == b)
  }

  /** The two messages differ in byte `k` and nowhere else. */
  ghost predicate OneByteOff<T>(s: seq<T>, t: seq<T>, k: nat) {
    k < |s| == |t| && s[k] != t[k] && s[..k] == t[..k] && s[k + 1..] == t[k + 1..]
  }

  lemma OneByteOffFront(s: seq<bv8>, t: seq<bv8>, k: nat)
    requires OneByteOff(s, t, k)
    ensures k == |s| - 1 ==> s[..|s| - 1] == t[..|t| - 1]
    ensures k < |s| - 1 ==> s[|s| - 1] == t[|t| - 1] && OneByteOff(s[..|s| - 1], t[..|t| - 1], k)
  {
  }

  lemma {:induction false} OneByteSeparates<W(!new)>(update: (W, bv8) -> W, s: seq<bv8>, t: seq<bv8>, k: nat, start: W)
    requires Separating(update) && OneByteOff(s, t, k)
    ensures Fold(update, s, start) != Fold(update, t, start)
    decreases |s|
  {
    var n := |s| - 1;
    OneByteOffFront(s, t, k);
    if k < n {
      OneByteSeparates(update, s[..n], t[..n], k, start);
    }
  }

  lemma AllSeparating()
    ensures Separating(Update8) && Separating(Update16) && Separating(CcittUpdate)
  {
    Separating8();
    Separating16();
    SeparatingCcitt();
  }

  lemma Separating8()
    ensures Separating(Update8)
  {
    forall c, d, a | Update8(c, a) == Update8(d, a)
      ensures c == d
    {
      Update8KeepsApart(c, d, a);
    }
    forall c, a, b | Update8(c, a) == Update8(c, b)
      ensures a == b
    {
      Update8Separates(c, a, b);
    }
  }

  lemma Separating16()
    ensures Separating(Update16)
  {
    forall c, d, a | Update16(c, a) == Update16(d, a)
      ensures c == d
    {
      Update16KeepsApart(c, d, a);
    }
    forall c, a, b | Update16(c, a) == Update16(c, b)
      ensures a == b
    {
      Update16Separates(c, a, b);
    }
  }

  lemma SeparatingCcitt()
    ensures Separating(CcittUpdate)
  {
    forall c, d, a | CcittUpdate(c, a) == CcittUpdate(d, a)
      ensures c == d
    {
      CcittKeepsApart(c, d, a);
    }
    forall c, a, b | CcittUpdate(c, a) == CcittUpdate(c, b)
      ensures a == b
    {
      CcittSeparates(c, a, b);
    }
  }

  /** An error in a single byte changes every one of the sums. */
  lemma OneByteDetected(s: seq<bv8>, t: seq<bv8>, k: nat, start: bv16)
    requires OneByteOff(s, t, k)
    ensures Crc8(s) != Crc8(t)
    ensures Crc16(s, start) != Crc16(t, start)
    ensures Ccitt(s, start) != Ccitt(t, start)
  {
    AllSeparating();
    OneByteSeparates(Update8, s, t, k, 0);
    OneByteSeparates(Update16, s, t, k, start);
    OneByteSeparates(CcittUpdate, s, t, k, start);
  }

  // ----- The stored, inverted CRC16 -----

  predicate Stored(crc: bv16, inverted: seq<bv8>)
    requires |inverted| >= 2
  {
    !crc & 0xff == inverted[0] as bv16 && !crc >> 8 == inverted[1] as bv16
  }

  method CheckCrc16(input: seq<bv8>, inverted: seq<bv8>, crc: bv16) returns (ok: bool)
    requires |inverted| >= 2
    ensures ok <==> Stored(Crc16(input, crc), inverted)
  {
    var sum := Crc16Parity(input, crc);
    var flipped := !sum;
    ok := flipped & 0xff == inverted[0] as bv16 && flipped >> 8 == inverted[1] as bv16;
  }

  /** The low byte is stored first. */
  lemma StoredLowFirst(crc: bv16, inverted: seq<bv8>)
    requires |inverted| >= 2
    ensures Stored(crc, inverted) <==> inverted[0] == Low(!crc) && inverted[1] == High(!crc)
  {
    SameLow(!crc, inverted[0]);
    SameHigh(!crc, inverted[1]);
  }

  lemma SameLow(x: bv16, b: bv8)
    ensures x & 0xff == b as bv16 <==> b == Low(x)
  {
  }

  lemma SameHigh(x: bv16, b: bv8)
    ensures x >> 8 == b as bv16 <==> b == High(x)
  {
  }

  lemma StoredOnce(c: bv16, d: bv16, a: bv16, b: bv16)
    requires !c & 0xff == a && !c >> 8 == b
    requires !d & 0xff == a && !d >> 8 == b
    ensures c == d
  {
  }

  /** The check accepts a message with its own inverted sum, and no message with one byte changed. */
  lemma CheckSeparates(s: seq<bv8>, t: seq<bv8>, k: nat, start: bv16, inverted: seq<bv8>)
    requires OneByteOff(s, t, k) && |inverted| >= 2 && Stored(Crc16(s, start), inverted)
    ensures !Stored(Crc16(t, start), inverted)
  {
    OneByteDetected(s, t, k, start);
    var a, b, c, d := inverted[0] as bv16, inverted[1] as bv16, Crc16(s, start), Crc16(t, start);
    if Stored(d, inverted) {
      StoredOnce(c, d, a, b);
    }
  }

  // ----- Known sums -----

  // The ASCII digits 1 to 9
  const DIGITS: seq<bv8> := [0x31, 0x32, 0x33, 0x34, 0x35, 0x36, 0x37, 0x38, 0x39]

  lemma FoldOne<W>(update: (W, bv8) -> W, s: seq<bv8>, b: bv8, start: W)
    ensures Fold(update, s + [b], start) == update(Fold(update, s, start), b)
  {
    assert (s + [b])[..|s|] == s;
  }

  /** The sum of a prefix after one more byte. */
  lemma FoldPrefix<W>(update: (W, bv8) -> W, s: seq<bv8>, k: nat, start: W)
    requires k < |s|
    ensures Fold(update, s[..k + 1], start) == update(Fold(update, s[..k], start), s[k])
  {
    assert s[..k + 1] == s[..k] + [s[k]];
    FoldOne(update, s[..k], s[k], start);
  }

  lemma NineUpdates<W>(update: (W, bv8) -> W, s: seq<bv8>, start: W)
    requires |s| == 9
    ensures var third := update(update(update(start, s[0]), s[1]), s[2]);
            var sixth := update(update(update(third, s[3]), s[4]), s[5]);
            Fold(update, s, start) == update(update(update(sixth, s[6]), s[7]), s[8])
  {
    assert s[..0] == [] && s[..9] == s;
    FoldPrefix(update, s, 0, start);
    FoldPrefix(update, s, 1, start);
    FoldPrefix(update, s, 2, start);
    FoldPrefix(update, s, 3, start);
    FoldPrefix(update, s, 4, start);
    FoldPrefix(update, s, 5, start);
    FoldPrefix(update, s, 6, start);
    FoldPrefix(update, s, 7, start);
    FoldPrefix(update, s, 8, start);
  }

  lemma CcittOfDigits()
    ensures Ccitt(DIGITS, 0xffff) == 0x6f91
  {
    NineUpdates(CcittUpdate, DIGITS, 0xffff);
    assert CcittUpdate(0xffff, 0x31) == 0x2f8d && CcittUpdate(0x2f8d, 0x32) == 0x4d53;
    assert CcittUpdate(0x4d53, 0x33) == 0x634b && CcittUpdate(0x634b, 0x34) == 0x8b13;
    assert CcittUpdate(0x8b13, 0x35) == 0x44bf && CcittUpdate(0x44bf, 0x36) == 0x198d;
    assert CcittUpdate(0x198d, 0x37) == 0x1ac8 && CcittUpdate(0x1ac8, 0x38) == 0xf795;
    assert CcittUpdate(0xf795, 0x39) == 0x6f91;
  }

  lemma Update8Value(crc: bv8, data: bv8, sum: bv8)
    requires sum == Full8(crc ^ data)
    ensures Update8(crc, data) == sum
  {
    FullIsSteps(crc ^ data);
  }

  lemma Update16Value(crc: bv16, data: bv8, sum: bv16)
    requires sum == Full16(crc ^ data as bv16)
    ensures Update16(crc, data) == sum
  {
    Full16IsSteps(crc ^ data as bv16);
  }

  lemma Crc8OfDigits()
    ensures Crc8(DIGITS) == 0xa1
  {
    NineUpdates(Update8, DIGITS, 0);
    Update8Value(0, 0x31, 0xe0);
    Update8Value(0xe0, 0x32, 0xeb);
    Update8Value(0xeb, 0x33, 0x95);
    Update8Value(0x95, 0x34, 0xf1);
    Update8Value(0xf1, 0x35, 0xab);
    Update8Value(0xab, 0x36, 0xec);
    Update8Value(0xec, 0x37, 0x77);
    Update8Value(0x77, 0x38, 0x7);
    Update8Value(0x7, 0x39, 0xa1);
  }

  lemma Crc16OfDigits()
    ensures Crc16(DIGITS, 0) == 0xbb3d
  {
    NineUpdates(Update16, DIGITS, 0);
    Update16Value(0, 0x31, 0xd4c1);
    Update16Value(0xd4c1, 0x32, 0x4594);
    Update16Value(0x4594, 0x33, 0xba04);
    Update16Value(0xba04, 0x34, 0x14ba);
    Update16Value(0x14ba, 0x35, 0xa455);
    Update16Value(0xa455, 0x36, 0x29e4);
    Update16Value(0x29e4, 0x37, 0x9d68);
    Update16Value(0x9d68, 0x38, 0x3c9d);
    Update16Value(0x3c9d, 0x39, 0xbb3d);
  }

  /** What the sums are of the digits 1 to 9, as catalogues of CRCs list it; the last one is sent complemented. */
  lemma KnownSums()
    ensures Crc8(DIGITS) == 0xa1 && Crc16(DIGITS, 0) == 0xbb3d && !Ccitt(DIGITS, 0xffff) == 0x906e
    ensures Crc8([]) == 0
  {
    Crc8OfDigits();
    Crc16OfDigits();
    CcittOfDigits();
  }

  // ----- A message followed by its sum -----

  lemma ZeroStays(n: nat)
    ensures Steps8(0, n) == 0
  {
    if n == 0 {
    } else {
      ZeroStays(n - 1);
    }
  }

  lemma XorZero(a: bv8, b: bv8)
    ensures a ^ b == 0 <==> a == b
  {
  }

  /** The sum of a message and one byte more is 0 exactly if the byte is the sum of the message. */
  lemma Crc8Appended(s: seq<bv8>, b: bv8)
    ensures Crc8(s + [b]) == 0 <==> b == Crc8(s)
  {
    FoldOne(Update8, s, b, 0);
    ZeroStays(8);
    XorZero(Crc8(s), b);
    if Steps8(Crc8(s) ^ b, 8) == Steps8(0, 8) {
      Steps8KeepApart(Crc8(s) ^ b, 0, 8);
    }
  }
}

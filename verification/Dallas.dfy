/** The temperature library's uses of the search: enumeration, lookup by index, and its own alarm search. */
module Dallas {
  import opened RomOrder
  import opened OneWire
  import Crc

  function BitValue(b: bool, weight: bv8): bv8 {
    if b then weight else 0
  }

  /** Byte `i` of a ROM, its lowest bit first. */
  function ByteOf(y: Rom, i: nat): bv8
    requires i < 8
  {
    var b := y[8 * i..8 * i + 8];
    BitValue(b[0], 0x01) | BitValue(b[1], 0x02) | BitValue(b[2], 0x04) | BitValue(b[3], 0x08) |
    BitValue(b[4], 0x10) | BitValue(b[5], 0x20) | BitValue(b[6], 0x40) | BitValue(b[7], 0x80)
  }

  /** The last byte of the ROM is the CRC of the others. */
  predicate ValidAddress(y: Rom) {
    Crc.Crc8(seq(7, i requires 0 <= i < 7 => ByteOf(y, i))) == ByteOf(y, 7)
  }

  // The bits of a byte, lowest first
  const WEIGHTS: seq<bv8> := [0x01, 0x02, 0x04, 0x08, 0x10, 0x20, 0x40, 0x80]

  lemma SumOfBits(a: bool, b: bool, c: bool, d: bool, e: bool, f: bool, g: bool, h: bool, x: bv8)
    requires x == (if a then 0x01 else 0) | (if b then 0x02 else 0) | (if c then 0x04 else 0) |
                  (if d then 0x08 else 0) | (if e then 0x10 else 0) | (if f then 0x20 else 0) |
                  (if g then 0x40 else 0) | (if h then 0x80 else 0)
    ensures (a <==> x & 0x01 != 0) && (b <==> x & 0x02 != 0) && (c <==> x & 0x04 != 0) && (d <==> x & 0x08 != 0)
    ensures (e <==> x & 0x10 != 0) && (f <==> x & 0x20 != 0) && (g <==> x & 0x40 != 0) && (h <==> x & 0x80 != 0)
  {
  }

  /** Bit `j` of byte `i` is bit `8 * i + j` of the ROM. */
  lemma BitOfByte(y: Rom, i: nat, j: nat)
    requires i < 8 && j < 8
    ensures ByteOf(y, i) & WEIGHTS[j] != 0 <==> y[8 * i + j]
  {
    var b := y[8 * i..8 * i + 8];
    SumOfBits(b[0], b[1], b[2], b[3], b[4], b[5], b[6], b[7], ByteOf(y, i));
    assert b[j] == y[8 * i + j];
  }

  function RomBytes(y: Rom): seq<bv8> {
    seq(8, i requires 0 <= i < 8 => ByteOf(y, i))
  }

  /** The search refuses the devices whose family byte is 0. */
  lemma FamilyIsFirstByte(y: Rom)
    ensures HasFamily(y) <==> ByteOf(y, 0) != 0
  {
    forall j | 0 <= j < 8
      ensures ByteOf(y, 0) & WEIGHTS[j] != 0 <==> y[j]
    {
      BitOfByte(y, 0, j);
    }
    NoBits(ByteOf(y, 0));
  }

  lemma NoBits(x: bv8)
    ensures x == 0 <==> x & 0x01 == 0 && x & 0x02 == 0 && x & 0x04 == 0 && x & 0x08 == 0 &&
                        x & 0x10 == 0 && x & 0x20 == 0 && x & 0x40 == 0 && x & 0x80 == 0
  {
  }

  /** An address is valid exactly if the CRC of all of its eight bytes is 0. */
  lemma ValidExactly(y: Rom)
    ensures ValidAddress(y) <==> Crc.Crc8(RomBytes(y)) == 0
  {
    var front := seq(7, i requires 0 <= i < 7 => ByteOf(y, i));
    assert RomBytes(y) == front + [ByteOf(y, 7)];
    Crc.Crc8Appended(front, ByteOf(y, 7));
  }

  /** A valid address with one byte changed is not valid. */
  lemma DamagedIsInvalid(y: Rom, z: Rom, k: nat)
    requires ValidAddress(y) && Crc.OneByteOff(RomBytes(y), RomBytes(z), k)
    ensures !ValidAddress(z)
  {
    ValidExactly(y);
    ValidExactly(z);
    Crc.OneByteDetected(RomBytes(y), RomBytes(z), k, 0);
  }

  function ValidCount(list: seq<Rom>): nat {
    if list == [] then 0
    else ValidCount(list[..|list| - 1]) + if ValidAddress(list[|list| - 1]) then 1 else 0
  }

  lemma {:induction false} AllValidCount(list: seq<Rom>)
    requires forall y :: y in list ==> ValidAddress(y)
    ensures ValidCount(list) == |list|
  {
    if list == [] {
    } else {
      AllValidCount(list[..|list| - 1]);
    }
  }

  lemma CountMore(list: seq<Rom>, y: Rom)
    ensures ValidCount(list + [y]) == ValidCount(list) + if ValidAddress(y) then 1 else 0
  {
  }

  lemma CountWraps(n: nat)
    ensures (n % 256 + 1) % 256 == (n + 1) % 256
  {
  }

  /** With valid addresses only, and no more than the counter can hold, the count is the number of devices. */
  lemma CountIsExact(roms: set<Rom>, list: seq<Rom>)
    requires Enumerates(roms, list) && |roms| <= 255 && forall y :: y in roms ==> ValidAddress(y)
    ensures ValidCount(list) % 256 == |roms|
  {
    AllValidCount(list);
  }

  /** `getAddress(index)` looks at place `k` of the enumeration, and what it finds is valid. */
  predicate Looked(list: seq<Rom>, index: nat, k: nat) {
    k < |list| && ValidAddress(list[k]) && if index == 255 then k % 256 == 255 else k == index
  }

  /** With no more than 256 devices that is the place of the index. */
  lemma LooksAtIndex(list: seq<Rom>, index: nat, k: nat)
    requires index < 256 && |list| <= 256
    ensures Looked(list, index, k) <==> k == index < |list| && ValidAddress(list[index])
  {
  }

  /** The depth of the loop at place `at`. */
  predicate Depth(index: nat, at: nat, depth: nat) {
    depth == at % 256 && depth <= index + 1 && (index < 255 ==> depth == at)
  }

  lemma LooksHere(list: seq<Rom>, index: nat, at: nat, depth: nat)
    requires index < 256 && at < |list| && Depth(index, at, depth) && depth <= index
    ensures Looked(list, index, at) <==> depth == index && ValidAddress(list[at])
  {
  }

  lemma NextDepth(index: nat, at: nat, depth: nat)
    requires index < 256 && Depth(index, at, depth) && depth <= index
    ensures Depth(index, at + 1, (depth + 1) % 256)
  {
    CountWraps(at);
  }

  lemma LooksNoFurther(list: seq<Rom>, index: nat, at: nat)
    requires index < at && index < 255
    ensures forall k :: at <= k ==> !Looked(list, index, k)
  {
  }

  lemma IndexesAreDistinct(roms: set<Rom>, list: seq<Rom>, i: nat, j: nat)
    requires Enumerates(roms, list) && i < j < |list|
    ensures list[i] != list[j]
  {
  }

  /** Equally long walks of the same set are in the same state, whichever search has made them. */
  lemma WalksAgree(roms: set<Rom>, list: seq<Rom>, x: Rom, d: nat, last: bool,
                   other: seq<Rom>, y: Rom, e: nat, done: bool)
    requires Returned(roms, list, x, d, last) && Returned(roms, other, y, e, done) && |list| == |other|
    ensures list == other && d == e && last == done
    ensures list != [] ==> x == y
  {
    forall i | 0 <= i < |list|
      ensures list[i] == other[i]
    {
      ChainsAgree(roms, list, other, i);
    }
    if list != [] {
      JunctionUnique(roms, x, d, e);
    }
  }

  class Sensors {
    const wire: Master
    var devices: nat
    const alarmSearchAddress: array<bool>
    var alarmSearchJunction: int
    var alarmSearchExhausted: bool

    ghost predicate Valid()
      reads this, wire
    {
      && wire.Valid()
      && alarmSearchAddress != wire.rom && alarmSearchAddress.Length == BITS
    }

    /** The bus is one on which the search can find every device. */
    ghost predicate FamiliesKnown() {
      wire.bus.Sane() && forall y :: y in wire.bus.devices ==> HasFamily(y)
    }

    constructor (wire: Master)
      requires wire.Valid()
      ensures Valid() && this.wire == wire
    {
      this.wire := wire;
      devices := 0;
      alarmSearchAddress := new bool[BITS](_ => false);
      alarmSearchJunction, alarmSearchExhausted := -1, false;
    }

    /** The search state of the wire after a normal or conditional search has returned `list`. */
    ghost predicate WireReturned(normal: bool, list: seq<Rom>)
      reads wire, wire.rom
      requires wire.Valid()
    {
      Returned(wire.Searched(normal), list, wire.RomNo(), wire.lastDiscrepancy, wire.lastDeviceFlag)
    }

    /** One more search of a walk: the next ROM, or the end and a fresh start. */
    method SearchOn(normal: bool, ghost list: seq<Rom>) returns (found: bool, addr: Rom)
      requires Valid() && FamiliesKnown() && WireReturned(normal, list)
      modifies wire, wire.rom, wire.bus
      ensures Valid()
      ensures found ==> WireReturned(normal, list + [addr])
      ensures !found ==> Enumerates(wire.Searched(normal), list) && wire.AtStart()
    {
      ghost var roms, x, d, last := wire.Searched(normal), wire.RomNo(), wire.lastDiscrepancy, wire.lastDeviceFlag;
      found, addr := wire.Search(normal);
      if last || roms == {} {
        ReturnedAll(roms, list, x, d, last);
      } else {
        assert wire.RomNo() in roms;
        ReturnedMore(roms, list, x, d, addr, wire.lastDiscrepancy);
      }
    }

    /** Counts the devices whose address is valid, in an 8-bit counter. */
    method Begin() returns (ghost list: seq<Rom>)
      requires Valid() && FamiliesKnown()
      modifies this`devices, wire, wire.rom, wire.bus
      ensures Valid() && wire.AtStart()
      ensures Enumerates(wire.bus.devices, list)
      ensures devices == ValidCount(list) % 256
    {
      wire.ResetSearch();
      devices := 0;
      list := [];
      while true
        invariant Valid() && WireReturned(true, list)
        invariant devices == ValidCount(list) % 256
        decreases |wire.bus.devices| - |list|
      {
        var found, addr := SearchOn(true, list);
        if !found {
          return;
        }
        ChainFits(wire.bus.devices, list + [addr]);
        Count(addr, list);
        list := list + [addr];
      }
    }

    method Count(addr: Rom, ghost list: seq<Rom>)
      requires devices == ValidCount(list) % 256
      modifies this`devices
      ensures devices == ValidCount(list + [addr]) % 256
    {
      CountMore(list, addr);
      var valid := ValidAddress(addr);
      if valid {
        CountWraps(ValidCount(list));
        devices := (devices + 1) % 256;
      }
    }

    /** The search state after the ROMs of `list` before place `n`. */
    ghost predicate Walked(list: seq<Rom>, n: nat)
      reads wire, wire.rom
      requires wire.Valid()
    {
      n <= |list| && WireReturned(true, list[..n])
    }

    /** One more search of a walk whose end is known. */
    method NextOf(ghost list: seq<Rom>, ghost n: nat) returns (found: bool, addr: Rom)
      requires Valid() && FamiliesKnown() && Enumerates(wire.bus.devices, list) && Walked(list, n)
      modifies wire, wire.rom, wire.bus
      ensures Valid() && (found <==> n < |list|)
      ensures found ==> addr == list[n] && Walked(list, n + 1)
    {
      found, addr := SearchOn(true, list[..n]);
      if found {
        EnumerationIsChain(wire.bus.devices, list);
        ChainFits(wire.bus.devices, list[..n] + [addr]);
        ChainsAgree(wire.bus.devices, list[..n] + [addr], list, n);
        assert list[..n + 1] == list[..n] + [addr];
      }
    }

    /** The address of device number `index`, if there are so many and it is valid.  The depth has 8 bits. */
    method GetAddress(index: nat, ghost list: seq<Rom>) returns (ok: bool, addr: Rom, ghost at: nat)
      requires Valid() && FamiliesKnown() && index < 256 && Enumerates(wire.bus.devices, list)
      modifies wire, wire.rom, wire.bus
      ensures Valid()
      ensures ok ==> Looked(list, index, at) && addr == list[at]
      ensures forall k :: 0 <= k && (ok ==> k < at) ==> !Looked(list, index, k)
    {
      var depth: nat := 0;
      wire.ResetSearch();
      addr := seq(BITS, _ => false);
      at := 0;
      assert list[..0] == [];
      while depth <= index
        invariant Valid() && Walked(list, at) && Depth(index, at, depth)
        invariant forall k :: 0 <= k < at ==> !Looked(list, index, k)
        decreases |list| - at
      {
        var found;
        found, addr := NextOf(list, at);
        if !found {
          return false, addr, at;
        }
        LooksHere(list, index, at, depth);
        if depth == index {
          var valid := ValidAddress(addr);
          if valid {
            return true, addr, at;
          }
        }
        NextDepth(index, at, depth);
        depth := (depth + 1) % 256;
        at := at + 1;
      }
      LooksNoFurther(list, index, at);
      return false, addr, at;
    }

    // ----- The alarm search -----

    ghost function AlarmAddress(): Rom
      reads this, alarmSearchAddress, wire
      requires Valid()
    {
      alarmSearchAddress[..]
    }

    /** The state of the alarm search after `list`.  The junction is a bit index, or -1 for none. */
    ghost predicate AlarmReturned(list: seq<Rom>)
      reads this, alarmSearchAddress, wire
      requires Valid()
    {
      && -1 <= alarmSearchJunction < BITS
      && Returned(wire.bus.alarming, list, AlarmAddress(), alarmSearchJunction + 1, alarmSearchExhausted)
    }

    /** Byte 7 of the address is left as it is. */
    method ResetAlarmSearch()
      requires Valid()
      modifies this`alarmSearchJunction, this`alarmSearchExhausted, alarmSearchAddress
      ensures Valid() && AlarmReturned([])
      ensures forall k :: 56 <= k < BITS ==> alarmSearchAddress[k] == old(alarmSearchAddress[k])
    {
      alarmSearchJunction, alarmSearchExhausted := -1, false;
      var i := 0;
      while i < 56
        invariant 0 <= i <= 56
        invariant forall k :: 56 <= k < BITS ==> alarmSearchAddress[k] == old(alarmSearchAddress[k])
        modifies alarmSearchAddress
      {
        alarmSearchAddress[i] := false;
        i := i + 1;
      }
    }

    /** How the two junction variables stand to the last 0 picked so far: `first` is the junction at the start. */
    ghost predicate Junctions(first: int, i: nat, lastJunction: int, done: bool, lastZero: nat)
      reads this
    {
      && (if i <= first then alarmSearchJunction == first && lastJunction + 1 == lastZero
          else alarmSearchJunction + 1 == lastZero)
      && (done <==> lastZero == 0)
    }

    /** What the search does at bit `i` with the two bits read, other than both 1. */
    method AlarmPick(i: nat, a0: bool, nota: bool, ghost first: int, lastJunction0: int, done0: bool, ghost zero: nat)
      returns (a: bool, lastJunction: int, done: bool, ghost lastZero: nat)
      requires Valid() && i < BITS && !(a0 && nota) && Junctions(first, i, lastJunction0, done0, zero)
      requires zero <= i && -1 <= first && (i == first ==> !a0 && !nota)
      modifies this`alarmSearchJunction
      ensures a == Direction(a0, nota, i, first + 1, alarmSearchAddress[i])
      ensures lastZero == if a0 == nota && !a then i + 1 else zero
      ensures Junctions(first, i + 1, lastJunction, done, lastZero)
    {
      a, lastJunction, done, lastZero := a0, lastJunction0, done0, zero;
      if !a0 && !nota {
        if i == alarmSearchJunction {
          a := true;
          alarmSearchJunction := lastJunction;
        } else if i < alarmSearchJunction {
          if alarmSearchAddress[i] {
            a := true;
          } else {
            a := false;
            done := false;
            lastJunction := i;
            lastZero := i + 1;
          }
        } else {
          a := false;
          alarmSearchJunction := i;
          done := false;
          lastZero := i + 1;
        }
      }
    }

    /** One turn of the alarm search loop; `present` is false when no slave answers. */
    method AlarmBit(ghost roms: set<Rom>, ghost x: Rom, ghost first: int, i: nat,
                    lastJunction0: int, done0: bool, ghost zero: nat)
      returns (present: bool, lastJunction: int, done: bool, ghost lastZero: nat)
      requires Valid() && i < BITS && wire.bus.pos == i && wire.bus.turn == 0 && -1 <= first
      requires if roms == {} then wire.bus.listening == {} else
               Walking(roms, x, first + 1, AlarmAddress(), i, zero, wire.bus.listening)
      requires first >= 0 ==> x in roms && Fork(roms, x, first + 1)
      requires Junctions(first, i, lastJunction0, done0, zero)
      modifies this`alarmSearchJunction, alarmSearchAddress, wire.bus
      ensures Valid() && (present <==> roms != {})
      ensures present ==> wire.bus.pos == i + 1 && wire.bus.turn == 0
      ensures present ==> Walking(roms, x, first + 1, AlarmAddress(), i + 1, lastZero, wire.bus.listening)
      ensures present ==> Junctions(first, i + 1, lastJunction, done, lastZero)
      ensures !present ==> AlarmAddress() == old(AlarmAddress()) && alarmSearchJunction == old(alarmSearchJunction)
    {
      ghost var y, listening := AlarmAddress(), wire.bus.listening;
      var a, nota := wire.bus.ReadPair();
      if roms != {} {
        WalkStep(roms, x, first + 1, y, i, zero, listening, a, nota);
      }
      lastJunction, done, lastZero := lastJunction0, done0, zero;
      if a && nota {
        return false, lastJunction, done, lastZero;
      }
      present := true;
      if i == first {
        JunctionConflicts(roms, x, y, i, zero, listening, a, nota);
      }
      a, lastJunction, done, lastZero := AlarmPick(i, a, nota, first, lastJunction, done, lastZero);
      Take(i, a);
    }

    method Take(i: nat, a: bool)
      requires Valid() && i < BITS && wire.bus.pos == i && wire.bus.turn == 2
      modifies alarmSearchAddress, wire.bus
      ensures Valid() && wire.bus.pos == i + 1 && wire.bus.turn == 0
      ensures AlarmAddress() == old(AlarmAddress())[i := a]
      ensures wire.bus.listening == Going(old(wire.bus.listening), i, a)
    {
      alarmSearchAddress[i] := a;
      wire.bus.WriteBit(a);
    }

    /** Before bit `i` of the loop: nobody takes part, or the walk has come so far. */
    ghost predicate AtBit(roms: set<Rom>, x: Rom, first: int, i: nat, zero: nat)
      reads this, alarmSearchAddress, wire, wire.bus
      requires Valid() && i <= BITS && -1 <= first
    {
      && wire.bus.pos == i && wire.bus.turn == 0
      && if roms == {} then i == 0 && wire.bus.listening == {} && AlarmAddress() == x && alarmSearchJunction == first
         else Walking(roms, x, first + 1, AlarmAddress(), i, zero, wire.bus.listening)
    }

    /** The alarm search loop. */
    method AlarmLoop(ghost roms: set<Rom>, ghost x: Rom, ghost first: int)
      returns (present: bool, done: bool, ghost lastZero: nat)
      requires Valid() && -1 <= first < BITS && AtBit(roms, x, first, 0, 0)
      requires first >= 0 ==> x in roms && Fork(roms, x, first + 1)
      requires Junctions(first, 0, -1, true, 0)
      modifies this`alarmSearchJunction, alarmSearchAddress, wire.bus
      ensures Valid() && (present <==> roms != {})
      ensures present ==> Walking(roms, x, first + 1, AlarmAddress(), BITS, lastZero, wire.bus.listening)
      ensures present ==> alarmSearchJunction + 1 == lastZero && (done <==> lastZero == 0)
      ensures !present ==> AlarmAddress() == x && alarmSearchJunction == first
    {
      var lastJunction := -1;
      done, lastZero := true, 0;
      var i := 0;
      while i < BITS
        invariant Valid() && 0 <= i <= BITS
        invariant AtBit(roms, x, first, i, lastZero) && Junctions(first, i, lastJunction, done, lastZero)
      {
        present, lastJunction, done, lastZero := AlarmBit(roms, x, first, i, lastJunction, done, lastZero);
        if !present {
          return;
        }
        i := i + 1;
      }
      present := true;
    }

    method AlarmDescend(ghost roms: set<Rom>, ghost x: Rom, ghost first: int)
      returns (present: bool, done: bool, ghost lastZero: nat)
      requires Valid() && wire.bus.pos == 0 && wire.bus.turn == 0 && wire.bus.listening == roms
      requires x == AlarmAddress() && -1 <= first == alarmSearchJunction < BITS
      requires first >= 0 ==> x in roms && Fork(roms, x, first + 1)
      modifies this`alarmSearchJunction, alarmSearchAddress, wire.bus
      ensures Valid() && (present <==> roms != {})
      ensures present ==> Arrives(roms, x, first + 1, AlarmAddress())
      ensures present ==> IsJunction(roms, AlarmAddress(), lastZero, BITS)
      ensures present ==> alarmSearchJunction + 1 == lastZero && (done <==> lastZero == 0)
      ensures !present ==> AlarmAddress() == x && alarmSearchJunction == first
    {
      if roms != {} {
        WalkStart(roms, x, first + 1);
      }
      present, done, lastZero := AlarmLoop(roms, x, first);
      if present {
        WalkEnd(roms, x, first + 1, AlarmAddress(), lastZero, wire.bus.listening);
      }
    }

    /** One alarm search.  Unlike `Search` it stays at the end until it is reset. */
    method AlarmSearch(ghost list: seq<Rom>) returns (found: bool, newAddr: Rom)
      requires Valid() && wire.bus.Sane() && AlarmReturned(list)
      modifies this`alarmSearchJunction, this`alarmSearchExhausted, alarmSearchAddress, wire.bus
      ensures Valid()
      ensures found ==> AlarmReturned(list + [newAddr])
      ensures !found ==> Enumerates(wire.bus.alarming, list) && AlarmReturned(list)
    {
      newAddr := seq(BITS, _ => false);
      found := false;
      ghost var roms, x, first := wire.bus.alarming, AlarmAddress(), alarmSearchJunction;
      if alarmSearchExhausted || roms == {} {
        ReturnedAll(roms, list, x, first + 1, alarmSearchExhausted);
      }
      if alarmSearchExhausted {
        return;
      }
      var present := wire.bus.Reset();
      if !present {
        return;
      }
      wire.bus.Write(CONDITIONAL_SEARCH);
      if list != [] {
        LastIsMember(roms, list);
      }
      var done;
      ghost var lastZero;
      present, done, lastZero := AlarmDescend(roms, x, first);
      if !present {
        return;
      }
      ReturnedMore(roms, list, x, first + 1, AlarmAddress(), lastZero);
      if done {
        alarmSearchExhausted := true;
      }
      newAddr := alarmSearchAddress[..];
      found := true;
    }

    /** The alarm search and the conditional search, having returned the same, return the same next. */
    method SearchBoth(ghost list: seq<Rom>) returns (found: bool, addr: Rom, alarmFound: bool, alarmAddr: Rom)
      requires Valid() && FamiliesKnown() && WireReturned(false, list) && AlarmReturned(list)
      modifies this`alarmSearchJunction, this`alarmSearchExhausted, alarmSearchAddress, wire, wire.rom, wire.bus
      ensures Valid() && found == alarmFound
      ensures found ==> addr == alarmAddr && WireReturned(false, list + [addr]) && AlarmReturned(list + [addr])
      ensures !found ==> Enumerates(wire.bus.alarming, list)
    {
      ghost var roms := wire.bus.alarming;
      alarmFound, alarmAddr := AlarmSearch(list);
      found, addr := SearchOn(false, list);
      if found {
        ChainFits(roms, list + [addr]);
      }
      if alarmFound {
        ChainFits(roms, list + [alarmAddr]);
      }
      if found && alarmFound {
        ChainsAgree(roms, list + [addr], list + [alarmAddr], |list|);
      }
    }
  }
}

/** The 1-Wire ROM search over a bus of fixed devices. */
module OneWire {
  import opened RomOrder

  const NORMAL_SEARCH := 0xF0
  const CONDITIONAL_SEARCH := 0xEC

  /** The ROMs whose bit `k` is `direction`. */
  function Going(roms: set<Rom>, k: nat, direction: bool): set<Rom>
    requires k < BITS
  {
    set z | z in roms && z[k] == direction
  }

  /** No ROM puts a 0 on the wire, be it for bit `k` itself or for its complement. */
  predicate NonePulls(roms: set<Rom>, k: nat, itself: bool)
    requires k < BITS
  {
    forall z :: z in roms ==> z[k] == itself
  }

  /** The slaves on the wire.  A line that any of them pulls low reads 0. */
  class Bus {
    const devices: set<Rom>
    const alarming: set<Rom>
    // The slaves still taking part, the bit they have come to, and what they expect next:
    // 0 the bit is read, 1 its complement is read, 2 the direction is written
    var listening: set<Rom>
    var pos: nat
    var turn: nat

    constructor (devices: set<Rom>, alarming: set<Rom>)
      requires alarming <= devices
      ensures this.devices == devices && this.alarming == alarming && Sane()
    {
      this.devices, this.alarming := devices, alarming;
      listening, pos, turn := {}, 0, 0;
    }

    /** Only devices on the bus can raise an alarm. */
    predicate Sane() {
      alarming <= devices
    }

    function Addressed(command: int): set<Rom> {
      if command == NORMAL_SEARCH then devices else if command == CONDITIONAL_SEARCH then alarming else {}
    }

    method Reset() returns (present: bool)
      modifies this
      ensures present <==> devices != {}
      ensures listening == {}
    {
      listening, pos, turn := {}, 0, 0;
      present := devices != {};
    }

    method Write(command: int)
      modifies this
      ensures listening == Addressed(command) && pos == 0 && turn == 0
    {
      listening, pos, turn := Addressed(command), 0, 0;
    }

    method ReadBit() returns (bit: bool)
      requires turn < 2 && pos < BITS
      modifies this`turn
      ensures turn == old(turn) + 1
      ensures bit == NonePulls(listening, pos, old(turn) == 0)
    {
      bit := NonePulls(listening, pos, turn == 0);
      turn := turn + 1;
    }

    /** The bit and then its complement. */
    method ReadPair() returns (bit: bool, complement: bool)
      requires turn == 0 && pos < BITS
      modifies this`turn
      ensures turn == 2
      ensures Reads(listening, pos, bit, complement)
    {
      bit := ReadBit();
      complement := ReadBit();
    }

    method WriteBit(direction: bool)
      requires turn == 2 && pos < BITS
      modifies this
      ensures listening == old(Going(listening, pos, direction))
      ensures pos == old(pos) + 1 && turn == 0
    {
      listening := Going(listening, pos, direction);
      pos, turn := pos + 1, 0;
    }
  }

  // ----- The walk down the tree of ROMs -----

  ghost function Branch(roms: set<Rom>, y: Rom, k: nat): set<Rom>
    requires k <= BITS
  {
    set z | z in roms && z[..k] == y[..k]
  }

  function Min(a: nat, b: nat): nat {
    if a < b then a else b
  }

  /** As long as some ROM goes the way of `x`, the walk does too, up to the bit before number `d`. */
  ghost predicate Follows(roms: set<Rom>, x: Rom, d: nat, y: Rom, k: nat)
    requires k <= BITS
  {
    forall m: nat, z :: m < d && m <= BITS && z in roms && z[..m] == x[..m] ==> y[..Min(k, m)] == x[..Min(k, m)]
  }

  /** A fork of `x` at bit number `d` is turned to 1. */
  ghost predicate Turns(roms: set<Rom>, x: Rom, d: nat, y: Rom, k: nat) {
    0 < d <= k <= BITS && x in roms && Fork(roms, x, d) ==> LessAt(x, y, d - 1)
  }

  ghost predicate LeastSoFar(roms: set<Rom>, y: Rom, d: nat, k: nat)
    requires k <= BITS
  {
    forall z :: z in roms && z[..Min(k, d)] == y[..Min(k, d)] && z[..k] != y[..k] ==> Less(y, z)
  }

  ghost predicate Walking(roms: set<Rom>, x: Rom, d: nat, y: Rom, k: nat, lastZero: nat, listening: set<Rom>) {
    && k <= BITS && d <= BITS
    && listening == Branch(roms, y, k) && listening != {}
    && y[k..] == x[k..]
    && Follows(roms, x, d, y, k)
    && Turns(roms, x, d, y, k)
    && LeastSoFar(roms, y, d, k)
    && IsJunction(roms, y, lastZero, k)
  }

  /** At the junction of the last ROM both values are on the wire. */
  lemma JunctionConflicts(roms: set<Rom>, x: Rom, y: Rom, k: nat, lastZero: nat, listening: set<Rom>,
                          idBit: bool, cmpBit: bool)
    requires Walking(roms, x, k + 1, y, k, lastZero, listening) && k < BITS
    requires Reads(listening, k, idBit, cmpBit)
    requires x in roms && Fork(roms, x, k + 1)
    ensures !idBit && !cmpBit
  {
    assert Min(k, k) == k && y[..k] == x[..k];
    var z :| z in roms && LessAt(x, z, k);
    assert x in listening && z in listening;
  }

  /** What the master reads at bit `k`, and the direction it takes. */
  ghost predicate Reads(listening: set<Rom>, k: nat, idBit: bool, cmpBit: bool)
    requires k < BITS
  {
    && (idBit <==> NonePulls(listening, k, true))
    && (cmpBit <==> NonePulls(listening, k, false))
  }

  function Direction(idBit: bool, cmpBit: bool, k: nat, d: nat, old_: bool): bool {
    if idBit != cmpBit then idBit else if k + 1 < d then old_ else k + 1 == d
  }

  lemma SamePrefix(y: Rom, t: Rom, k: nat, m: nat)
    requires m <= k < BITS && t == y[k := t[k]]
    ensures t[..m] == y[..m]
  {
  }

  lemma OneMore(y: Rom, k: nat)
    requires k < BITS
    ensures y[..k + 1] == y[..k] + [y[k]]
  {
  }

  lemma BranchStep(roms: set<Rom>, y: Rom, t: Rom, k: nat)
    requires k < BITS && t == y[k := t[k]]
    ensures Branch(roms, t, k + 1) == Going(Branch(roms, y, k), k, t[k])
  {
  }

  lemma FollowsStep(roms: set<Rom>, x: Rom, d: nat, y: Rom, t: Rom, k: nat,
                    listening: set<Rom>, idBit: bool, cmpBit: bool)
    requires k < BITS && listening == Branch(roms, y, k) && Reads(listening, k, idBit, cmpBit)
    requires y[k] == x[k] && Follows(roms, x, d, y, k)
    requires t == y[k := Direction(idBit, cmpBit, k, d, y[k])]
    ensures Follows(roms, x, d, t, k + 1)
  {
    forall m: nat, z | m < d && m <= BITS && z in roms && z[..m] == x[..m]
      ensures t[..Min(k + 1, m)] == x[..Min(k + 1, m)]
    {
      if m <= k {
        assert Min(k, m) == m && Min(k + 1, m) == m && y[..m] == x[..m];
        SamePrefix(y, t, k, m);
      } else {
        SamePrefix(y, t, k, k);
        assert Min(k, m) == k && y[..k] == x[..k];
        assert z[..m][..k] == z[..k] && x[..m][..k] == x[..k];
        assert z[..m][k] == z[k] && x[..m][k] == x[k];
        assert z in listening && t[k] == x[k];
        OneMore(t, k);
        OneMore(x, k);
        assert Min(k + 1, m) == k + 1;
      }
    }
  }

  lemma TurnsStep(roms: set<Rom>, x: Rom, d: nat, y: Rom, t: Rom, k: nat,
                  listening: set<Rom>, idBit: bool, cmpBit: bool)
    requires k < BITS && listening == Branch(roms, y, k) && Reads(listening, k, idBit, cmpBit)
    requires Follows(roms, x, d, y, k) && Turns(roms, x, d, y, k)
    requires t == y[k := Direction(idBit, cmpBit, k, d, y[k])]
    ensures Turns(roms, x, d, t, k + 1)
  {
    if 0 < d <= k + 1 && x in roms && Fork(roms, x, d) {
      SamePrefix(y, t, k, d - 1);
      if d == k + 1 {
        assert Min(k, k) == k && y[..k] == x[..k];
        var z :| z in roms && LessAt(x, z, k);
        assert x in listening && z in listening;
      }
    }
  }

  lemma LongerDiffers(y: Rom, z: Rom, k: nat, p: nat)
    requires k <= p <= BITS && z[..k] != y[..k]
    ensures z[..p] != y[..p]
  {
  }

  lemma LessKept(y: Rom, t: Rom, z: Rom, k: nat)
    requires k < BITS && t == y[k := t[k]]
    requires Less(y, z) && z[..k] != y[..k]
    ensures Less(t, z)
  {
    forall p: nat | k <= p < BITS
      ensures !LessAt(y, z, p)
    {
      LongerDiffers(y, z, k, p);
    }
    var p: nat :| LessAt(y, z, p);
    SamePrefix(y, t, k, p);
    assert LessAt(t, z, p);
  }

  lemma LeastStep(roms: set<Rom>, d: nat, y: Rom, t: Rom, k: nat, listening: set<Rom>, idBit: bool, cmpBit: bool)
    requires k < BITS && listening == Branch(roms, y, k) && Reads(listening, k, idBit, cmpBit)
    requires LeastSoFar(roms, y, d, k)
    requires t == y[k := Direction(idBit, cmpBit, k, d, y[k])]
    ensures LeastSoFar(roms, t, d, k + 1)
  {
    forall z | z in roms && z[..Min(k + 1, d)] == t[..Min(k + 1, d)] && z[..k + 1] != t[..k + 1]
      ensures Less(t, z)
    {
      SamePrefix(y, t, k, k);
      OneMore(t, k);
      OneMore(z, k);
      if z[..k] != y[..k] {
        var m, n := Min(k, d), Min(k + 1, d);
        assert z[..n][..m] == z[..m] && t[..n][..m] == t[..m];
        SamePrefix(y, t, k, m);
        LessKept(y, t, z, k);
      } else {
        assert z in listening;
        assert LessAt(t, z, k);
      }
    }
  }

  lemma JunctionStep(roms: set<Rom>, d: nat, y: Rom, t: Rom, k: nat, listening: set<Rom>,
                     idBit: bool, cmpBit: bool, lastZero: nat)
    requires k < BITS && listening == Branch(roms, y, k) && listening != {} && Reads(listening, k, idBit, cmpBit)
    requires IsJunction(roms, y, lastZero, k)
    requires t == y[k := Direction(idBit, cmpBit, k, d, y[k])]
    ensures IsJunction(roms, t, if idBit == cmpBit && !t[k] then k + 1 else lastZero, k + 1)
  {
    forall j | 0 < j <= k
      ensures Fork(roms, t, j) <==> Fork(roms, y, j)
    {
      SamePrefix(y, t, k, j - 1);
      forall z | z in roms
        ensures LessAt(t, z, j - 1) <==> LessAt(y, z, j - 1)
      {
      }
    }
    SamePrefix(y, t, k, k);
    if idBit == cmpBit && !t[k] {
      var z :| z in listening && z[k];
      assert LessAt(t, z, k);
    } else {
      forall z | z in roms
        ensures !LessAt(t, z, k)
      {
        if z[..k] == t[..k] {
          assert z in listening;
        }
      }
    }
  }

  /** One turn of the search loop. */
  lemma WalkStep(roms: set<Rom>, x: Rom, d: nat, y: Rom, k: nat, lastZero: nat, listening: set<Rom>,
                 idBit: bool, cmpBit: bool)
    requires Walking(roms, x, d, y, k, lastZero, listening) && k < BITS
    requires Reads(listening, k, idBit, cmpBit)
    ensures !(idBit && cmpBit)
    ensures var direction := Direction(idBit, cmpBit, k, d, y[k]);
            Walking(roms, x, d, y[k := direction], k + 1,
                    if idBit == cmpBit && !direction then k + 1 else lastZero,
                    Going(listening, k, direction))
  {
    var t := y[k := Direction(idBit, cmpBit, k, d, y[k])];
    assert y[k] == y[k..][0] == x[k..][0] == x[k];
    BranchStep(roms, y, t, k);
    FollowsStep(roms, x, d, y, t, k, listening, idBit, cmpBit);
    TurnsStep(roms, x, d, y, t, k, listening, idBit, cmpBit);
    LeastStep(roms, d, y, t, k, listening, idBit, cmpBit);
    JunctionStep(roms, d, y, t, k, listening, idBit, cmpBit, lastZero);
    assert t[k + 1..] == y[k..][1..];
    assert x[k + 1..] == x[k..][1..];
    SomeoneListens(listening, k, idBit, cmpBit, t[k]);
  }

  lemma SomeoneListens(listening: set<Rom>, k: nat, idBit: bool, cmpBit: bool, direction: bool)
    requires k < BITS && listening != {} && Reads(listening, k, idBit, cmpBit)
    requires idBit != cmpBit ==> direction == idBit
    ensures !(idBit && cmpBit)
    ensures Going(listening, k, direction) != {}
  {
    var z :| z in listening;
    assert z[k] ==> !cmpBit;
    assert !z[k] ==> !idBit;
    var w :| w in listening && w[k] == direction;
    assert w in Going(listening, k, direction);
  }

  lemma WalkStart(roms: set<Rom>, x: Rom, d: nat)
    requires roms != {} && d <= BITS
    ensures Walking(roms, x, d, x, 0, 0, roms)
  {
  }

  // ----- Where the walk ends -----

  /** The ROM the walk arrives at, starting from the last ROM `x` and its junction `d`. */
  ghost predicate Arrives(roms: set<Rom>, x: Rom, d: nat, y: Rom) {
    && d <= BITS
    && LeastBelow(roms, y, d)
    && Follows(roms, x, d, y, BITS)
    && Turns(roms, x, d, y, BITS)
  }

  lemma WalkEnd(roms: set<Rom>, x: Rom, d: nat, y: Rom, lastZero: nat, listening: set<Rom>)
    requires Walking(roms, x, d, y, BITS, lastZero, listening)
    ensures Arrives(roms, x, d, y) && IsJunction(roms, y, lastZero, BITS)
  {
    assert forall z: Rom :: z[..BITS] == z;
    var z :| z in listening;
    assert z == y;
    assert Min(BITS, d) == d;
  }

  lemma ArrivesFirst(roms: set<Rom>, x: Rom, y: Rom)
    requires Arrives(roms, x, 0, y)
    ensures IsLeast(roms, y)
  {
  }

  lemma ArrivesNext(roms: set<Rom>, x: Rom, d: nat, y: Rom)
    requires Arrives(roms, x, d, y) && x in roms && IsJunction(roms, x, d, BITS) && d > 0
    ensures IsNext(roms, x, y)
  {
    TurnIsNext(roms, x, d, y);
  }

  /** Starting with `d` past the end, a walk reaches a ROM that begins like `x`, if there is one. */
  lemma ArrivesTarget(roms: set<Rom>, x: Rom, y: Rom, n: nat, z: Rom)
    requires Arrives(roms, x, BITS, y) && n < BITS && z in roms && z[..n] == x[..n]
    ensures y[..n] == x[..n]
  {
    assert Min(BITS, n) == n;
  }

  // ----- The master -----

  predicate HasFamily(y: Rom) {
    exists k :: 0 <= k < 8 && y[k]
  }

  class Master {
    const bus: Bus
    const rom: array<bool>
    var lastDiscrepancy: nat
    var lastFamilyDiscrepancy: nat
    var lastDeviceFlag: bool

    ghost predicate Valid()
      reads this
    {
      rom.Length == BITS && lastDiscrepancy <= BITS
    }

    ghost function RomNo(): Rom
      reads this, rom
      requires Valid()
    {
      rom[..]
    }

    /** The next search starts from the beginning. */
    predicate AtStart()
      reads this
    {
      lastDiscrepancy == 0 && !lastDeviceFlag
    }

    constructor (bus: Bus)
      ensures Valid() && AtStart() && this.bus == bus && fresh(rom)
    {
      this.bus := bus;
      rom := new bool[BITS](_ => false);
      lastDiscrepancy, lastFamilyDiscrepancy, lastDeviceFlag := 0, 0, false;
    }

    method ResetSearch()
      requires Valid()
      modifies this, rom
      ensures Valid() && AtStart() && lastFamilyDiscrepancy == 0
      ensures forall k :: 0 <= k < BITS ==> !rom[k]
    {
      lastDiscrepancy, lastDeviceFlag, lastFamilyDiscrepancy := 0, false, 0;
      var i := BITS;
      while i > 0
        invariant 0 <= i <= BITS
        invariant forall k :: i <= k < BITS ==> !rom[k]
        modifies rom
      {
        i := i - 1;
        rom[i] := false;
      }
    }

    /** The next search heads for a device whose first byte is `family`. */
    method TargetSearch(family: seq<bool>)
      requires Valid() && |family| == 8
      modifies this, rom
      ensures Valid() && !lastDeviceFlag && lastDiscrepancy == BITS && lastFamilyDiscrepancy == 0
      ensures RomNo()[..8] == family && forall k :: 8 <= k < BITS ==> !RomNo()[k]
    {
      var i := 0;
      while i < BITS
        invariant 0 <= i <= BITS
        invariant forall k :: 0 <= k < i ==> rom[k] == (k < 8 && family[k])
        modifies rom
      {
        rom[i] := i < 8 && family[i];
        i := i + 1;
      }
      lastDiscrepancy, lastFamilyDiscrepancy, lastDeviceFlag := 64, 0, false;
    }

    /** The direction taken at one bit, and the position of the last 0 picked at a discrepancy. */
    method Pick(idBit: bool, cmpIdBit: bool, idBitNumber: nat, zero: nat) returns (direction: bool, lastZero: nat)
      requires Valid() && 1 <= idBitNumber <= BITS && !(idBit && cmpIdBit)
      modifies this`lastFamilyDiscrepancy
      ensures direction == Direction(idBit, cmpIdBit, idBitNumber - 1, lastDiscrepancy, rom[idBitNumber - 1])
      ensures lastZero == if idBit == cmpIdBit && !direction then idBitNumber else zero
      ensures lastFamilyDiscrepancy ==
              if idBit == cmpIdBit && !direction && idBitNumber < 9 then idBitNumber else old(lastFamilyDiscrepancy)
    {
      lastZero := zero;
      if idBit != cmpIdBit {
        direction := idBit;
      } else {
        if idBitNumber < lastDiscrepancy {
          direction := rom[idBitNumber - 1];
        } else {
          direction := idBitNumber == lastDiscrepancy;
        }
        if !direction {
          lastZero := idBitNumber;
          if lastZero < 9 {
            lastFamilyDiscrepancy := lastZero;
          }
        }
      }
    }

    /** One turn of the search loop; `present` is false when no slave answers. */
    method TakeBit(ghost roms: set<Rom>, ghost x: Rom, idBitNumber: nat, zero: nat)
      returns (present: bool, lastZero: nat)
      requires Valid() && 1 <= idBitNumber <= BITS && bus.pos == idBitNumber - 1 && bus.turn == 0
      requires if roms == {} then bus.listening == {} else
               Walking(roms, x, lastDiscrepancy, RomNo(), idBitNumber - 1, zero, bus.listening)
      modifies rom, bus, this`lastFamilyDiscrepancy
      ensures present <==> roms != {}
      ensures present ==> bus.pos == idBitNumber && bus.turn == 0
      ensures present ==> Walking(roms, x, lastDiscrepancy, RomNo(), idBitNumber, lastZero, bus.listening)
      ensures !present ==> RomNo() == old(RomNo()) && lastZero == zero
    {
      ghost var k, y, listening := idBitNumber - 1, RomNo(), bus.listening;
      var idBit, cmpIdBit := bus.ReadPair();
      if roms != {} {
        WalkStep(roms, x, lastDiscrepancy, y, k, zero, listening, idBit, cmpIdBit);
      }
      lastZero := zero;
      if idBit && cmpIdBit {
        return false, lastZero;
      }
      present := true;
      var direction;
      direction, lastZero := Pick(idBit, cmpIdBit, idBitNumber, lastZero);
      rom[idBitNumber - 1] := direction;
      bus.WriteBit(direction);
      assert RomNo() == y[k := direction];
    }

    /** The search loop. */
    method Descend(ghost roms: set<Rom>) returns (idBitNumber: nat, lastZero: nat)
      requires Valid() && bus.listening == roms && bus.pos == 0 && bus.turn == 0
      modifies rom, bus, this`lastFamilyDiscrepancy
      ensures roms == {} ==> idBitNumber == 1 && RomNo() == old(RomNo())
      ensures roms != {} ==> idBitNumber == BITS + 1 && Arrives(roms, old(RomNo()), lastDiscrepancy, RomNo())
      ensures roms != {} ==> IsJunction(roms, RomNo(), lastZero, BITS)
    {
      idBitNumber, lastZero := 1, 0;
      var byteNumber, bitNumber := 0, 0;
      ghost var x := RomNo();
      if roms != {} {
        WalkStart(roms, x, lastDiscrepancy);
      }
      while byteNumber < 8
        invariant byteNumber <= 8 && bitNumber < 8 && (byteNumber == 8 ==> bitNumber == 0)
        invariant idBitNumber == 8 * byteNumber + bitNumber + 1
        invariant bus.pos == idBitNumber - 1 && bus.turn == 0
        invariant roms == {} ==> bus.listening == {} && idBitNumber == 1 && RomNo() == x
        invariant roms != {} ==>
                    Walking(roms, x, lastDiscrepancy, RomNo(), idBitNumber - 1, lastZero, bus.listening)
        decreases BITS + 1 - idBitNumber
      {
        var present;
        present, lastZero := TakeBit(roms, x, idBitNumber, lastZero);
        if !present {
          break;
        }
        idBitNumber := idBitNumber + 1;
        bitNumber := bitNumber + 1;
        if bitNumber == 8 {
          byteNumber, bitNumber := byteNumber + 1, 0;
        }
      }
      if roms != {} {
        WalkEnd(roms, x, lastDiscrepancy, RomNo(), lastZero, bus.listening);
      }
    }

    function Searched(normal: bool): set<Rom> {
      if normal then bus.devices else bus.alarming
    }

    /** One search.  `newAddr` is the device found. */
    method Search(normal: bool) returns (found: bool, newAddr: Rom)
      requires Valid() && bus.Sane()
      modifies this, rom, bus
      ensures Valid()
      ensures old(lastDeviceFlag) || Searched(normal) == {} ==> !found && AtStart()
      ensures !old(lastDeviceFlag) && Searched(normal) != {} ==>
                && Arrives(Searched(normal), old(RomNo()), old(lastDiscrepancy), RomNo())
                && (found <==> HasFamily(RomNo()))
      ensures found ==>
                && newAddr == RomNo()
                && IsJunction(Searched(normal), newAddr, lastDiscrepancy, BITS)
                && (lastDeviceFlag <==> lastDiscrepancy == 0)
      ensures !found ==> AtStart()
    {
      newAddr := seq(BITS, _ => false);
      found := false;
      if !lastDeviceFlag {
        var present := bus.Reset();
        if !present {
          lastDiscrepancy, lastDeviceFlag, lastFamilyDiscrepancy := 0, false, 0;
          return;
        }
        bus.Write(if normal then NORMAL_SEARCH else CONDITIONAL_SEARCH);
        var idBitNumber, lastZero := Descend(Searched(normal));
        if !(idBitNumber < 65) {
          lastDiscrepancy := lastZero;
          if lastDiscrepancy == 0 {
            lastDeviceFlag := true;
          }
          found := true;
        }
      }
      if !found || !(exists k :: 0 <= k < 8 && rom[k]) {
        lastDiscrepancy, lastDeviceFlag, lastFamilyDiscrepancy := 0, false, 0;
        found := false;
      } else {
        newAddr := rom[..];
      }
    }
  }

  /** After `TargetSearch` the first search finds a device of the family, if there is one on the bus. */
  method FindFamily(master: Master, family: seq<bool>) returns (found: bool, addr: Rom)
    requires master.Valid() && master.bus.Sane()
    requires |family| == 8 && true in family
    modifies master, master.rom, master.bus
    ensures (exists z :: z in master.bus.devices && z[..8] == family) ==>
              found && addr[..8] == family && addr in master.bus.devices
  {
    master.TargetSearch(family);
    ghost var x := master.RomNo();
    found, addr := master.Search(true);
    if z :| z in master.bus.devices && z[..8] == family {
      ArrivesTarget(master.bus.devices, x, master.RomNo(), 8, z);
      var k :| 0 <= k < 8 && family[k];
      assert master.RomNo()[..8][k] == master.RomNo()[k];
    }
  }

  // ----- Whole walks -----

  /** The search state after the ROMs of `list` have been returned, in that order. */
  ghost predicate Returned(roms: set<Rom>, list: seq<Rom>, x: Rom, d: nat, last: bool) {
    && Chain(roms, list)
    && (list == [] ==> d == 0 && !last)
    && (list != [] ==> x == list[|list| - 1] && IsJunction(roms, x, d, BITS) && (last <==> d == 0))
  }

  lemma ReturnedMore(roms: set<Rom>, list: seq<Rom>, x: Rom, d: nat, y: Rom, e: nat)
    requires Returned(roms, list, x, d, false)
    requires Arrives(roms, x, d, y) && IsJunction(roms, y, e, BITS)
    ensures Returned(roms, list + [y], y, e, e == 0)
  {
    if list == [] {
      ArrivesFirst(roms, x, y);
    } else {
      LastIsMember(roms, list);
      ArrivesNext(roms, x, d, y);
    }
    ChainGrows(roms, list, y);
  }

  lemma LastIsMember(roms: set<Rom>, list: seq<Rom>)
    requires Chain(roms, list) && list != []
    ensures list[|list| - 1] in roms
  {
    if |list| > 1 {
      assert IsNext(roms, list[|list| - 2], list[|list| - 1]);
    }
  }

  lemma ReturnedAll(roms: set<Rom>, list: seq<Rom>, x: Rom, d: nat, last: bool)
    requires Returned(roms, list, x, d, last) && (last || roms == {})
    ensures Enumerates(roms, list)
  {
    if list != [] {
      LastIsMember(roms, list);
      NoForkIsLast(roms, x, d);
    }
    ChainEnumerates(roms, list);
  }
}

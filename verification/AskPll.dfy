/** The software PLL and bit slicer of the ASK receiver: eight samples a bit, a ramp of 160. */
module AskPll {
  import opened Common

  const RAMP_LEN := 160
  const RAMP_INC := 20
  const RAMP_TRANSITION := 80
  const RAMP_INC_RETARD := 11
  const RAMP_INC_ADVANCE := 29

  datatype Pll = Pll(ramp: byte, integrator: byte, last: bool)

  function Wrap(x: int): byte
    requires 0 <= x < 512
  {
    if x >= 256 then x - 256 else x
  }

  /** One sample: the new state, and the bit decided if the ramp has come to its end.  Both counters are 8 bits wide. */
  function Sample(p: Pll, s: bool): (Pll, Option<bool>) {
    var integrator := Wrap(p.integrator + if s then 1 else 0);
    var inc := if s != p.last then (if p.ramp < RAMP_TRANSITION then RAMP_INC_RETARD else RAMP_INC_ADVANCE)
               else RAMP_INC;
    var ramp := Wrap(p.ramp + inc);
    if ramp >= RAMP_LEN then (Pll(ramp - RAMP_LEN, 0, s), Some(integrator >= 5))
    else (Pll(ramp, integrator, s), None)
  }

  /** Several samples in a row: the state after them and the bits decided. */
  function Samples(p: Pll, line: seq<bool>): (Pll, seq<bool>) {
    if line == [] then (p, [])
    else
      var (q, bits) := Samples(p, line[..|line| - 1]);
      var (r, bit) := Sample(q, line[|line| - 1]);
      (r, if bit.Some? then bits + [bit.value] else bits)
  }

  lemma {:induction false} SamplesConcat(p: Pll, line: seq<bool>, more: seq<bool>)
    ensures Samples(p, line + more).0 == Samples(Samples(p, line).0, more).0
    ensures Samples(p, line + more).1 == Samples(p, line).1 + Samples(Samples(p, line).0, more).1
  {
    if more == [] {
      assert line + more == line;
    } else {
      var front := more[..|more| - 1];
      assert (line + more)[..|line + more| - 1] == line + front;
      SamplesConcat(p, line, front);
    }
  }

  /** A bit on the line: eight equal samples. */
  // ----- One decision -----

  function Ones(line: seq<bool>): nat {
    if line == [] then 0 else Ones(line[..|line| - 1]) + if line[|line| - 1] then 1 else 0
  }

  /** While nothing is decided the integrator counts the samples at 1, and the ramp goes up. */
  lemma {:induction false} Integrates(p: Pll, line: seq<bool>)
    requires p.ramp < RAMP_LEN && p.integrator == 0 && Samples(p, line).1 == []
    ensures var q := Samples(p, line).0; q.integrator == Ones(line) <= |line| && 11 * |line| <= q.ramp < RAMP_LEN
  {
    if line == [] {
    } else {
      Integrates(p, line[..|line| - 1]);
    }
  }

  /** A bit is decided from the samples since the last decision: it is 1 exactly if five or more of them were. */
  lemma DecidedByCount(p: Pll, line: seq<bool>, s: bool, b: bool)
    requires p.ramp < RAMP_LEN && p.integrator == 0 && Samples(p, line).1 == []
    requires Sample(Samples(p, line).0, s).1 == Some(b)
    ensures b <==> Ones(line + [s]) >= 5
  {
    Integrates(p, line);
    assert (line + [s])[..|line|] == line;
  }

  function Held(b: bool): seq<bool> {
    [b, b, b, b, b, b, b, b]
  }

  function Line(bits: seq<bool>): seq<bool> {
    if bits == [] then [] else Line(bits[..|bits| - 1]) + Held(bits[|bits| - 1])
  }

  // ----- One bit -----

  function Same(b: bool, n: nat): seq<bool> {
    seq(n, _ => b)
  }

  lemma SameMore(b: bool, n: nat)
    requires n > 0
    ensures Same(b, n)[..n - 1] == Same(b, n - 1) && Same(b, n)[n - 1] == b
  {
  }

  /** Samples without a change of level, none of which ends the ramp. */
  lemma {:induction false} Rising(p: Pll, b: bool, n: nat)
    requires p.last == b && n <= 8 && p.integrator <= 247
    requires p.ramp + 20 * n < RAMP_LEN
    ensures Samples(p, Same(b, n)) ==
            (Pll(p.ramp + 20 * n, p.integrator + if b then n else 0, b), [])
  {
    if n == 0 {
    } else {
      Rising(p, b, n - 1);
      SameMore(b, n);
    }
  }

  /** The ramp alone, whether or not it ends on the way. */
  lemma {:induction false} Steady(p: Pll, b: bool, n: nat)
    requires p.last == b && n <= 7 && p.ramp < RAMP_LEN
    ensures var q := Samples(p, Same(b, n)).0;
            && q.last == b
            && q.ramp == if p.ramp + 20 * n < RAMP_LEN then p.ramp + 20 * n
                         else p.ramp + 20 * n - RAMP_LEN
  {
    if n == 0 {
    } else {
      Steady(p, b, n - 1);
      SameMore(b, n);
    }
  }

  /** A bit is its first sample and seven more of the same. */
  lemma HeldSplit(p: Pll, b: bool)
    ensures var (q, bit) := Sample(p, b);
            var (r, more) := Samples(q, Same(b, 7));
            Samples(p, Held(b)) == (r, (if bit.Some? then [bit.value] else []) + more)
  {
    assert Held(b) == [b] + Same(b, 7);
    SamplesConcat(p, [b], Same(b, 7));
    SamplesOne(p, b);
  }

  lemma SamplesOne(p: Pll, b: bool)
    ensures Samples(p, [b]) == (Sample(p, b).0, if Sample(p, b).1.Some? then [Sample(p, b).1.value] else [])
  {
    assert [b][..|[b]| - 1] == [] && [b][|[b]| - 1] == b;
    assert Samples(p, []) == (p, []);
    var bit := Sample(p, b).1;
    if bit.Some? {
      assert [] + [bit.value] == [bit.value];
    }
  }

  /** A run of samples the last of which ends the ramp. */
  lemma EndOfRun(p: Pll, b: bool, n: nat, q: Pll)
    requires n > 0 && Samples(p, Same(b, n - 1)) == (q, [])
    requires q.last == b && q.integrator <= 254 && 140 <= q.ramp < RAMP_LEN
    ensures Samples(p, Same(b, n)) == (Pll(q.ramp - 140, 0, b), [q.integrator + (if b then 1 else 0) >= 5])
  {
    SameMore(b, n);
    EndSample(q, b);
    Alone(q.integrator + (if b then 1 else 0) >= 5);
  }

  lemma EndSample(q: Pll, b: bool)
    requires q.last == b && q.integrator <= 254 && 140 <= q.ramp < RAMP_LEN
    ensures Sample(q, b) == (Pll(q.ramp - 140, 0, b), Some(q.integrator + (if b then 1 else 0) >= 5))
  {
  }

  lemma Alone(b: bool)
    ensures [] + [b] == [b]
  {
  }

  // ----- Locked -----

  /** At a bit boundary, the ramp has just ended: the last bit has been decided. */
  predicate Early(p: Pll) {
    p.ramp <= 8 && p.integrator == 0
  }

  /** At a bit boundary, the ramp is about to end: the last bit is decided at the next sample. */
  predicate Late(p: Pll) {
    151 <= p.ramp < RAMP_LEN && if p.last then 7 <= p.integrator <= 8 else p.integrator == 0
  }

  predicate Locked(p: Pll) {
    Early(p) || Late(p)
  }

  /** The bit on the line that has not been decided yet. */
  function Undecided(p: Pll): seq<bool> {
    if Late(p) then [p.last] else []
  }

  lemma EarlyBit(p: Pll, b: bool)
    requires Early(p)
    ensures var (q, bits) := Samples(p, Held(b)); Locked(q) && bits + Undecided(q) == [b]
  {
    if b == p.last {
      assert Held(b) == Same(b, 8);
      Rising(p, b, 7);
      EndOfRun(p, b, 8, Samples(p, Same(b, 7)).0);
    } else {
      HeldSplit(p, b);
      Rising(Sample(p, b).0, b, 7);
    }
  }

  lemma LateBit(p: Pll, b: bool)
    requires Late(p)
    ensures var (q, bits) := Samples(p, Held(b)); Locked(q) && bits + Undecided(q) == [p.last, b]
  {
    HeldSplit(p, b);
    if b == p.last {
      Rising(Sample(p, b).0, b, 7);
    } else {
      Rising(Sample(p, b).0, b, 6);
      EndOfRun(Sample(p, b).0, b, 7, Samples(Sample(p, b).0, Same(b, 6)).0);
    }
  }

  lemma LockedBit(p: Pll, b: bool)
    requires Locked(p)
    ensures var (q, bits) := Samples(p, Held(b)); Locked(q) && bits + Undecided(q) == Undecided(p) + [b]
  {
    if Early(p) {
      EarlyBit(p, b);
    } else {
      LateBit(p, b);
    }
  }

  /** Bits on the line one after the other. */
  function Bits(p: Pll, bits: seq<bool>): (Pll, seq<bool>) {
    if bits == [] then (p, [])
    else
      var (q, decided) := Bits(p, bits[..|bits| - 1]);
      var (r, more) := Samples(q, Held(bits[|bits| - 1]));
      (r, decided + more)
  }

  lemma {:induction false} BitsAreSamples(p: Pll, bits: seq<bool>)
    ensures Bits(p, bits) == Samples(p, Line(bits))
  {
    if bits == [] {
    } else {
      BitsAreSamples(p, bits[..|bits| - 1]);
      SamplesConcat(p, Line(bits[..|bits| - 1]), Held(bits[|bits| - 1]));
    }
  }

  lemma Glue(decided: seq<bool>, before: seq<bool>, more: seq<bool>, after: seq<bool>,
             first: seq<bool>, front: seq<bool>, b: bool)
    requires decided + before == first + front && more + after == before + [b]
    ensures decided + more + after == first + (front + [b])
  {
    assert decided + more + after == decided + (more + after);
    assert decided + (before + [b]) == decided + before + [b];
    assert first + front + [b] == first + (front + [b]);
  }

  /** Once locked the receiver stays locked, and every bit sent is decided once, in order and correctly. */
  lemma {:induction false} LockedReceives(p: Pll, bits: seq<bool>)
    requires Locked(p)
    ensures var (q, decided) := Bits(p, bits);
            Locked(q) && decided + Undecided(q) == Undecided(p) + bits
  {
    if bits == [] {
    } else {
      var front, b := bits[..|bits| - 1], bits[|bits| - 1];
      LockedReceives(p, front);
      var (q, decided) := Bits(p, front);
      LockedBit(q, b);
      var (r, more) := Samples(q, Held(b));
      Glue(decided, Undecided(q), more, Undecided(r), Undecided(p), front, b);
      assert front + [b] == bits;
    }
  }

  // ----- Locking -----

  /** The ramp after a bit. */
  function RampAfter(ramp: nat, change: bool): int {
    if !change then ramp
    else if ramp < RAMP_TRANSITION then (if ramp < 9 then ramp + 151 else ramp - 9)
    else (if ramp >= 151 then ramp - 151 else ramp + 9)
  }

  predicate InZone(ramp: nat) {
    ramp <= 8 || 151 <= ramp < RAMP_LEN
  }

  /** How many changes of level the ramp still needs to come into the zone. */
  function Distance(ramp: nat): nat {
    if ramp <= 8 || ramp >= 151 then 0
    else if ramp < RAMP_TRANSITION then ramp / 9
    else (159 - ramp) / 9
  }

  lemma BitRamp(p: Pll, b: bool)
    requires p.ramp < RAMP_LEN
    ensures var q := Samples(p, Held(b)).0; q.last == b && q.ramp == RampAfter(p.ramp, b != p.last) < RAMP_LEN
  {
    HeldSplit(p, b);
    Steady(Sample(p, b).0, b, 7);
  }

  lemma Closer(ramp: nat, change: bool)
    requires ramp < RAMP_LEN
    ensures Distance(ramp) <= 8
    ensures Distance(RampAfter(ramp, change)) <=
            if change && Distance(ramp) > 0 then Distance(ramp) - 1 else Distance(ramp)
  {
  }

  /** The integrator has been cleared if the ramp has just ended. */
  predicate Clean(p: Pll) {
    p.ramp <= 8 ==> p.integrator == 0
  }

  lemma BitIsClean(p: Pll, b: bool)
    requires p.ramp < RAMP_LEN
    ensures Clean(Samples(p, Held(b)).0)
  {
  }

  /** A bit that starts clean and ends in the zone ends locked. */
  lemma ZoneIsLocked(p: Pll, b: bool)
    requires p.ramp < RAMP_LEN && Clean(p) && InZone(RampAfter(p.ramp, b != p.last))
    ensures Locked(Samples(p, Held(b)).0)
  {
    BitRamp(p, b);
    BitIsClean(p, b);
    HeldSplit(p, b);
    var q := Sample(p, b).0;
    if q.ramp < 20 {
      Rising(q, b, 7);
    }
  }

  function Changes(last: bool, bits: seq<bool>): nat {
    if bits == [] then 0
    else Changes(last, bits[..|bits| - 1]) +
         if bits[|bits| - 1] != Last(last, bits[..|bits| - 1]) then 1 else 0
  }

  function Last(last: bool, bits: seq<bool>): bool {
    if bits == [] then last else bits[|bits| - 1]
  }

  lemma {:induction false} RampComesCloser(p: Pll, bits: seq<bool>)
    requires p.ramp < RAMP_LEN
    ensures var q := Bits(p, bits).0;
            && q.ramp < RAMP_LEN && q.last == Last(p.last, bits)
            && Distance(q.ramp) <= (if Changes(p.last, bits) >= 8 then 0 else 8 - Changes(p.last, bits))
            && (bits != [] ==> Clean(q))
  {
    Closer(p.ramp, false);
    if bits == [] {
    } else {
      var front, b := bits[..|bits| - 1], bits[|bits| - 1];
      RampComesCloser(p, front);
      var q := Bits(p, front).0;
      BitRamp(q, b);
      BitIsClean(q, b);
      Closer(q.ramp, b != q.last);
    }
  }

  lemma {:induction false} ChangesBound(last: bool, bits: seq<bool>)
    ensures Changes(last, bits) <= |bits|
  {
    if bits == [] {
    } else {
      ChangesBound(last, bits[..|bits| - 1]);
    }
  }

  /** After eight changes of level, from any ramp at all, the receiver is locked. */
  lemma EightChangesLock(p: Pll, bits: seq<bool>)
    requires p.ramp < RAMP_LEN && Changes(p.last, bits) >= 8
    ensures Locked(Bits(p, bits).0)
  {
    ChangesBound(p.last, bits);
    var front, b := bits[..|bits| - 1], bits[|bits| - 1];
    RampComesCloser(p, bits);
    RampComesCloser(p, front);
    var q := Bits(p, front).0;
    BitRamp(q, b);
    ZoneIsLocked(q, b);
  }

  /** A ramp out of range, as an uninitialised one may be, is in range after one sample. */
  lemma AnySampleInRange(p: Pll, s: bool)
    ensures Sample(p, s).0.ramp < RAMP_LEN
  {
  }
}

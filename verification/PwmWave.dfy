/** What a PWM table means: which pins it switches when, and for how long each pin is high.

    `HighTicks` is the reference: it looks only at the sets of switch-on and switch-off times of one
    pin and counts the ticks of a period at which the latest event, going back cyclically, is a
    switch-on.  `ReplayTicks` is what the interrupt routine does with a finished table: run through
    the phases in order, each lasting `ticks + 1`.  The lemmas at the end connect the two.
  */
module PwmWave {
  import opened PinMasks

  type uint32 = x: int | 0 <= x < 0x1_0000_0000

  /** One entry of a phase table: a time (later: a duration) and the pins to switch on and off. */
  datatype Phase = Phase(ticks: uint32, on: Mask, off: Mask)

  // ----- Event times of one pin -----

  ghost function OnTimes(s: seq<Phase>, pin: Pin): set<int> {
    set i | 0 <= i < |s| && pin in s[i].on :: s[i].ticks
  }

  ghost function OffTimes(s: seq<Phase>, pin: Pin): set<int> {
    set i | 0 <= i < |s| && pin in s[i].off :: s[i].ticks
  }

  // ----- Reference meaning -----

  /** How many ticks before `x` the event time `e` lies, going back cyclically. */
  function Back(e: int, x: int, period: int): int {
    if e <= x then x - e else x - e + period
  }

  /** At tick `x` the pin is high: some switch-on is more recent than every switch-off. */
  ghost predicate High(on: set<int>, off: set<int>, period: int, x: int) {
    exists a :: a in on && forall b :: b in off ==> Back(a, x, period) < Back(b, x, period)
  }

  /** The number of ticks in [0, n) at which the pin is high. */
  ghost function HighTicks(on: set<int>, off: set<int>, period: int, n: nat): nat {
    if n == 0 then 0
    else HighTicks(on, off, period, n - 1) + if High(on, off, period, n - 1) then 1 else 0
  }

  /** The cyclic on-time of a pin in a table of absolute times. */
  ghost function OnTime(s: seq<Phase>, period: nat, pin: Pin): nat {
    HighTicks(OnTimes(s, pin), OffTimes(s, pin), period, period)
  }

  ghost predicate Untouched(s: seq<Phase>, pin: Pin) {
    OnTimes(s, pin) == {} && OffTimes(s, pin) == {}
  }

  /** Two tables give the pin the same on-time, and neither or both switch it at all. */
  ghost predicate SameMeaning(s: seq<Phase>, t: seq<Phase>, period: nat, pin: Pin) {
    && OnTime(s, period, pin) == OnTime(t, period, pin)
    && (Untouched(s, pin) <==> Untouched(t, pin))
  }

  ghost predicate SameWaves(s: seq<Phase>, t: seq<Phase>, period: nat) {
    forall pin: Pin :: SameMeaning(s, t, period, pin)
  }

  // ----- Closed forms of the reference meaning -----

  lemma {:induction false} NeverHigh(off: set<int>, period: nat, n: nat)
    ensures HighTicks({}, off, period, n) == 0
  {
    if n == 0 {
    } else {
      NeverHigh(off, period, n - 1);
    }
  }

  lemma {:induction false} AlwaysHigh(a: int, period: nat, n: nat)
    ensures HighTicks({a}, {}, period, n) == n
  {
    if n == 0 {
    } else {
      AlwaysHigh(a, period, n - 1);
      assert a in {a};
      assert High({a}, {}, period, n - 1);
    }
  }

  lemma PairIsHigh(a: int, b: int, period: nat, x: nat)
    requires 0 <= a < period && 0 <= b < period && a != b && x < period
    ensures High({a}, {b}, period, x) <==> if a < b then a <= x < b else !(b <= x < a)
  {
  }

  lemma {:induction false} PairHighPrefix(a: int, b: int, period: nat, n: nat)
    requires 0 <= a < period && 0 <= b < period && a != b && n <= period
    ensures HighTicks({a}, {b}, period, n) ==
            if a < b then (if n <= a then 0 else if n <= b then n - a else b - a)
            else (if n <= b then n else if n <= a then b else b + n - a)
  {
    if n == 0 {
    } else {
      PairHighPrefix(a, b, period, n - 1);
      PairIsHigh(a, b, period, n - 1);
    }
  }

  /** A pin switched on at `a` and off at `b` is high from `a` up to `b`, cyclically. */
  lemma PairHigh(a: int, b: int, period: nat)
    requires 0 <= a < period && 0 <= b < period && a != b
    ensures HighTicks({a}, {b}, period, period) == if a < b then b - a else b - a + period
  {
    PairHighPrefix(a, b, period, period);
  }

  // ----- Replaying a finished table -----

  /** The two register writes of one phase: set first, then clear. */
  function Drive(level: bool, p: Phase, pin: Pin): bool {
    pin !in p.off && (pin in p.on || level)
  }

  function ReplayLevel(t: seq<Phase>, pin: Pin, level: bool): bool {
    if t == [] then level
    else Drive(ReplayLevel(t[..|t| - 1], pin, level), t[|t| - 1], pin)
  }

  /** Ticks the pin spends high while `t` is run once from the given level. */
  function ReplayTicks(t: seq<Phase>, pin: Pin, level: bool): nat {
    if t == [] then 0
    else ReplayTicks(t[..|t| - 1], pin, level) +
         if ReplayLevel(t, pin, level) then t[|t| - 1].ticks + 1 else 0
  }

  /** Nominal length of one run of `t`. */
  function CycleLength(t: seq<Phase>): nat {
    if t == [] then 0 else CycleLength(t[..|t| - 1]) + t[|t| - 1].ticks + 1
  }

  lemma {:induction false} ReplayConcat(t: seq<Phase>, u: seq<Phase>, pin: Pin, level: bool)
    ensures ReplayLevel(t + u, pin, level) == ReplayLevel(u, pin, ReplayLevel(t, pin, level))
    ensures ReplayTicks(t + u, pin, level) ==
            ReplayTicks(t, pin, level) + ReplayTicks(u, pin, ReplayLevel(t, pin, level))
    ensures CycleLength(t + u) == CycleLength(t) + CycleLength(u)
  {
    if u == [] {
      assert t + u == t;
    } else {
      var v := u[..|u| - 1];
      assert (t + u)[..|t + u| - 1] == t + v;
      ReplayConcat(t, v, pin, level);
    }
  }

  lemma {:induction false} ReplayForgets(t: seq<Phase>, pin: Pin, k: nat)
    requires k < |t| && (pin in t[k].on || pin in t[k].off)
    ensures ReplayLevel(t, pin, false) == ReplayLevel(t, pin, true)
  {
    if k < |t| - 1 {
      ReplayForgets(t[..|t| - 1], pin, k);
    }
  }

  /** Every cycle of `t` after the first keeps the pin high for exactly `ticks`. */
  ghost predicate SteadyOnTime(t: seq<Phase>, pin: Pin, ticks: int) {
    forall level :: ReplayTicks(t, pin, ReplayLevel(t, pin, level)) == ticks
  }

  predicate Rising(s: seq<Phase>) {
    forall i, j :: 0 <= i < j < |s| ==> s[i].ticks < s[j].ticks
  }

  // ----- From absolute times to durations -----

  /** Strictly increasing times from 0 to the period, the last entry being the end marker. */
  ghost predicate Timeline(s: seq<Phase>, period: nat) {
    && |s| >= 2 && s[0].ticks == 0
    && s[|s| - 1].ticks == period && s[|s| - 1].on == {} && s[|s| - 1].off == {}
    && Rising(s)
  }

  function Durations(s: seq<Phase>): seq<Phase>
    requires Rising(s)
  {
    if |s| <= 1 then [] else
    seq(|s| - 1, i requires 0 <= i < |s| - 1 =>
      Phase(s[i + 1].ticks - s[i].ticks - 1, s[i].on, s[i].off))
  }

  lemma QuietTick(on: set<int>, off: set<int>, period: nat, x: nat)
    requires x < period && x !in on && x !in off
    requires forall e :: e in on || e in off ==> 0 <= e < period
    ensures High(on, off, period, x) <==> High(on, off, period, if x == 0 then period - 1 else x - 1)
  {
  }

  lemma EventTick(on: set<int>, off: set<int>, period: nat, x: nat)
    requires x < period && (x in on || x in off)
    requires forall e :: e in on || e in off ==> 0 <= e < period
    ensures High(on, off, period, x) <==> x !in off
  {
  }

  lemma {:induction false} QuietStretch(on: set<int>, off: set<int>, period: nat, x: nat, y: nat)
    requires x < y <= period
    requires forall e :: e in on || e in off ==> 0 <= e < period && !(x < e < y)
    ensures High(on, off, period, y - 1) == High(on, off, period, x)
    ensures HighTicks(on, off, period, y) ==
            HighTicks(on, off, period, x) + if High(on, off, period, x) then y - x else 0
  {
    if y > x + 1 {
      QuietStretch(on, off, period, x, y - 1);
      QuietTick(on, off, period, y - 1);
    }
  }

  lemma TimelineEvents(s: seq<Phase>, period: nat, pin: Pin, n: nat)
    requires Timeline(s, period) && n < |s| - 1
    ensures s[n].ticks in OnTimes(s, pin) <==> pin in s[n].on
    ensures s[n].ticks in OffTimes(s, pin) <==> pin in s[n].off
    ensures forall e :: e in OnTimes(s, pin) || e in OffTimes(s, pin) ==>
              0 <= e < period && !(s[n].ticks < e < s[n + 1].ticks)
  {
  }

  /** The level that running up to phase `n` leaves, by the reference. */
  ghost function LevelBefore(on: set<int>, off: set<int>, period: nat, x: nat): bool {
    High(on, off, period, if x == 0 then period - 1 else x - 1)
  }

  /** From one event time to the next: the level is set by the events at `x` and then stays. */
  lemma StretchFollows(on: set<int>, off: set<int>, period: nat, x: nat, y: nat)
    requires x < y <= period
    requires forall e :: e in on || e in off ==> 0 <= e < period && !(x < e < y)
    ensures var level := x !in off && (x in on || LevelBefore(on, off, period, x));
            && level == LevelBefore(on, off, period, y)
            && HighTicks(on, off, period, y) == HighTicks(on, off, period, x) + if level then y - x else 0
  {
    if x in on || x in off {
      EventTick(on, off, period, x);
    } else {
      QuietTick(on, off, period, x);
    }
    QuietStretch(on, off, period, x, y);
  }

  lemma PhaseFollows(s: seq<Phase>, period: nat, pin: Pin, n: nat)
    requires Timeline(s, period) && n < |s| - 1
    ensures var on, off := OnTimes(s, pin), OffTimes(s, pin);
            var level := Drive(LevelBefore(on, off, period, s[n].ticks), s[n], pin);
            && level == LevelBefore(on, off, period, s[n + 1].ticks)
            && HighTicks(on, off, period, s[n + 1].ticks) ==
               HighTicks(on, off, period, s[n].ticks) + if level then s[n + 1].ticks - s[n].ticks else 0
  {
    TimelineEvents(s, period, pin, n);
    assert s[n + 1].ticks <= period;
    StretchFollows(OnTimes(s, pin), OffTimes(s, pin), period, s[n].ticks, s[n + 1].ticks);
  }

  lemma DurationAt(s: seq<Phase>, n: nat)
    requires Rising(s)
    requires n < |s| - 1
    ensures |Durations(s)| == |s| - 1
    ensures Durations(s)[n] == Phase(s[n + 1].ticks - s[n].ticks - 1, s[n].on, s[n].off)
  {
  }

  lemma {:induction false} LengthUpTo(s: seq<Phase>, d: seq<Phase>, n: nat)
    requires Rising(s) && d == Durations(s) && n < |s|
    ensures n <= |d| && CycleLength(d[..n]) == s[n].ticks - s[0].ticks
  {
    if n == 0 {
    } else {
      LengthUpTo(s, d, n - 1);
      DurationAt(s, n - 1);
      assert d[..n][..n - 1] == d[..n - 1];
    }
  }

  lemma ReplayStep(d: seq<Phase>, pin: Pin, level: bool, n: nat)
    requires n < |d|
    ensures ReplayLevel(d[..n + 1], pin, level) == Drive(ReplayLevel(d[..n], pin, level), d[n], pin)
    ensures ReplayTicks(d[..n + 1], pin, level) == ReplayTicks(d[..n], pin, level) +
            if ReplayLevel(d[..n + 1], pin, level) then d[n].ticks + 1 else 0
    ensures CycleLength(d[..n + 1]) == CycleLength(d[..n]) + d[n].ticks + 1
  {
    assert d[..n + 1][..n] == d[..n];
  }

  /** Running the durations from the level at the end of a period follows the reference tick by tick. */
  lemma {:induction false} ReplayFollows(s: seq<Phase>, d: seq<Phase>, period: nat, pin: Pin, n: nat)
    requires Timeline(s, period) && n < |s| && d == Durations(s) && |d| == |s| - 1
    ensures var on, off := OnTimes(s, pin), OffTimes(s, pin);
            var before := High(on, off, period, period - 1);
            && ReplayLevel(d[..n], pin, before) == LevelBefore(on, off, period, s[n].ticks)
            && ReplayTicks(d[..n], pin, before) == HighTicks(on, off, period, s[n].ticks)
            && CycleLength(d[..n]) == s[n].ticks
  {
    if n == 0 {
    } else {
      var m := n - 1;
      ReplayFollows(s, d, period, pin, m);
      ReplayStep(d, pin, High(OnTimes(s, pin), OffTimes(s, pin), period, period - 1), m);
      PhaseFollows(s, period, pin, m);
      DurationAt(s, m);
    }
  }

  lemma WholeReplay(s: seq<Phase>, d: seq<Phase>, period: nat, pin: Pin, before: bool)
    requires Timeline(s, period) && d == Durations(s)
    requires before == High(OnTimes(s, pin), OffTimes(s, pin), period, period - 1)
    ensures ReplayLevel(d, pin, before) == before
    ensures ReplayTicks(d, pin, before) == OnTime(s, period, pin)
    ensures CycleLength(d) == period
  {
    DurationAt(s, 0);
    ReplayFollows(s, d, period, pin, |s| - 1);
    WholePrefix(d, |s| - 1);
    assert s[|s| - 1].ticks == period > 0;
  }

  /** Turning a time line into durations keeps the on-time of every pin it switches. */
  lemma DurationsKeepMeaning(s: seq<Phase>, period: nat, pin: Pin)
    requires Timeline(s, period) && !Untouched(s, pin)
    ensures SteadyOnTime(Durations(s), pin, OnTime(s, period, pin))
    ensures CycleLength(Durations(s)) == period
  {
    var d, before := Durations(s), High(OnTimes(s, pin), OffTimes(s, pin), period, period - 1);
    WholeReplay(s, d, period, pin, before);
    var k := SomeEvent(s, period, pin);
    ReplayForgets(d, pin, k);
    SteadyFrom(d, pin, before, OnTime(s, period, pin));
  }

  lemma WholePrefix<T>(d: seq<T>, n: nat)
    requires n == |d|
    ensures d[..n] == d
  {
  }

  lemma SteadyFrom(d: seq<Phase>, pin: Pin, before: bool, ticks: int)
    requires ReplayLevel(d, pin, false) == ReplayLevel(d, pin, true) == before
    requires ReplayTicks(d, pin, before) == ticks
    ensures SteadyOnTime(d, pin, ticks)
  {
  }

  lemma SomeEvent(s: seq<Phase>, period: nat, pin: Pin) returns (k: nat)
    requires Timeline(s, period) && !Untouched(s, pin)
    ensures k < |Durations(s)| && (pin in Durations(s)[k].on || pin in Durations(s)[k].off)
  {
    k :| 0 <= k < |s| && (pin in s[k].on || pin in s[k].off);
  }

  function RotateLeft(t: seq<Phase>): seq<Phase>
    requires t != []
  {
    t[1..] + [t[0]]
  }

  lemma RotatedLength(t: seq<Phase>)
    requires t != []
    ensures CycleLength(RotateLeft(t)) == CycleLength(t)
  {
    assert t == [t[0]] + t[1..];
    ReplayConcat([t[0]], t[1..], 0, false);
    ReplayConcat(t[1..], [t[0]], 0, false);
  }

  lemma RotatedReplay(t: seq<Phase>, pin: Pin, e: bool)
    requires t != [] && ReplayLevel(t, pin, e) == e
    ensures var e0 := ReplayLevel([t[0]], pin, e);
            && ReplayLevel(RotateLeft(t), pin, e0) == e0
            && ReplayTicks(RotateLeft(t), pin, e0) == ReplayTicks(t, pin, e)
    ensures CycleLength(RotateLeft(t)) == CycleLength(t)
  {
    var first, rest := [t[0]], t[1..];
    assert t == first + rest;
    ReplayConcat(first, rest, pin, e);
    ReplayConcat(rest, first, pin, ReplayLevel(first, pin, e));
  }

  /** Starting the cycle one phase later keeps the on-time of every pin the table switches. */
  lemma RotateKeepsMeaning(t: seq<Phase>, pin: Pin, ticks: int, k: nat)
    requires k < |t| && (pin in t[k].on || pin in t[k].off)
    requires SteadyOnTime(t, pin, ticks)
    ensures SteadyOnTime(RotateLeft(t), pin, ticks)
    ensures CycleLength(RotateLeft(t)) == CycleLength(t)
  {
    var r, kr := RotateLeft(t), if k == 0 then |t| - 1 else k - 1;
    assert r[kr] == t[k];
    ReplayForgets(t, pin, k);
    ReplayForgets(r, pin, kr);
    var e := ReplayLevel(t, pin, false);
    RotatedReplay(t, pin, e);
    SteadyFrom(r, pin, ReplayLevel([t[0]], pin, e), ticks);
  }
}

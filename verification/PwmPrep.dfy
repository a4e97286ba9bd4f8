/** The last two passes, and the whole compiler from duties to a finished table. */
module PwmPrep {
  import opened PinMasks
  import opened PwmWave
  import opened PwmCompiler
  import opened PwmShift
  import opened PwmMerge

  /** Duration `n` of a time line, less one. */
  ghost predicate DurationIs(s: seq<Phase>, d: seq<Phase>, n: nat)
    requires n < |d| && |s| == |d| + 1
  {
    s[n].ticks < s[n + 1].ticks && d[n] == Phase(s[n + 1].ticks - s[n].ticks - 1, s[n].on, s[n].off)
  }

  lemma DurationsAre(s: seq<Phase>, d: seq<Phase>)
    requires |s| >= 1 && Rising(s) && d == Durations(s)
    ensures |d| == |s| - 1 && forall n :: 0 <= n < |d| ==> DurationIs(s, d, n)
  {
  }

  /** From absolute times to durations, in place, front to back. */
  method TimesToDurations(pwm: array<Phase>, phases: nat, ghost s: seq<Phase>, ghost d: seq<Phase>)
    requires 1 <= phases < pwm.Length && s == pwm[..phases + 1]
    requires |d| == phases && forall n :: 0 <= n < phases ==> DurationIs(s, d, n)
    modifies pwm
    ensures pwm[..phases] == d
    ensures pwm[phases] == s[phases].(ticks := 0)
  {
    var n := 0;
    while n < phases
      invariant n <= phases
      invariant forall i :: 0 <= i < n ==> pwm[i] == d[i]
      invariant forall i :: n <= i <= phases ==> pwm[i] == s[i]
    {
      assert DurationIs(s, d, n);
      pwm[n] := pwm[n].(ticks := pwm[n + 1].ticks - pwm[n].ticks);
      pwm[n] := pwm[n].(ticks := pwm[n].ticks - 1);
      n := n + 1;
    }
    pwm[phases] := pwm[phases].(ticks := 0);
  }

  /** The cyclic shift: the first phase is exchanged step by step into the last place. */
  method RotatePhases(pwm: array<Phase>, phases: nat)
    requires 1 <= phases < pwm.Length
    modifies pwm
    ensures pwm[..phases] == RotateLeft(old(pwm[..phases]))
    ensures pwm[phases] == old(pwm[phases])
  {
    ghost var was := pwm[..phases];
    var n := 0;
    while n < phases - 1
      invariant n <= phases - 1
      invariant pwm[n] == was[0]
      invariant forall i :: 0 <= i < n ==> pwm[i] == was[i + 1]
      invariant forall i :: n < i < phases ==> pwm[i] == was[i]
      invariant pwm[phases] == old(pwm[phases])
    {
      var t := pwm[n];
      pwm[n] := pwm[n + 1];
      pwm[n + 1] := t;
      n := n + 1;
    }
  }

  // ----- The finished table -----

  /** One phase later if the last phase is short. */
  function Turned(d: seq<Phase>): seq<Phase>
    requires d != []
  {
    if d[|d| - 1].ticks < 16 then RotateLeft(d) else d
  }

  /** The durations of a merged table, turned so that the last one is long. */
  function Finished(s: seq<Phase>): seq<Phase>
    requires |s| >= 2 && Rising(s)
  {
    Turned(Durations(s))
  }

  /** Entry by entry: a phase lasts until the next one, less one tick, and the first comes last exactly if the last
      two times are less than 17 ticks apart.
    */
  lemma FinishedLayout(s: seq<Phase>, d: seq<Phase>, i: nat)
    requires i < |d| && |s| == |d| + 1 && forall n :: 0 <= n < |d| ==> DurationIs(s, d, n)
    ensures |Turned(d)| == |d|
    ensures var late := s[|d|].ticks < s[|d| - 1].ticks + 17;
            var k := if !late then i else if i == |d| - 1 then 0 else i + 1;
            && Turned(d)[i].ticks == s[k + 1].ticks - s[k].ticks - 1
            && Turned(d)[i].on == s[k].on && Turned(d)[i].off == s[k].off
  {
    assert DurationIs(s, d, |d| - 1);
    var k := if d[|d| - 1].ticks >= 16 then i else if i == |d| - 1 then 0 else i + 1;
    assert DurationIs(s, d, k);
    assert Turned(d)[i] == d[k];
  }

  /** No phase is empty and the last one gives the interrupt routine time to return. */
  ghost predicate Safe(t: seq<Phase>) {
    && |t| >= 2
    && (forall i :: 0 <= i < |t| ==> Live(t[i]))
    && t[|t| - 1].ticks >= 16
  }

  lemma DurationsLive(s: seq<Phase>, period: uint32, low: nat)
    requires Merged(s, period, low) && |s| > 2
    ensures forall i :: 0 <= i < |Durations(s)| ==> Live(Durations(s)[i])
  {
    forall i | 0 <= i < |Durations(s)|
      ensures Live(Durations(s)[i])
    {
      DurationAt(s, i);
    }
  }

  /** The table is safe if no event was moved into the first 16 ticks. */
  lemma FinishedIsSafe(s: seq<Phase>, period: uint32)
    requires Merged(s, period, 17) && |s| > 2
    ensures Safe(Finished(s))
  {
    DurationsLive(s, period, 17);
    DurationAt(s, 0);
  }

  /** It is not if one was, for then the first and the last phase are short. */
  lemma FinishedIsUnsafe(s: seq<Phase>, period: uint32, low: nat)
    requires Merged(s, period, low) && |s| > 2 && period <= low + 16 && s[1].ticks <= 16
    ensures !Safe(Finished(s))
  {
    DurationAt(s, 0);
    DurationAt(s, |s| - 2);
  }

  lemma FinishedLength(s: seq<Phase>)
    requires |s| >= 2 && Rising(s)
    ensures CycleLength(Finished(s)) == s[|s| - 1].ticks - s[0].ticks
  {
    var d := Durations(s);
    LengthUpTo(s, d, |s| - 1);
    assert d[..|s| - 1] == d;
    RotatedLength(d);
  }

  lemma TurnedKeepsMeaning(d: seq<Phase>, pin: Pin, ticks: nat, k: nat)
    requires k < |d| && (pin in d[k].on || pin in d[k].off)
    requires SteadyOnTime(d, pin, ticks)
    ensures SteadyOnTime(Turned(d), pin, ticks)
  {
    RotateKeepsMeaning(d, pin, ticks, k);
  }

  lemma FinishedKeepsMeaning(s: seq<Phase>, period: uint32, pin: Pin, ticks: nat)
    requires Timeline(s, period) && !Untouched(s, pin) && OnTime(s, period, pin) == ticks
    ensures SteadyOnTime(Finished(s), pin, ticks)
  {
    DurationsKeepMeaning(s, period, pin);
    var k := SomeEvent(s, period, pin);
    TurnedKeepsMeaning(Durations(s), pin, ticks, k);
  }

  /** A table of absolute times that asks of every channel what its duty says, and of no other pin anything. */
  ghost predicate Encodes(s: seq<Phase>, period: uint32, pins: seq<Pin>, duty: seq<uint32>) {
    && |duty| == |pins|
    && (forall c :: 0 <= c < |pins| ==>
          OnTime(s, period, pins[c]) == Expected(duty[c], period) && !Untouched(s, pins[c]))
    && forall pin: Pin :: pin !in pins ==> Untouched(s, pin)
  }

  lemma BuiltEncodes(s: seq<Phase>, period: uint32, pins: seq<Pin>, duty: seq<uint32>)
    requires |duty| == |pins| && period > 0
    requires forall c :: 0 <= c < |pins| ==> ChannelEvents(s, pins[c], duty[c], period)
    requires forall pin: Pin :: pin !in pins ==> Untouched(s, pin)
    ensures Encodes(s, period, pins, duty)
  {
    forall c | 0 <= c < |pins|
      ensures OnTime(s, period, pins[c]) == Expected(duty[c], period) && !Untouched(s, pins[c])
    {
      ChannelOnTime(s, pins[c], duty[c], period);
    }
  }

  lemma SameWavesEncode(s: seq<Phase>, t: seq<Phase>, period: uint32, pins: seq<Pin>, duty: seq<uint32>)
    requires Encodes(s, period, pins, duty) && SameWaves(s, t, period)
    ensures Encodes(t, period, pins, duty)
  {
    forall c | 0 <= c < |pins|
      ensures OnTime(t, period, pins[c]) == Expected(duty[c], period) && !Untouched(t, pins[c])
    {
      assert SameMeaning(s, t, period, pins[c]);
    }
    forall pin: Pin | pin !in pins
      ensures Untouched(t, pin)
    {
      assert SameMeaning(s, t, period, pin);
    }
  }

  /** A finished table that drives every channel exactly as asked, and no other pin. */
  ghost predicate Drives(t: seq<Phase>, period: uint32, pins: seq<Pin>, duty: seq<uint32>) {
    && |duty| == |pins| && CycleLength(t) == period
    && (forall c :: 0 <= c < |pins| ==> SteadyOnTime(t, pins[c], Expected(duty[c], period)))
    && forall pin: Pin :: pin !in pins ==> Absent(t, pin)
  }

  lemma FinishedAbsent(s: seq<Phase>, period: uint32, pin: Pin)
    requires Timeline(s, period) && Untouched(s, pin)
    ensures Absent(Finished(s), pin)
  {
    var d := Durations(s);
    forall i | 0 <= i < |d|
      ensures pin !in d[i].on && pin !in d[i].off
    {
      DurationAt(s, i);
      TimelineEvents(s, period, pin, i);
    }
  }

  lemma FinishedDrives(s: seq<Phase>, period: uint32, pins: seq<Pin>, duty: seq<uint32>)
    requires Encodes(s, period, pins, duty) && Timeline(s, period)
    ensures Drives(Finished(s), period, pins, duty)
  {
    forall c | 0 <= c < |pins|
      ensures SteadyOnTime(Finished(s), pins[c], Expected(duty[c], period))
    {
      FinishedKeepsMeaning(s, period, pins[c], Expected(duty[c], period));
    }
    forall pin: Pin | pin !in pins
      ensures Absent(Finished(s), pin)
    {
      FinishedAbsent(s, period, pin);
    }
    FinishedLength(s);
  }

  lemma SortKeepsBuilt(s: seq<Phase>, t: seq<Phase>, from: seq<nat>, to: seq<nat>, period: uint32)
    requires Built(s, period) && Rearranged(s, t, from, to)
    requires from[0] == 0 && from[|s| - 1] == |s| - 1
    ensures Built(t, period) && SameWaves(s, t, period)
  {
    forall j | 0 < j < |t| - 1
      ensures IsFresh(t, j)
      ensures 1 <= t[j].ticks && 2 * t[j].ticks <= period + 1
    {
      assert 0 < from[j] < |s| - 1;
      assert IsFresh(s, from[j]);
      var p :| FreshEvent(s, from[j], p);
      assert FreshEvent(t, j, p);
    }
    forall pin: Pin
      ensures SameMeaning(s, t, period, pin)
    {
      RearrangedEvents(s, t, from, to, pin);
    }
  }

  lemma MarkerIsLast(s: seq<Phase>, period: uint32)
    requires Built(s, period) && SortedUpTo(s, |s| - 1)
    ensures SortedUpTo(s, |s|)
  {
  }

  /** The first two passes. */
  method BuildAndSort(pwm: array<Phase>, period: uint32, pins: seq<Pin>, duty: seq<uint32>) returns (phases: nat)
    requires |duty| == |pins| <= PWM_MAX_CHANNELS && pwm.Length == PWM_MAX_CHANNELS + 2
    requires Distinct(pins) && period > 0
    modifies pwm
    ensures 1 <= phases <= |pins| + 1 && (phases > 1 <==> SomePartial(duty, period))
    ensures Built(pwm[..phases + 1], period) && SortedUpTo(pwm[..phases + 1], phases + 1)
    ensures Encodes(pwm[..phases + 1], period, pins, duty)
    ensures period >= MIN_PERIOD ==> (Crowded(pwm[..phases + 1], period) <==> Cramped(duty, period))
  {
    phases := Build(pwm, period, pins, duty);
    ghost var s := pwm[..phases + 1];
    BuiltEncodes(s, period, pins, duty);
    ghost var from, to := SortEvents(pwm, phases, phases + 1);
    ghost var t := pwm[..phases + 1];
    SortKeepsBuilt(s, t, from, to, period);
    MarkerIsLast(t, period);
    SameWavesEncode(s, t, period, pins, duty);
    RearrangedCrowds(s, t, from, to, period);
  }

  /** `u` is the table `s` after the third and the fourth pass. */
  ghost predicate ShiftedAndSorted(s: seq<Phase>, u: seq<Phase>, from: seq<nat>, to: seq<nat>, period: uint32)
    requires |s| >= 2
  {
    |u| == |s| && Rearranged(ShiftFrom(s, 0, 1, period), u, from, to) && SortedUpTo(u, |u|) && from[0] == 0
  }

  /** The third and the fourth pass. */
  method ShiftAndSort(pwm: array<Phase>, phases: nat, period: uint32, ghost s: seq<Phase>)
    returns (ghost from: seq<nat>, ghost to: seq<nat>)
    requires 1 <= phases < pwm.Length
    requires s == pwm[..phases + 1] && Built(s, period) && SortedUpTo(s, |s|)
    modifies pwm
    ensures ShiftedAndSorted(s, pwm[..phases + 1], from, to, period)
  {
    ShiftLeft(pwm, phases, period);
    from, to := SortEvents(pwm, phases + 1, phases + 1);
  }

  // ----- What becomes of a table -----

  /** What the interrupt routine can run for ever to do what the duties ask. */
  ghost predicate Serves(t: seq<Phase>, period: uint32, pins: seq<Pin>, duty: seq<uint32>) {
    && Drives(t, period, pins, duty) && t != []
    && (|t| > 1 <==> SomePartial(duty, period))
    && (|t| > 1 ==> Safe(t))
  }

  /** Of a table that loses its marker every time is less than the period. */
  lemma ShiftLoses(s: seq<Phase>)
    requires Built(s, 33) && SortedUpTo(s, |s|) && Crowded(s, 33)
    ensures var t := ShiftFrom(s, 0, 1, 33);
            |t| == |s| && t[0].ticks == 0 && forall j :: 0 < j < |s| ==> 1 <= t[j].ticks <= 32
  {
    var late := LateIsShort(s, 33);
    var t := ShiftFrom(s, 0, 1, 33);
    assert s[late].ticks <= s[|s| - 2].ticks;
    forall j | 0 < j < |s|
      ensures |t| == |s| && t[0].ticks == 0 && 1 <= t[j].ticks <= 32
    {
      MarkerLost(s, 0, 1, j);
    }
    MarkerLost(s, 0, 1, 1);
  }

  /** So it is in a period of up to 16 ticks. */
  lemma ShiftMirrors(s: seq<Phase>, period: uint32)
    requires Built(s, period) && SortedUpTo(s, |s|) && 1 < period < MIN_PERIOD && |s| > 2
    ensures var t := ShiftFrom(s, 0, 1, period);
            |t| == |s| && t[0].ticks == 0 && t[1].ticks > 0 && forall j :: 0 < j < |s| ==> t[j].ticks < period
  {
    var t := ShiftFrom(s, 0, 1, period);
    forall j | 0 < j < |s|
      ensures |t| == |s| && t[0].ticks == 0 && t[j].ticks == period - s[j].ticks
    {
      AllMirrored(s, 1, period, j);
    }
    AllMirrored(s, 1, period, 1);
  }

  /** The end marker stays at the end of the period. */
  ghost predicate KeepsMarker(s: seq<Phase>, period: uint32) {
    period >= MIN_PERIOD && (period == 33 ==> !Crowded(s, period))
  }

  /** After the fourth pass the table begins at the start, and ends with the period if the marker was kept. */
  lemma SortedRises(s: seq<Phase>, u: seq<Phase>, from: seq<nat>, to: seq<nat>, period: uint32)
    requires Built(s, period) && SortedUpTo(s, |s|) && ShiftedAndSorted(s, u, from, to, period)
    requires period >= MIN_PERIOD || (|s| > 2 && period > 1)
    ensures Rises(u, 0, 1) && u[0].ticks == 0 && u[|u| - 1].ticks > 0
    ensures !KeepsMarker(s, period) ==> u[|u| - 1].ticks < period
  {
    var t := ShiftFrom(s, 0, 1, period);
    if KeepsMarker(s, period) {
      var low := LowFor(s, period);
      ShiftTable(s, period, low);
    } else if period >= MIN_PERIOD {
      ShiftLoses(s);
    } else {
      ShiftMirrors(s, period);
    }
    assert t[1].ticks > 0;
    assert u[to[1]] == t[1] && 1 <= to[1] < |u|;
    assert u[to[1]].ticks <= u[|u| - 1].ticks;
    assert forall j :: 0 < j < |u| ==> from[j] != 0 && u[j] == t[from[j]];
  }

  /** What the fifth pass makes of the table `u`. */
  ghost function Joined(u: seq<Phase>): (m: seq<Phase>)
    requires |u| >= 2
  {
    var (v, k) := MergeFrom(u, 0, 1);
    v[..if k < |v| then k + 1 else |v|]
  }

  lemma JoinedRises(u: seq<Phase>)
    requires |u| >= 2 && Rises(u, 0, 1) && u[0].ticks == 0 && u[|u| - 1].ticks > 0
    ensures var m := Joined(u); |m| >= 2 && Rising(m) && m[0].ticks == 0 && m[|m| - 1].ticks == u[|u| - 1].ticks
    ensures MergeFrom(u, 0, 1).1 == |Joined(u)| - 1
  {
    MergeRises(u, 0, 1);
    DoneStays(u, 0, 1);
  }

  /** No event is late, or all are early: the table keeps its meaning. */
  lemma JoinedDrives(s: seq<Phase>, u: seq<Phase>, from: seq<nat>, to: seq<nat>, period: uint32, low: nat,
                     pins: seq<Pin>, duty: seq<uint32>)
    requires Ready(s, period, low) && ShiftedAndSorted(s, u, from, to, period) && Encodes(s, period, pins, duty)
    ensures var m := Joined(u);
            && |m| >= 2 && (|m| > 2 <==> |s| > 2) && Merged(m, period, low) && m[1].ticks == u[1].ticks
            && Drives(Finished(m), period, pins, duty)
  {
    var t, m := ShiftFrom(s, 0, 1, period), Joined(u);
    ShiftTable(s, period, low);
    SortKeepsShifted(t, u, from, to, period, low);
    SameWavesEncode(s, t, period, pins, duty);
    SameWavesEncode(t, u, period, pins, duty);
    var (v, k) := MergeFrom(u, 0, 1);
    MergeEnd(u, period, low);
    MergeTable(u, v, k, m, period, low);
    SameWavesEncode(u, m, period, pins, duty);
    FinishedDrives(m, period, pins, duty);
  }

  /** In a crowded table the first event comes before tick 17. */
  lemma CrowdedIsEarly(s: seq<Phase>, u: seq<Phase>, from: seq<nat>, to: seq<nat>, period: uint32)
    requires MIN_PERIOD <= period < 33 && Ready(s, period, period - 16) && Crowded(s, period)
    requires ShiftedAndSorted(s, u, from, to, period)
    ensures |s| > 2 && |u| == |s| && u[1].ticks <= 16
  {
    var j := LateIsShort(s, period);
    Mirrored(s, 1, period, j);
    assert u[to[j]] == ShiftFrom(s, 0, 1, period)[j] && to[j] != 0;
    assert u[1].ticks <= u[to[j]].ticks;
  }

  /** The finished table serves the interrupt routine exactly if no event of the first pass was late. */
  lemma FinishedServes(s: seq<Phase>, u: seq<Phase>, from: seq<nat>, to: seq<nat>, period: uint32,
                       pins: seq<Pin>, duty: seq<uint32>)
    requires Built(s, period) && SortedUpTo(s, |s|) && ShiftedAndSorted(s, u, from, to, period)
    requires period >= MIN_PERIOD || |s| > 2
    requires Encodes(s, period, pins, duty) && (|s| > 2 <==> SomePartial(duty, period))
    ensures |Joined(u)| >= 2 && Rising(Joined(u))
    ensures var good := period >= MIN_PERIOD && !Crowded(s, period);
            && (Serves(Finished(Joined(u)), period, pins, duty) <==> good)
            && (good ==> Timeline(Joined(u), period))
  {
    var m := Joined(u);
    SortedRises(s, u, from, to, period);
    JoinedRises(u);
    if KeepsMarker(s, period) {
      var low := LowFor(s, period);
      JoinedDrives(s, u, from, to, period, low, pins, duty);
      if Crowded(s, period) {
        var j := LateIsShort(s, period);
        CrowdedIsEarly(s, u, from, to, period);
        FinishedIsUnsafe(m, period, low);
      } else if |m| > 2 {
        FinishedIsSafe(m, period);
      }
    } else {
      FinishedLength(m);
    }
  }

  /** The sixth pass. */
  method FinishTable(pwm: array<Phase>, phases: nat, ghost m: seq<Phase>)
    requires 1 <= phases < pwm.Length && m == pwm[..phases + 1] && Rising(m)
    modifies pwm
    ensures pwm[..phases] == Finished(m)
    ensures pwm[phases] == m[phases].(ticks := 0)
  {
    DurationsAre(m, Durations(m));
    TimesToDurations(pwm, phases, m, Durations(m));
    assert pwm[..phases][phases - 1] == pwm[phases - 1];
    if pwm[phases - 1].ticks < 16 {
      RotatePhases(pwm, phases);
    }
  }

  /** The fifth and the sixth pass. */
  method MergeAndFinish(pwm: array<Phase>, phases: nat, ghost u: seq<Phase>) returns (left: nat)
    requires 1 <= phases < pwm.Length && u == pwm[..phases + 1]
    requires Rises(u, 0, 1) && u[0].ticks == 0 && u[|u| - 1].ticks > 0
    modifies pwm
    ensures 1 <= left <= phases && |Joined(u)| == left + 1 && Rising(Joined(u))
    ensures pwm[..left] == Finished(Joined(u))
    ensures pwm[left] == Joined(u)[left].(ticks := 0)
  {
    JoinedRises(u);
    left := MergeEqual(pwm, phases);
    assert pwm[..left + 1] == pwm[..phases + 1][..left + 1];
    FinishTable(pwm, left, Joined(u));
  }

  /** The whole compiler: the table serves the interrupt routine exactly if the period has at least 17 ticks and
      no duty asks for an event less than 17 ticks before its end.  Without a partial duty a shorter period lets
      the source read the entry before the table.
    */
  method PhasesPrep(pwm: array<Phase>, period: uint32, pins: seq<Pin>, duty: seq<uint32>) returns (phases: nat)
    requires |duty| == |pins| <= PWM_MAX_CHANNELS && pwm.Length == PWM_MAX_CHANNELS + 2
    requires Distinct(pins) && (period >= MIN_PERIOD || SomePartial(duty, period))
    modifies pwm
    ensures 1 <= phases <= |pins| + 1
    ensures Serves(pwm[..phases], period, pins, duty) <==> period >= MIN_PERIOD && !Cramped(duty, period)
    ensures Serves(pwm[..phases], period, pins, duty) ==> pwm[phases] == Phase(0, {}, {})
  {
    var built := BuildAndSort(pwm, period, pins, duty);
    ghost var s := pwm[..built + 1];
    ghost var from, to := ShiftAndSort(pwm, built, period, s);
    ghost var u := pwm[..built + 1];
    SortedRises(s, u, from, to, period);
    FinishedServes(s, u, from, to, period, pins, duty);
    phases := MergeAndFinish(pwm, built, u);
  }
}

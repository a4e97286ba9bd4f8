/** The six in-place passes that compile channel duties into a phase table.

    Each pass works on the table array as the firmware does.  Between the passes a table is described
    by its first `phases + 1` entries, the last being the end marker at the period.
  */
module PwmCompiler {
  import opened PinMasks
  import opened PwmWave

  const PWM_MAX_CHANNELS := 8

  // Of a shorter period the end marker itself would be moved to the start
  const MIN_PERIOD := 17

  ghost predicate Distinct(pins: seq<Pin>) {
    forall c, d :: 0 <= c < d < |pins| ==> pins[c] != pins[d]
  }

  predicate Live(p: Phase) {
    p.on + p.off != {}
  }

  /** What a channel is asked to do: high for `duty` ticks of each period, or always. */
  function Expected(duty: uint32, period: uint32): uint32 {
    if duty >= period then period else duty
  }

  // ----- Facts about event times -----

  lemma SameEvents(s: seq<Phase>, t: seq<Phase>, pin: Pin)
    requires |s| <= |t|
    requires forall i :: 0 <= i < |s| ==> (pin in s[i].on <==> pin in t[i].on) && (pin in s[i].off <==> pin in t[i].off)
    requires forall i :: 0 <= i < |s| && (pin in s[i].on || pin in s[i].off) ==> s[i].ticks == t[i].ticks
    requires forall i :: |s| <= i < |t| ==> pin !in t[i].on && pin !in t[i].off
    ensures OnTimes(s, pin) == OnTimes(t, pin)
    ensures OffTimes(s, pin) == OffTimes(t, pin)
  {
  }

  ghost predicate Permutation(from: seq<nat>, to: seq<nat>) {
    && |from| == |to|
    && (forall i :: 0 <= i < |to| ==> to[i] < |to| && from[to[i]] == i)
    && (forall i :: 0 <= i < |from| ==> from[i] < |from| && to[from[i]] == i)
  }

  /** `t` is `s` rearranged: entry `i` of `t` was entry `from[i]` of `s`. */
  ghost predicate Rearranged(s: seq<Phase>, t: seq<Phase>, from: seq<nat>, to: seq<nat>) {
    && |s| == |t| == |from| && Permutation(from, to)
    && forall i :: 0 <= i < |s| ==> t[i] == s[from[i]]
  }

  lemma RearrangedEvents(s: seq<Phase>, t: seq<Phase>, from: seq<nat>, to: seq<nat>, pin: Pin)
    requires Rearranged(s, t, from, to)
    ensures OnTimes(s, pin) == OnTimes(t, pin)
    ensures OffTimes(s, pin) == OffTimes(t, pin)
  {
    forall i | 0 <= i < |s|
      ensures t[to[i]] == s[i]
    {
    }
  }

  // ----- Pass 1: one event per channel with a partial duty -----

  predicate SwitchesOnly(p: Phase, pin: Pin) {
    (p.on == {pin} && p.off == {}) || (p.on == {} && p.off == {pin})
  }

  /** Entry `j` switches only `pin`, which the first entry sets to the opposite level. */
  ghost predicate FreshEvent(s: seq<Phase>, j: nat, pin: Pin)
    requires 0 < j < |s|
  {
    && SwitchesOnly(s[j], pin)
    && (pin in s[j].off <==> pin in s[0].on)
    && (pin in s[j].on <==> pin in s[0].off)
    && forall i :: 0 < i < |s| && i != j ==> pin !in s[i].on && pin !in s[i].off
  }

  ghost predicate IsFresh(s: seq<Phase>, j: nat)
    requires 0 < j < |s|
  {
    exists pin :: FreshEvent(s, j, pin)
  }

  /** No event from entry `r` on has been moved yet. */
  ghost predicate FreshFrom(s: seq<Phase>, r: nat) {
    forall j :: 0 < r <= j < |s| - 1 ==> IsFresh(s, j)
  }

  /** The event times of a channel as the first pass leaves them. */
  ghost predicate ChannelEvents(s: seq<Phase>, pin: Pin, duty: uint32, period: uint32) {
    var on, off := OnTimes(s, pin), OffTimes(s, pin);
    if duty == 0 then on == {} && off == {0}
    else if duty >= period then on == {0} && off == {}
    else if duty < period / 2 then on == {0} && off == {duty}
    else on == {period - duty} && off == {0}
  }

  lemma ChannelOnTime(s: seq<Phase>, pin: Pin, duty: uint32, period: uint32)
    requires ChannelEvents(s, pin, duty, period) && period > 0
    ensures OnTime(s, period, pin) == Expected(duty, period)
    ensures !Untouched(s, pin)
  {
    if duty == 0 {
      NeverHigh({0}, period, period);
      assert 0 in OffTimes(s, pin);
    } else if duty >= period {
      AlwaysHigh(0, period, period);
      assert 0 in OnTimes(s, pin);
    } else if duty < period / 2 {
      PairHigh(0, duty, period);
      assert 0 in OnTimes(s, pin);
    } else {
      PairHigh(period - duty, 0, period);
      assert 0 in OffTimes(s, pin);
    }
  }

  ghost predicate Built(s: seq<Phase>, period: uint32) {
    && |s| >= 2 && s[0].ticks == 0
    && s[|s| - 1] == Phase(period, {}, {})
    && (forall j :: 0 < j < |s| - 1 ==> 1 <= s[j].ticks && 2 * s[j].ticks <= period + 1)
    && FreshFrom(s, 1)
  }

  ghost predicate SomePartial(duty: seq<uint32>, period: uint32) {
    exists c :: 0 <= c < |duty| && 0 < duty[c] < period
  }

  /** When the event of a channel with a partial duty happens. */
  function EventTime(duty: uint32, period: uint32): uint32
    requires duty < period
  {
    if duty < period / 2 then duty else period - duty
  }

  /** An event less than 17 ticks before the end of the period. */
  predicate CrampedBy(duty: uint32, period: uint32) {
    0 < duty < period && period - EventTime(duty, period) <= 16
  }

  ghost predicate Cramped(duty: seq<uint32>, period: uint32) {
    exists c :: 0 <= c < |duty| && CrampedBy(duty[c], period)
  }

  predicate LateEvent(p: Phase, period: uint32) {
    Live(p) && period - p.ticks <= 16
  }

  ghost predicate Crowded(s: seq<Phase>, period: uint32) {
    exists j :: 0 <= j < |s| && LateEvent(s[j], period)
  }

  lemma RearrangedCrowds(s: seq<Phase>, t: seq<Phase>, from: seq<nat>, to: seq<nat>, period: uint32)
    requires Rearranged(s, t, from, to)
    ensures Crowded(s, period) <==> Crowded(t, period)
  {
    if j :| 0 <= j < |s| && LateEvent(s[j], period) {
      assert t[to[j]] == s[j];
    }
    if j :| 0 <= j < |t| && LateEvent(t[j], period) {
      assert s[from[j]] == t[j];
    }
  }

  // ----- Sorting -----

  /** Sum of the prefix sums of the times: goes down whenever a smaller time moves forward. */
  ghost function Weight(s: seq<Phase>): nat {
    if s == [] then 0 else Weight(s[..|s| - 1]) + Total(s)
  }

  ghost function Total(s: seq<Phase>): nat {
    if s == [] then 0 else Total(s[..|s| - 1]) + s[|s| - 1].ticks
  }

  function Swapped<T>(s: seq<T>, i: nat, j: nat): seq<T>
    requires i < |s| && j < |s|
  {
    s[i := s[j]][j := s[i]]
  }

  lemma {:induction false} SwapWeight(s: seq<Phase>, n: nat)
    requires 1 <= n < |s|
    ensures Total(Swapped(s, n - 1, n)) == Total(s)
    ensures Weight(Swapped(s, n - 1, n)) == Weight(s) + s[n].ticks - s[n - 1].ticks
  {
    var t := Swapped(s, n - 1, n);
    var m := |s| - 1;
    if n < m {
      assert t[..m] == Swapped(s[..m], n - 1, n);
      SwapWeight(s[..m], n);
    } else {
      assert t[..m][..m - 1] == s[..m][..m - 1];
    }
  }

  /** The inverse of `from` after entries `i` and `j` of `from` have been exchanged. */
  ghost function InverseSwapped(from: seq<nat>, to: seq<nat>, i: nat, j: nat): (inv: seq<nat>)
    requires Permutation(from, to) && i < |from| && j < |from|
    ensures Permutation(Swapped(from, i, j), inv)
  {
    to[from[i] := j][from[j] := i]
  }

  ghost predicate SortedUpTo(s: seq<Phase>, n: int) {
    forall i, j :: 1 <= i < j < n && j < |s| ==> s[i].ticks <= s[j].ticks
  }

  /** `now` is `was` rearranged within entries 1 to `hi - 1`, and in order up to entry `n - 1`. */
  ghost predicate Sorting(was: seq<Phase>, now: seq<Phase>, from: seq<nat>, to: seq<nat>, hi: nat, n: nat) {
    && Rearranged(was, now, from, to)
    && (forall i :: 0 <= i < |was| && (i == 0 || i >= hi) ==> from[i] == i)
    && SortedUpTo(now, n)
  }

  lemma SortStep(was: seq<Phase>, now: seq<Phase>, from: seq<nat>, to: seq<nat>, hi: nat, n: nat)
    requires 2 <= n < hi <= |now| && Sorting(was, now, from, to, hi, n)
    requires now[n].ticks < now[n - 1].ticks
    ensures Sorting(was, Swapped(now, n - 1, n), Swapped(from, n - 1, n), InverseSwapped(from, to, n - 1, n), hi,
                    if n > 2 then n - 1 else 2)
    ensures Weight(Swapped(now, n - 1, n)) < Weight(now)
  {
    SwapWeight(now, n);
  }

  lemma SortAdvance(was: seq<Phase>, now: seq<Phase>, from: seq<nat>, to: seq<nat>, hi: nat, n: nat)
    requires 2 <= n < hi <= |now| && Sorting(was, now, from, to, hi, n)
    requires now[n].ticks >= now[n - 1].ticks
    ensures Sorting(was, now, from, to, hi, n + 1)
  {
  }

  method Exchange(pwm: array<Phase>, i: nat, j: nat, ghost count: nat)
    requires i < count && j < count <= pwm.Length
    modifies pwm
    ensures pwm[..count] == Swapped(old(pwm[..count]), i, j)
    ensures forall k :: count <= k < pwm.Length ==> pwm[k] == old(pwm[k])
  {
    var t := pwm[i];
    pwm[i] := pwm[j];
    pwm[j] := t;
  }

  /** Both sorts of the firmware: a single index that steps back after each exchange. */
  method SortEvents(pwm: array<Phase>, hi: nat, ghost count: nat) returns (ghost from: seq<nat>, ghost to: seq<nat>)
    requires 1 <= hi <= count <= pwm.Length
    modifies pwm
    ensures SortedUpTo(pwm[..count], hi)
    ensures Rearranged(old(pwm[..count]), pwm[..count], from, to)
    ensures forall i :: 0 <= i < count && (i == 0 || i >= hi) ==> from[i] == i
  {
    ghost var was := pwm[..count];
    ghost var now := was;
    from, to := seq(count, i => i), seq(count, i => i);
    var n := 2;
    while n < hi
      invariant 2 <= n && (n <= hi || n == 2)
      invariant now == pwm[..count] && |was| == count
      invariant Sorting(was, now, from, to, hi, n)
      decreases Weight(now), hi - n
    {
      assert now[n] == pwm[n] && now[n - 1] == pwm[n - 1];
      if pwm[n].ticks < pwm[n - 1].ticks {
        SortStep(was, now, from, to, hi, n);
        from, to := Swapped(from, n - 1, n), InverseSwapped(from, to, n - 1, n);
        now := Swapped(now, n - 1, n);
        Exchange(pwm, n - 1, n, count);
        if n > 2 {
          n := n - 1;
        }
      } else {
        SortAdvance(was, now, from, to, hi, n);
        n := n + 1;
      }
    }
  }

  // ----- Building the table -----

  ghost predicate Absent(s: seq<Phase>, pin: Pin) {
    forall i :: 0 <= i < |s| ==> pin !in s[i].on && pin !in s[i].off
  }

  lemma AbsentUntouched(s: seq<Phase>, pin: Pin)
    requires Absent(s, pin)
    ensures Untouched(s, pin)
  {
  }

  /** The table without its end marker after some channels have been entered. */
  ghost predicate Building(s: seq<Phase>, period: uint32, pins: seq<Pin>, duty: seq<uint32>, n: nat) {
    && n <= |pins| == |duty|
    && 1 <= |s| <= n + 1 && s[0].ticks == 0
    && (forall j :: 0 < j < |s| ==> 1 <= s[j].ticks && 2 * s[j].ticks <= period + 1)
    && (forall j :: 0 < j < |s| ==> IsFresh(s, j))
    && (forall c :: 0 <= c < n ==> ChannelEvents(s, pins[c], duty[c], period))
    && (forall pin: Pin :: pin !in pins[..n] ==> Absent(s, pin))
    && (|s| > 1 <==> SomePartial(duty[..n], period))
  }

  /** Entering channel `n` at full or zero duty. */
  function EnterConstant(s: seq<Phase>, pin: Pin, high: bool): seq<Phase>
    requires s != []
  {
    s[0 := if high then s[0].(on := s[0].on + {pin}) else s[0].(off := s[0].off + {pin})]
  }

  /** Entering a channel that switches once within the first half period. */
  function EnterEvent(s: seq<Phase>, pin: Pin, ticks: uint32, high: bool): seq<Phase>
    requires s != []
  {
    EnterConstant(s, pin, high) + [if high then Phase(ticks, {}, {pin}) else Phase(ticks, {pin}, {})]
  }

  lemma EnterOther(s: seq<Phase>, t: seq<Phase>, pin: Pin, other: Pin, ticks: uint32, high: bool)
    requires s != [] && pin != other
    requires t == EnterConstant(s, pin, high) || t == EnterEvent(s, pin, ticks, high)
    ensures OnTimes(s, other) == OnTimes(t, other)
    ensures OffTimes(s, other) == OffTimes(t, other)
    ensures Absent(s, other) ==> Absent(t, other)
  {
    SameEvents(s, t, other);
  }

  lemma EnterThis(s: seq<Phase>, t: seq<Phase>, pin: Pin, ticks: uint32, high: bool, partial: bool)
    requires s != [] && s[0].ticks == 0 && Absent(s, pin)
    requires t == if partial then EnterEvent(s, pin, ticks, high) else EnterConstant(s, pin, high)
    ensures OnTimes(t, pin) == if high then {0} else if partial then {ticks} else {}
    ensures OffTimes(t, pin) == if !high then {0} else if partial then {ticks} else {}
  {
    assert t[0].ticks == 0;
    if partial {
      assert t[|s|].ticks == ticks;
    }
  }

  lemma EnterFresh(s: seq<Phase>, t: seq<Phase>, pin: Pin, ticks: uint32, high: bool, partial: bool, j: nat)
    requires s != [] && Absent(s, pin)
    requires t == if partial then EnterEvent(s, pin, ticks, high) else EnterConstant(s, pin, high)
    requires 0 < j < |t| && (j < |s| ==> IsFresh(s, j))
    ensures IsFresh(t, j)
  {
    if j < |s| {
      var p :| FreshEvent(s, j, p);
      assert p in s[j].on || p in s[j].off;
      assert FreshEvent(t, j, p);
    } else {
      assert FreshEvent(t, j, pin);
    }
  }

  /** The table after a channel has been entered. */
  function Entered(s: seq<Phase>, period: uint32, pin: Pin, duty: uint32): seq<Phase>
    requires s != []
  {
    if duty == 0 then EnterConstant(s, pin, false)
    else if duty >= period then EnterConstant(s, pin, true)
    else if duty < period / 2 then EnterEvent(s, pin, duty, true)
    else EnterEvent(s, pin, period - duty, false)
  }

  lemma EnteredParts(s: seq<Phase>, period: uint32, pin: Pin, duty: uint32)
    returns (ticks: uint32, high: bool, partial: bool)
    requires s != []
    ensures partial <==> 0 < duty < period
    ensures !partial ==> (high <==> duty > 0)
    ensures partial ==> 1 <= ticks && 2 * ticks <= period + 1
    ensures partial ==> if duty < period / 2 then high && ticks == duty else !high && ticks == period - duty
    ensures Entered(s, period, pin, duty) ==
            if partial then EnterEvent(s, pin, ticks, high) else EnterConstant(s, pin, high)
  {
    partial := 0 < duty < period;
    high := if partial then duty < period / 2 else duty > 0;
    ticks := if partial && !high then period - duty else duty;
  }

  lemma EnteredChannels(s: seq<Phase>, period: uint32, pins: seq<Pin>, duty: seq<uint32>, n: nat)
    requires Building(s, period, pins, duty, n) && n < |pins| && Distinct(pins)
    ensures forall c :: 0 <= c < n + 1 ==> ChannelEvents(Entered(s, period, pins[n], duty[n]), pins[c], duty[c], period)
  {
    var t := Entered(s, period, pins[n], duty[n]);
    var ticks, high, partial := EnteredParts(s, period, pins[n], duty[n]);
    forall c | 0 <= c < n
      ensures ChannelEvents(t, pins[c], duty[c], period)
    {
      EnterOther(s, t, pins[n], pins[c], ticks, high);
    }
    assert pins[n] !in pins[..n];
    EnterThis(s, t, pins[n], ticks, high, partial);
  }

  lemma EnteredEntries(s: seq<Phase>, period: uint32, pins: seq<Pin>, duty: seq<uint32>, n: nat)
    requires Building(s, period, pins, duty, n) && n < |pins| && Distinct(pins)
    ensures var t := Entered(s, period, pins[n], duty[n]);
            && (forall j :: 0 < j < |t| ==> IsFresh(t, j))
            && (forall pin: Pin :: pin !in pins[..n + 1] ==> Absent(t, pin))
  {
    var t := Entered(s, period, pins[n], duty[n]);
    var ticks, high, partial := EnteredParts(s, period, pins[n], duty[n]);
    assert pins[n] !in pins[..n];
    assert pins[..n + 1] == pins[..n] + [pins[n]];
    forall other: Pin | other !in pins[..n + 1]
      ensures Absent(t, other)
    {
      EnterOther(s, t, pins[n], other, ticks, high);
    }
    forall j | 0 < j < |t|
      ensures IsFresh(t, j)
    {
      EnterFresh(s, t, pins[n], ticks, high, partial, j);
    }
  }

  lemma EnteredKeeps(s: seq<Phase>, period: uint32, pins: seq<Pin>, duty: seq<uint32>, n: nat)
    requires Building(s, period, pins, duty, n) && n < |pins| && Distinct(pins)
    ensures Building(Entered(s, period, pins[n], duty[n]), period, pins, duty, n + 1)
  {
    var ticks, high, partial := EnteredParts(s, period, pins[n], duty[n]);
    EnteredChannels(s, period, pins, duty, n);
    EnteredEntries(s, period, pins, duty, n);
    assert duty[..n + 1] == duty[..n] + [duty[n]];
  }

  lemma EnteredCrowds(s: seq<Phase>, t: seq<Phase>, period: uint32, pin: Pin, duty: uint32)
    requires s != [] && s[0].ticks == 0 && period >= MIN_PERIOD && t == Entered(s, period, pin, duty)
    ensures t[0].ticks == 0
    ensures Crowded(t, period) <==> Crowded(s, period) || CrampedBy(duty, period)
  {
    var ticks, high, partial := EnteredParts(s, period, pin, duty);
    forall j | 0 <= j < |s|
      ensures LateEvent(t[j], period) <==> LateEvent(s[j], period)
    {
    }
    if partial {
      assert t[|s|].ticks == EventTime(duty, period) && pin in t[|s|].on + t[|s|].off;
      assert LateEvent(t[|s|], period) <==> CrampedBy(duty, period);
    }
  }

  /** The table is crowded exactly if some channel asks for it. */
  lemma {:induction false} TableCrowds(period: uint32, pins: seq<Pin>, duty: seq<uint32>, n: nat)
    requires n <= |pins| == |duty| && period >= MIN_PERIOD
    ensures Table(period, pins, duty, n)[0].ticks == 0
    ensures Crowded(Table(period, pins, duty, n), period) <==> Cramped(duty[..n], period)
  {
    if n == 0 {
    } else {
      var s := Table(period, pins, duty, n - 1);
      TableCrowds(period, pins, duty, n - 1);
      EnteredCrowds(s, Table(period, pins, duty, n), period, pins[n - 1], duty[n - 1]);
      MoreCramped(duty[..n - 1], duty[n - 1], period);
      assert duty[..n] == duty[..n - 1] + [duty[n - 1]];
    }
  }

  lemma MoreCramped(duty: seq<uint32>, d: uint32, period: uint32)
    ensures Cramped(duty + [d], period) <==> Cramped(duty, period) || CrampedBy(d, period)
  {
    var more := duty + [d];
    assert forall c :: 0 <= c < |duty| ==> more[c] == duty[c];
    assert more[|duty|] == d;
  }

  lemma MarkerKeeps(s: seq<Phase>, t: seq<Phase>, period: uint32, pins: seq<Pin>, duty: seq<uint32>)
    requires Building(s, period, pins, duty, |pins|) && t == s + [Phase(period, {}, {})]
    ensures Built(t, period)
    ensures forall pin :: OnTimes(s, pin) == OnTimes(t, pin) && OffTimes(s, pin) == OffTimes(t, pin)
  {
    forall pin: Pin
      ensures OnTimes(s, pin) == OnTimes(t, pin) && OffTimes(s, pin) == OffTimes(t, pin)
    {
      SameEvents(s, t, pin);
    }
    forall j | 0 < j < |t| - 1
      ensures IsFresh(t, j)
    {
      assert IsFresh(s, j);
      var p :| FreshEvent(s, j, p);
      assert FreshEvent(t, j, p);
    }
  }

  ghost predicate Blank(s: seq<Phase>) {
    forall i :: 0 <= i < |s| ==> s[i] == Phase(0, {}, {})
  }

  method ClearTable(pwm: array<Phase>, count: nat)
    requires count <= pwm.Length
    modifies pwm
    ensures Blank(pwm[..count])
  {
    var n := 0;
    while n < count
      invariant n <= count
      invariant forall i :: 0 <= i < n ==> pwm[i] == Phase(0, {}, {})
    {
      pwm[n] := Phase(0, {}, {});
      n := n + 1;
    }
  }

  /** One turn of the building loop. */
  method EnterChannel(pwm: array<Phase>, phases: nat, ghost count: nat, period: uint32, pin: Pin, ticks: uint32)
    returns (next: nat)
    requires 1 <= phases < count <= pwm.Length && Blank(pwm[phases..count])
    modifies pwm
    ensures phases <= next <= phases + 1
    ensures pwm[..next] == Entered(old(pwm[..phases]), period, pin, ticks)
    ensures Blank(pwm[next..count])
  {
    next := phases;
    if ticks == 0 {
      pwm[0] := pwm[0].(off := pwm[0].off + {pin});
    } else if ticks >= period {
      pwm[0] := pwm[0].(on := pwm[0].on + {pin});
    } else {
      assert pwm[phases] == pwm[phases..count][0];
      if ticks < period / 2 {
        pwm[phases] := pwm[phases].(ticks := ticks);
        pwm[0] := pwm[0].(on := pwm[0].on + {pin});
        pwm[phases] := pwm[phases].(off := {pin});
      } else {
        pwm[phases] := pwm[phases].(ticks := period - ticks);
        pwm[phases] := pwm[phases].(on := {pin});
        pwm[0] := pwm[0].(off := pwm[0].off + {pin});
      }
      next := phases + 1;
    }
  }

  /** The table after the first `n` channels have been entered. */
  ghost function Table(period: uint32, pins: seq<Pin>, duty: seq<uint32>, n: nat): (s: seq<Phase>)
    requires n <= |pins| == |duty|
    ensures 1 <= |s| <= n + 1
  {
    if n == 0 then [Phase(0, {}, {})]
    else Entered(Table(period, pins, duty, n - 1), period, pins[n - 1], duty[n - 1])
  }

  lemma {:induction false} TableIsBuilding(period: uint32, pins: seq<Pin>, duty: seq<uint32>, n: nat)
    requires n <= |pins| == |duty| && Distinct(pins)
    ensures Building(Table(period, pins, duty, n), period, pins, duty, n)
  {
    if n == 0 {
    } else {
      TableIsBuilding(period, pins, duty, n - 1);
      EnteredKeeps(Table(period, pins, duty, n - 1), period, pins, duty, n - 1);
    }
  }

  method EnterChannels(pwm: array<Phase>, period: uint32, pins: seq<Pin>, duty: seq<uint32>) returns (phases: nat)
    requires |duty| == |pins| && pwm.Length >= |pins| + 2 && Blank(pwm[..|pins| + 2])
    modifies pwm
    ensures 1 <= phases <= |pins| + 1
    ensures pwm[..phases] == Table(period, pins, duty, |pins|)
    ensures pwm[phases] == Phase(0, {}, {})
  {
    phases := 1;
    var n := 0;
    assert pwm[0] == pwm[..|pins| + 2][0];
    while n < |pins|
      invariant n <= |pins| && 1 <= phases <= n + 1
      invariant pwm[..phases] == Table(period, pins, duty, n)
      invariant Blank(pwm[phases..|pins| + 2])
    {
      phases := EnterChannel(pwm, phases, |pins| + 2, period, pins[n], duty[n]);
      n := n + 1;
    }
    assert pwm[phases] == pwm[phases..|pins| + 2][0];
  }

  /** The first pass: one table entry for every channel that is neither off nor fully on. */
  method Build(pwm: array<Phase>, period: uint32, pins: seq<Pin>, duty: seq<uint32>) returns (phases: nat)
    requires |duty| == |pins| <= PWM_MAX_CHANNELS && pwm.Length == PWM_MAX_CHANNELS + 2
    requires Distinct(pins)
    modifies pwm
    ensures 1 <= phases <= |pins| + 1
    ensures Built(pwm[..phases + 1], period)
    ensures forall c :: 0 <= c < |pins| ==> ChannelEvents(pwm[..phases + 1], pins[c], duty[c], period)
    ensures forall pin: Pin :: pin !in pins ==> Untouched(pwm[..phases + 1], pin)
    ensures phases > 1 <==> SomePartial(duty, period)
    ensures period >= MIN_PERIOD ==> (Crowded(pwm[..phases + 1], period) <==> Cramped(duty, period))
  {
    ClearTable(pwm, |pins| + 2);
    phases := EnterChannels(pwm, period, pins, duty);
    ghost var s := pwm[..phases];
    TableIsBuilding(period, pins, duty, |pins|);
    pwm[phases] := pwm[phases].(ticks := period);
    assert pwm[..phases + 1] == s + [Phase(period, {}, {})];
    Finish(s, pwm[..phases + 1], period, pins, duty);
    if period >= MIN_PERIOD {
      TableCrowds(period, pins, duty, |pins|);
      MarkerCrowds(s, pwm[..phases + 1], period);
      assert duty[..|pins|] == duty;
    }
  }

  lemma MarkerCrowds(s: seq<Phase>, t: seq<Phase>, period: uint32)
    requires t == s + [Phase(period, {}, {})]
    ensures Crowded(t, period) <==> Crowded(s, period)
  {
    assert forall j :: 0 <= j < |s| ==> t[j] == s[j];
  }

  lemma Finish(s: seq<Phase>, t: seq<Phase>, period: uint32, pins: seq<Pin>, duty: seq<uint32>)
    requires Building(s, period, pins, duty, |pins|) && t == s + [Phase(period, {}, {})]
    ensures Built(t, period)
    ensures forall c :: 0 <= c < |pins| ==> ChannelEvents(t, pins[c], duty[c], period)
    ensures forall pin: Pin :: pin !in pins ==> Untouched(t, pin)
    ensures |s| > 1 <==> SomePartial(duty, period)
  {
    MarkerKeeps(s, t, period, pins, duty);
    assert pins[..|pins|] == pins && duty[..|pins|] == duty;
    forall pin: Pin | pin !in pins
      ensures Untouched(t, pin)
    {
      AbsentUntouched(s, pin);
    }
  }
}

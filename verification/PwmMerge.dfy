/** The second sort and the merge of entries with equal times. */
module PwmMerge {
  import opened PinMasks
  import opened PwmWave
  import opened PwmCompiler
  import opened PwmShift

  // ----- Second sort -----

  lemma SortKeepsShifted(s: seq<Phase>, t: seq<Phase>, from: seq<nat>, to: seq<nat>, period: uint32, low: nat)
    requires Shifted(s, period, low) && IsLow(low, period)
    requires Rearranged(s, t, from, to) && SortedUpTo(t, |t|) && from[0] == 0
    ensures Shifted(t, period, low) && SameWaves(s, t, period)
  {
    var last := |s| - 1;
    var k := to[last];
    assert t[k] == s[last] && k > 0;
    assert t[k].ticks <= t[last].ticks;
    assert from[last] == last;
    forall pin: Pin
      ensures SameMeaning(s, t, period, pin)
    {
      RearrangedEvents(s, t, from, to, pin);
    }
  }

  // ----- Merge -----

  /** Entry `r` folded into entry `l`. */
  function Folded(s: seq<Phase>, l: nat, r: nat): seq<Phase>
    requires l < r < |s|
  {
    s[l := s[l].(off := s[l].off + s[r].off, on := s[l].on + s[r].on)][r := s[r].(on := {}, off := {})]
  }

  /** One step: entries up to `l` are done, entry `r` is next.  Also the new `l`. */
  ghost function MergeNext(s: seq<Phase>, l: nat, r: nat): (seq<Phase>, nat)
    requires l < r < |s|
  {
    if s[r].ticks == s[l].ticks then (Folded(s, l, r), l) else (Swapped(s, l + 1, r), l + 1)
  }

  ghost function MergeFrom(s: seq<Phase>, l: nat, r: nat): (seq<Phase>, nat)
    requires l < r && l < |s|
    decreases |s| - r
  {
    if r >= |s| then (s, l)
    else MergeFrom(MergeNext(s, l, r).0, MergeNext(s, l, r).1, r + 1)
  }

  ghost predicate Done(s: seq<Phase>, l: nat, period: uint32, low: nat) {
    && l < |s| && s[0].ticks == 0
    && (forall i, j :: 0 <= i < j <= l ==> s[i].ticks < s[j].ticks)
    && (forall i :: 0 < i <= l && s[i].ticks != period ==> Live(s[i]))
    && (forall i :: 0 < i <= l ==> low <= s[i].ticks <= period)
    && (|s| > 2 ==> Live(s[0]))
  }

  ghost predicate Left(s: seq<Phase>, l: nat, r: nat, period: uint32, low: nat) {
    && l < r <= |s|
    && (forall i :: l < i < r ==> s[i].on == {} && s[i].off == {})
    && (forall i :: r <= i < |s| - 1 ==> Live(s[i]) && low <= s[i].ticks < period)
    && (forall i, j :: r <= i < j < |s| ==> s[i].ticks <= s[j].ticks)
    && (forall j :: r <= j < |s| ==> s[l].ticks <= s[j].ticks)
    && (if r < |s| then s[l].ticks < period && s[|s| - 1] == Phase(period, {}, {})
        else s[l] == Phase(period, {}, {}))
  }

  lemma FoldEvents(s: seq<Phase>, l: nat, r: nat, pin: Pin)
    requires l < r < |s| && s[l].ticks == s[r].ticks
    ensures OnTimes(Folded(s, l, r), pin) == OnTimes(s, pin)
    ensures OffTimes(Folded(s, l, r), pin) == OffTimes(s, pin)
  {
    var t := Folded(s, l, r);
    forall i | 0 <= i < |s|
      ensures pin in s[i].on ==> exists k :: 0 <= k < |t| && pin in t[k].on && t[k].ticks == s[i].ticks
      ensures pin in s[i].off ==> exists k :: 0 <= k < |t| && pin in t[k].off && t[k].ticks == s[i].ticks
    {
      var k := if i == r then l else i;
      assert t[k].ticks == s[i].ticks;
    }
    forall k | 0 <= k < |t|
      ensures pin in t[k].on ==> exists i :: 0 <= i < |s| && pin in s[i].on && s[i].ticks == t[k].ticks
      ensures pin in t[k].off ==> exists i :: 0 <= i < |s| && pin in s[i].off && s[i].ticks == t[k].ticks
    {
      assert pin in t[k].on ==> pin in s[k].on || pin in s[r].on;
      assert pin in t[k].off ==> pin in s[k].off || pin in s[r].off;
    }
  }

  lemma SwapEvents(s: seq<Phase>, i: nat, j: nat, pin: Pin)
    requires i < |s| && j < |s|
    ensures OnTimes(Swapped(s, i, j), pin) == OnTimes(s, pin)
    ensures OffTimes(Swapped(s, i, j), pin) == OffTimes(s, pin)
  {
    var t := Swapped(s, i, j);
    assert t[i] == s[j] && t[j] == s[i];
    forall k | 0 <= k < |s|
      ensures pin in s[k].on ==> s[k].ticks in OnTimes(t, pin)
      ensures pin in s[k].off ==> s[k].ticks in OffTimes(t, pin)
    {
      assert s[k] == t[if k == i then j else if k == j then i else k];
    }
  }

  lemma {:induction false} MergeKeepsEvents(s: seq<Phase>, l: nat, r: nat, pin: Pin)
    requires l < r && l < |s|
    ensures OnTimes(MergeFrom(s, l, r).0, pin) == OnTimes(s, pin)
    ensures OffTimes(MergeFrom(s, l, r).0, pin) == OffTimes(s, pin)
    decreases |s| - r
  {
    if r < |s| {
      if s[r].ticks == s[l].ticks {
        FoldEvents(s, l, r, pin);
      } else {
        SwapEvents(s, l + 1, r, pin);
      }
      var (t, k) := MergeNext(s, l, r);
      MergeKeepsEvents(t, k, r + 1, pin);
    }
  }

  ghost predicate Merging(s: seq<Phase>, l: nat, r: nat, period: uint32, low: nat) {
    IsLow(low, period) && Done(s, l, period, low) && Left(s, l, r, period, low)
  }

  lemma FoldStep(s: seq<Phase>, l: nat, r: nat, period: uint32, low: nat)
    requires Merging(s, l, r, period, low) && r < |s| && s[r].ticks == s[l].ticks
    ensures Done(Folded(s, l, r), l, period, low) && Left(Folded(s, l, r), l, r + 1, period, low)
  {
    var t := Folded(s, l, r);
    forall i | 0 <= i <= l && Live(s[i])
      ensures Live(t[i])
    {
      var p :| p in s[i].on + s[i].off;
      assert p in t[i].on + t[i].off;
    }
  }

  lemma KeepDone(s: seq<Phase>, l: nat, r: nat, period: uint32, low: nat)
    requires Merging(s, l, r, period, low) && r < |s| && s[r].ticks != s[l].ticks
    ensures Done(Swapped(s, l + 1, r), l + 1, period, low)
  {
  }

  lemma KeepLeft(s: seq<Phase>, l: nat, r: nat, period: uint32, low: nat)
    requires Merging(s, l, r, period, low) && r < |s| && s[r].ticks != s[l].ticks
    ensures Left(Swapped(s, l + 1, r), l + 1, r + 1, period, low)
  {
  }

  lemma MergeStep(s: seq<Phase>, l: nat, r: nat, period: uint32, low: nat)
    requires Merging(s, l, r, period, low) && r < |s|
    ensures |MergeNext(s, l, r).0| == |s| && Merging(MergeNext(s, l, r).0, MergeNext(s, l, r).1, r + 1, period, low)
  {
    if s[r].ticks == s[l].ticks {
      FoldStep(s, l, r, period, low);
    } else {
      KeepDone(s, l, r, period, low);
      KeepLeft(s, l, r, period, low);
    }
  }

  lemma {:induction false} MergeSettles(s: seq<Phase>, l: nat, r: nat, period: uint32, low: nat)
    requires Merging(s, l, r, period, low)
    ensures Merging(MergeFrom(s, l, r).0, MergeFrom(s, l, r).1, |s|, period, low)
    decreases |s| - r
  {
    if r == |s| {
    } else {
      MergeStep(s, l, r, period, low);
      var next := MergeNext(s, l, r);
      MergeSettles(next.0, next.1, r + 1, period, low);
    }
  }

  /** Times up to entry `l` are increasing, and those from `r` on are in order. */
  ghost predicate Rises(s: seq<Phase>, l: nat, r: nat) {
    && l < r <= |s|
    && (forall i, j :: 0 <= i < j <= l ==> s[i].ticks < s[j].ticks)
    && (forall i, j :: r <= i < j < |s| ==> s[i].ticks <= s[j].ticks)
    && (forall j :: r <= j < |s| ==> s[l].ticks <= s[j].ticks)
  }

  /** The latest time of a table in that state. */
  ghost function Latest(s: seq<Phase>, l: nat, r: nat): uint32
    requires l < r <= |s|
  {
    if r == |s| then s[l].ticks else s[|s| - 1].ticks
  }

  lemma RisesNext(s: seq<Phase>, l: nat, r: nat)
    requires Rises(s, l, r) && r < |s|
    ensures var next := MergeNext(s, l, r);
            && |next.0| == |s| && Rises(next.0, next.1, r + 1) && Latest(next.0, next.1, r + 1) == Latest(s, l, r)
  {
  }

  lemma {:induction false} MergeRises(s: seq<Phase>, l: nat, r: nat)
    requires Rises(s, l, r)
    ensures Rises(MergeFrom(s, l, r).0, MergeFrom(s, l, r).1, |s|)
    ensures Latest(MergeFrom(s, l, r).0, MergeFrom(s, l, r).1, |s|) == Latest(s, l, r)
    decreases |s| - r
  {
    if r == |s| {
    } else {
      RisesNext(s, l, r);
      var next := MergeNext(s, l, r);
      MergeRises(next.0, next.1, r + 1);
    }
  }

  /** Entries that are done keep their times. */
  lemma {:induction false} DoneStays(s: seq<Phase>, l: nat, r: nat)
    requires l < r && l < |s|
    ensures |MergeFrom(s, l, r).0| == |s| && l <= MergeFrom(s, l, r).1 < |s|
    ensures forall i :: 0 <= i <= l ==> MergeFrom(s, l, r).0[i].ticks == s[i].ticks
    decreases |s| - r
  {
    if r < |s| {
      var (t, k) := MergeNext(s, l, r);
      DoneStays(t, k, r + 1);
    }
  }

  /** A time line whose entries before the marker all do something and lie at `low` or later. */
  ghost predicate Merged(s: seq<Phase>, period: uint32, low: nat) {
    && Timeline(s, period)
    && (forall i :: 0 < i < |s| - 1 ==> Live(s[i]))
    && (forall i :: 0 < i < |s| ==> low <= s[i].ticks)
    && (|s| > 2 ==> Live(s[0]))
  }

  /** The marker becomes the last entry; it is the second only if there was no event. */
  lemma MergeEnd(s: seq<Phase>, period: uint32, low: nat)
    requires Shifted(s, period, low) && SortedUpTo(s, |s|) && IsLow(low, period)
    ensures var (t, k) := MergeFrom(s, 0, 1);
            |t| == |s| && Merging(t, k, |t|, period, low) && 1 <= k && (k > 1 <==> |s| > 2)
            && t[1].ticks == s[1].ticks
  {
    MergeSettles(s, 0, 1, period, low);
    assert s[1].ticks != s[0].ticks && Swapped(s, 1, 1) == s;
    DoneStays(s, 1, 2);
    var (t, k) := MergeFrom(s, 0, 1);
    assert (t, k) == MergeFrom(s, 1, 2);
    assert t[1].ticks == s[1].ticks && t[k].ticks == period;
  }

  ghost predicate Idle(s: seq<Phase>) {
    forall i :: 0 <= i < |s| ==> s[i].on == {} && s[i].off == {}
  }

  lemma IdleTail(t: seq<Phase>, k: nat, pin: Pin)
    requires k < |t| && Idle(t[k + 1..])
    ensures OnTimes(t[..k + 1], pin) == OnTimes(t, pin) && OffTimes(t[..k + 1], pin) == OffTimes(t, pin)
  {
    assert forall i :: k < i < |t| ==> t[i] == t[k + 1..][i - k - 1];
  }

  lemma MergeMeaning(s: seq<Phase>, t: seq<Phase>, k: nat, u: seq<Phase>, period: uint32)
    requires |s| >= 2 && (t, k) == MergeFrom(s, 0, 1) && k < |t|
    requires u == t[..k + 1] && Idle(t[k + 1..])
    ensures SameWaves(s, u, period)
  {
    forall pin: Pin
      ensures SameMeaning(s, u, period, pin)
    {
      MergeKeepsEvents(s, 0, 1, pin);
      IdleTail(t, k, pin);
      SameTimes(s, u, period, pin);
    }
  }

  lemma SameTimes(s: seq<Phase>, t: seq<Phase>, period: uint32, pin: Pin)
    requires OnTimes(s, pin) == OnTimes(t, pin) && OffTimes(s, pin) == OffTimes(t, pin)
    ensures SameMeaning(s, t, period, pin)
  {
  }

  lemma MergedPrefix(t: seq<Phase>, k: nat, u: seq<Phase>, period: uint32, low: nat)
    requires Merging(t, k, |t|, period, low) && k >= 1 && u == t[..k + 1]
    ensures Merged(u, period, low) && Idle(t[k + 1..])
  {
  }

  lemma MergeTable(s: seq<Phase>, t: seq<Phase>, k: nat, u: seq<Phase>, period: uint32, low: nat)
    requires Shifted(s, period, low) && SortedUpTo(s, |s|) && IsLow(low, period)
    requires (t, k) == MergeFrom(s, 0, 1) && k < |t| && u == t[..k + 1]
    ensures Merged(u, period, low) && SameWaves(s, u, period)
    ensures k >= 1 && (k > 1 <==> |s| > 2) && u[1].ticks == s[1].ticks
  {
    MergeEnd(s, period, low);
    MergedPrefix(t, k, u, period, low);
    MergeMeaning(s, t, k, u, period);
  }

  method MergeEqual(pwm: array<Phase>, phases: nat) returns (left: nat)
    requires 1 <= phases < pwm.Length
    modifies pwm
    ensures (pwm[..phases + 1], left) == MergeFrom(old(pwm[..phases + 1]), 0, 1)
    ensures left <= phases
  {
    ghost var was := pwm[..phases + 1];
    ghost var now := was;
    var l, r := 0, 1;
    while r <= phases
      invariant l < r <= phases + 1
      invariant now == pwm[..phases + 1]
      invariant MergeFrom(now, l, r) == MergeFrom(was, 0, 1)
    {
      assert now[r] == pwm[r] && now[l] == pwm[l];
      if pwm[r].ticks == pwm[l].ticks {
        now := Folded(now, l, r);
        pwm[l] := pwm[l].(off := pwm[l].off + pwm[r].off);
        pwm[l] := pwm[l].(on := pwm[l].on + pwm[r].on);
        pwm[r] := pwm[r].(on := {});
        pwm[r] := pwm[r].(off := {});
      } else {
        now := Swapped(now, l + 1, r);
        l := l + 1;
        if l != r {
          Exchange(pwm, l, r, phases + 1);
        }
      }
      r := r + 1;
    }
    left := l;
  }
}

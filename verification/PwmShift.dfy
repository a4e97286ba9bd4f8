/** The "shift left" pass: an event at most 16 ticks after its predecessor takes the predecessor's time,
    and the opposite event of the same pin goes into the tail of the period, so that the pin's whole
    pulse has moved to the left.
  */
module PwmShift {
  import opened PinMasks
  import opened PwmWave
  import opened PwmCompiler

  /** The difference of two 32-bit numbers. */
  function Before(period: uint32, diff: uint32): uint32 {
    if diff <= period then period - diff else period - diff + 0x1_0000_0000
  }

  /** The table after event `r` has been moved onto entry `l`. */
  function Moved(s: seq<Phase>, l: nat, r: nat, period: uint32): seq<Phase>
    requires l < r < |s| && 0 < s[r].ticks - s[l].ticks <= 16
  {
    var p := s[r];
    var mask := p.on + p.off;
    var atL := s[l := s[l].(off := Flip(s[l].off, p.off), on := Flip(s[l].on, p.on))];
    var at0 := atL[0 := atL[0].(off := Flip(atL[0].off, p.on), on := Flip(atL[0].on, p.off))];
    at0[r := Phase(Before(period, p.ticks - s[l].ticks), Flip(p.on, mask), Flip(p.off, mask))]
  }

  /** The rest of the pass, from entry `r` on, with `l` the last entry left in place. */
  ghost function ShiftFrom(s: seq<Phase>, l: nat, r: nat, period: uint32): seq<Phase>
    requires l < r && l < |s|
    decreases |s| - r
  {
    if r >= |s| then s
    else if 0 < s[r].ticks - s[l].ticks <= 16 then ShiftFrom(Moved(s, l, r, period), l, r + 1, period)
    else ShiftFrom(s, r, r + 1, period)
  }

  // ----- What the pass keeps -----

  /** Some pin that the first entry switches has no event left to move. */
  ghost predicate Anchor(s: seq<Phase>, r: nat, pin: Pin)
    requires s != []
  {
    && (pin in s[0].on || pin in s[0].off)
    && forall j :: r <= j < |s| ==> pin !in s[j].on && pin !in s[j].off
  }

  ghost predicate Anchored(s: seq<Phase>, r: nat)
    requires s != []
  {
    exists pin :: Anchor(s, r, pin)
  }

  /** The earliest time of an event once it has been moved: 17 leaves the first phase long enough. */
  predicate IsLow(low: nat, period: uint32) {
    MIN_PERIOD <= period && 1 <= low <= 17 && (low == 17 || low == period - 16)
  }

  /** Entries before `r` are final: none before `low`, none empty. */
  ghost predicate Settled(s: seq<Phase>, r: nat, period: uint32, low: nat) {
    forall j :: 0 < j < r && j < |s| - 1 ==> low <= s[j].ticks < period && Live(s[j])
  }

  ghost predicate Pending(s: seq<Phase>, l: nat, r: nat, period: uint32, low: nat) {
    && l < r && l < |s|
    && (forall j :: r <= j < |s| - 1 ==> 1 <= s[j].ticks && s[j].ticks + low <= period)
    && (forall j :: r <= j < |s| ==> s[l].ticks <= s[j].ticks)
    && (forall i, j :: r <= i < j < |s| ==> s[i].ticks <= s[j].ticks)
    && (r < |s| && l > 0 ==> 17 <= s[l].ticks && s[l].ticks + 17 <= period)
  }

  ghost predicate Shifting(s: seq<Phase>, l: nat, r: nat, period: uint32, low: nat) {
    && |s| >= 2 && s[0].ticks == 0 && s[|s| - 1] == Phase(period, {}, {})
    && IsLow(low, period)
    && 0 < r <= |s|
    && Settled(s, r, period, low)
    && Pending(s, l, r, period, low)
    && FreshFrom(s, r)
    && (1 < r && 2 < |s| ==> Anchored(s, r))
  }

  lemma OtherPins(s: seq<Phase>, l: nat, r: nat, period: uint32, p: Pin, q: Pin)
    requires l < r < |s| && 0 < s[r].ticks - s[l].ticks <= 16 <= period
    requires SwitchesOnly(s[r], p) && p != q
    ensures var t := Moved(s, l, r, period);
            && |t| == |s|
            && (forall i :: 0 <= i < |s| ==> (q in t[i].on <==> q in s[i].on) && (q in t[i].off <==> q in s[i].off))
            && (forall i :: 0 <= i < |s| && i != r ==> t[i].ticks == s[i].ticks)
            && (forall i :: r < i < |s| ==> t[i] == s[i])
  {
  }

  lemma ThisPin(s: seq<Phase>, l: nat, r: nat, period: uint32, p: Pin)
    requires l < r < |s| && 0 < s[r].ticks - s[l].ticks <= 16 <= period
    requires FreshEvent(s, r, p)
    ensures var t := Moved(s, l, r, period);
            && (p in t[r].on <==> p in s[r].off) && (p in t[r].off <==> p in s[r].on)
            && (p in t[l].on <==> p in s[r].on) && (p in t[l].off <==> p in s[r].off)
            && (forall i :: 0 <= i < |s| && i != l && i != r ==> p !in t[i].on && p !in t[i].off)
            && t[r].ticks == period - (s[r].ticks - s[l].ticks)
            && t[l].ticks == s[l].ticks
  {
  }

  /** The moved pin's pulse is the old one, `s[r].ticks - s[l].ticks` earlier. */
  lemma PulseMoves(s: seq<Phase>, l: nat, r: nat, period: uint32, p: Pin)
    requires l < r < |s| && 0 < s[r].ticks - s[l].ticks <= 16 <= period
    requires FreshEvent(s, r, p) && s[0].ticks == 0
    ensures var t := Moved(s, l, r, period);
            var tail := period - (s[r].ticks - s[l].ticks);
            if p in s[r].off then
              && OnTimes(s, p) == {0} && OffTimes(s, p) == {s[r].ticks as int}
              && OnTimes(t, p) == {tail} && OffTimes(t, p) == {s[l].ticks as int}
            else
              && OnTimes(s, p) == {s[r].ticks as int} && OffTimes(s, p) == {0}
              && OnTimes(t, p) == {s[l].ticks as int} && OffTimes(t, p) == {tail}
  {
    var t := Moved(s, l, r, period);
    ThisPin(s, l, r, period, p);
    if p in s[r].off {
      assert p in s[0].on && p !in s[0].off;
      assert p in t[r].on && p in t[l].off;
    } else {
      assert p in s[0].off && p !in s[0].on;
      assert p in t[r].off && p in t[l].on;
    }
  }

  /** A pulse from `a` to `b` and one from `c` to `d` that is as long. */
  lemma SamePulse(s: seq<Phase>, t: seq<Phase>, period: uint32, pin: Pin, a: int, b: int, c: int, d: int)
    requires 0 <= a < period && 0 <= b < period && 0 <= c < period && 0 <= d < period && a != b && c != d
    requires OnTimes(s, pin) == {a} && OffTimes(s, pin) == {b} && OnTimes(t, pin) == {c} && OffTimes(t, pin) == {d}
    requires Back(a, b, period) == Back(c, d, period)
    ensures SameMeaning(s, t, period, pin)
  {
    PairHigh(a, b, period);
    PairHigh(c, d, period);
    assert a in OnTimes(s, pin) && c in OnTimes(t, pin);
  }

  lemma MovedPinHigh(s: seq<Phase>, l: nat, r: nat, period: uint32, p: Pin)
    requires l < r < |s| && 0 < s[r].ticks - s[l].ticks <= 16 <= period
    requires FreshEvent(s, r, p) && s[0].ticks == 0
    requires s[r].ticks < period
    ensures SameMeaning(s, Moved(s, l, r, period), period, p)
  {
    var t := Moved(s, l, r, period);
    PulseMoves(s, l, r, period, p);
    var a, b, tail := s[r].ticks as int, s[l].ticks as int, period - (s[r].ticks - s[l].ticks);
    if p in s[r].off {
      SamePulse(s, t, period, p, 0, a, tail, b);
    } else {
      SamePulse(s, t, period, p, a, 0, b, tail);
    }
  }

  lemma MoveKeepsMeaning(s: seq<Phase>, l: nat, r: nat, period: uint32, p: Pin, pin: Pin)
    requires l < r < |s| && 0 < s[r].ticks - s[l].ticks <= 16 <= period
    requires FreshEvent(s, r, p) && s[0].ticks == 0
    requires s[r].ticks < period
    ensures SameMeaning(s, Moved(s, l, r, period), period, pin)
  {
    if pin != p {
      OtherPins(s, l, r, period, p, pin);
      SameEvents(s, Moved(s, l, r, period), pin);
    } else {
      MovedPinHigh(s, l, r, period, p);
    }
  }

  // ----- One step of the pass -----

  lemma MoveKeepsFresh(s: seq<Phase>, l: nat, r: nat, period: uint32, p: Pin)
    requires l < r < |s| && 0 < s[r].ticks - s[l].ticks <= 16 <= period
    requires FreshEvent(s, r, p) && FreshFrom(s, r)
    ensures FreshFrom(Moved(s, l, r, period), r + 1)
  {
    var t := Moved(s, l, r, period);
    forall j | r + 1 <= j < |t| - 1
      ensures IsFresh(t, j)
    {
      assert IsFresh(s, j);
      var q :| FreshEvent(s, j, q);
      OtherPins(s, l, r, period, p, q);
      assert FreshEvent(t, j, q);
    }
  }

  lemma MoveKeepsAnchor(s: seq<Phase>, l: nat, r: nat, period: uint32, p: Pin)
    requires l < r < |s| && 0 < s[r].ticks - s[l].ticks <= 16 <= period
    requires FreshEvent(s, r, p)
    requires l > 0 ==> Anchored(s, r)
    ensures Anchored(Moved(s, l, r, period), r + 1)
  {
    var t := Moved(s, l, r, period);
    if l == 0 {
      ThisPin(s, l, r, period, p);
      assert Anchor(t, r + 1, p);
    } else {
      var w :| Anchor(s, r, w);
      OtherPins(s, l, r, period, p, w);
      assert Anchor(t, r + 1, w);
    }
  }

  lemma MoveSettles(s: seq<Phase>, l: nat, r: nat, period: uint32, low: nat, p: Pin)
    requires l < r < |s| - 1 && 0 < s[r].ticks - s[l].ticks <= 16
    requires IsLow(low, period) && s[r].ticks + low <= period
    requires FreshEvent(s, r, p) && Settled(s, r, period, low)
    ensures Settled(Moved(s, l, r, period), r + 1, period, low)
  {
  }

  lemma MarkerStays(s: seq<Phase>, l: nat, r: nat, period: uint32, low: nat)
    requires Shifting(s, l, r, period, low) && r < |s|
    requires s[r].ticks - s[l].ticks <= 16
    ensures r < |s| - 1
  {
  }

  lemma MoveStep(s: seq<Phase>, l: nat, r: nat, period: uint32, low: nat)
    requires Shifting(s, l, r, period, low) && r < |s|
    requires 0 < s[r].ticks - s[l].ticks <= 16
    ensures Shifting(Moved(s, l, r, period), l, r + 1, period, low)
  {
    MarkerStays(s, l, r, period, low);
    assert IsFresh(s, r);
    var p :| FreshEvent(s, r, p);
    MoveKeepsFresh(s, l, r, period, p);
    MoveKeepsAnchor(s, l, r, period, p);
    MoveSettles(s, l, r, period, low, p);
    OtherPins(s, l, r, period, p, if p == 0 then 1 else 0);
  }

  lemma MoveMeaning(s: seq<Phase>, l: nat, r: nat, period: uint32, low: nat, pin: Pin)
    requires Shifting(s, l, r, period, low) && r < |s|
    requires 0 < s[r].ticks - s[l].ticks <= 16
    ensures SameMeaning(s, Moved(s, l, r, period), period, pin)
  {
    MarkerStays(s, l, r, period, low);
    assert IsFresh(s, r);
    var p :| FreshEvent(s, r, p);
    MoveKeepsMeaning(s, l, r, period, p, pin);
  }

  lemma StayStep(s: seq<Phase>, l: nat, r: nat, period: uint32, low: nat)
    requires Shifting(s, l, r, period, low) && r < |s|
    requires !(0 < s[r].ticks - s[l].ticks <= 16)
    ensures Shifting(s, r, r + 1, period, low)
  {
    if r < |s| - 1 {
      assert IsFresh(s, r);
      var p :| FreshEvent(s, r, p);
      assert p in s[r].on + s[r].off;
      if r == 1 {
        assert Anchor(s, r + 1, p);
      } else {
        var w :| Anchor(s, r, w);
        assert Anchor(s, r + 1, w);
      }
    } else if |s| > 2 {
      var w :| Anchor(s, r, w);
      assert Anchor(s, r + 1, w);
    }
  }

  /** What holds of the table when the pass is over. */
  ghost predicate Shifted(s: seq<Phase>, period: uint32, low: nat) {
    && |s| >= 2 && s[0].ticks == 0 && s[|s| - 1] == Phase(period, {}, {})
    && (forall j :: 0 < j < |s| - 1 ==> low <= s[j].ticks < period && Live(s[j]))
    && (|s| > 2 ==> Live(s[0]))
  }

  lemma {:induction false} ShiftLength(s: seq<Phase>, l: nat, r: nat, period: uint32)
    requires l < r && l < |s|
    ensures |ShiftFrom(s, l, r, period)| == |s|
    decreases |s| - r
  {
    if r >= |s| {
    } else if 0 < s[r].ticks - s[l].ticks <= 16 {
      ShiftLength(Moved(s, l, r, period), l, r + 1, period);
    } else {
      ShiftLength(s, r, r + 1, period);
    }
  }

  lemma ShiftEnds(s: seq<Phase>, l: nat, period: uint32, low: nat)
    requires Shifting(s, l, |s|, period, low)
    ensures Shifted(s, period, low)
  {
    if |s| > 2 {
      var w :| Anchor(s, |s|, w);
      assert w in s[0].on + s[0].off;
    }
  }

  lemma {:induction false} ShiftSettles(s: seq<Phase>, l: nat, r: nat, period: uint32, low: nat)
    requires Shifting(s, l, r, period, low)
    ensures Shifted(ShiftFrom(s, l, r, period), period, low)
    decreases |s| - r
  {
    if r == |s| {
      ShiftEnds(s, l, period, low);
    } else if 0 < s[r].ticks - s[l].ticks <= 16 {
      MoveStep(s, l, r, period, low);
      ShiftSettles(Moved(s, l, r, period), l, r + 1, period, low);
    } else {
      StayStep(s, l, r, period, low);
      ShiftSettles(s, r, r + 1, period, low);
    }
  }

  lemma {:induction false} ShiftKeeps(s: seq<Phase>, l: nat, r: nat, period: uint32, low: nat, pin: Pin)
    requires Shifting(s, l, r, period, low)
    ensures SameMeaning(s, ShiftFrom(s, l, r, period), period, pin)
    decreases |s| - r, 1
  {
    if r == |s| {
    } else if 0 < s[r].ticks - s[l].ticks <= 16 {
      MoveShiftKeeps(s, l, r, period, low, pin);
    } else {
      StayStep(s, l, r, period, low);
      ShiftKeeps(s, r, r + 1, period, low, pin);
    }
  }

  lemma {:induction false} MoveShiftKeeps(s: seq<Phase>, l: nat, r: nat, period: uint32, low: nat, pin: Pin)
    requires Shifting(s, l, r, period, low) && r < |s|
    requires 0 < s[r].ticks - s[l].ticks <= 16
    ensures SameMeaning(s, ShiftFrom(Moved(s, l, r, period), l, r + 1, period), period, pin)
    decreases |s| - r, 0
  {
    MoveMeaning(s, l, r, period, low, pin);
    MoveStep(s, l, r, period, low);
    ShiftKeeps(Moved(s, l, r, period), l, r + 1, period, low, pin);
  }

  /** The table after the first sort; every event keeps `low` ticks from the end of the period. */
  ghost predicate Ready(s: seq<Phase>, period: uint32, low: nat) {
    && Built(s, period) && SortedUpTo(s, |s|) && IsLow(low, period)
    && forall j :: 0 < j < |s| - 1 ==> s[j].ticks + low <= period
  }

  lemma StartShifting(s: seq<Phase>, period: uint32, low: nat)
    requires Ready(s, period, low)
    ensures Shifting(s, 0, 1, period, low)
  {
  }

  lemma ShiftTable(s: seq<Phase>, period: uint32, low: nat)
    requires Ready(s, period, low)
    ensures var t := ShiftFrom(s, 0, 1, period); |t| == |s| && Shifted(t, period, low) && SameWaves(s, t, period)
  {
    StartShifting(s, period, low);
    ShiftLength(s, 0, 1, period);
    ShiftSettles(s, 0, 1, period, low);
    forall pin: Pin
      ensures SameMeaning(s, ShiftFrom(s, 0, 1, period), period, pin)
    {
      ShiftKeeps(s, 0, 1, period, low, pin);
    }
  }

  // ----- Periods of up to 33 ticks -----

  /** An event can only be late in a short period. */
  lemma LateIsShort(s: seq<Phase>, period: uint32) returns (j: nat)
    requires Built(s, period) && period >= MIN_PERIOD && Crowded(s, period)
    ensures period <= 33 && 0 < j < |s| - 1 && period - 16 <= s[j].ticks <= 17
  {
    j :| j < |s| && LateEvent(s[j], period);
  }

  lemma LowFor(s: seq<Phase>, period: uint32) returns (low: nat)
    requires Built(s, period) && SortedUpTo(s, |s|) && period >= MIN_PERIOD
    requires period == 33 ==> !Crowded(s, period)
    ensures Ready(s, period, low) && (low == 17 <==> !Crowded(s, period))
  {
    if Crowded(s, period) {
      low := period - 16;
      var j := LateIsShort(s, period);
    } else {
      low := 17;
      forall j | 0 < j < |s| - 1
        ensures s[j].ticks + low <= period
      {
        assert IsFresh(s, j);
        var p :| FreshEvent(s, j, p);
        assert p in s[j].on + s[j].off;
        assert !LateEvent(s[j], period);
      }
    }
  }

  /** Events that all lie in the first 16 ticks are mirrored into the last 16. */
  lemma {:induction false} Mirrored(s: seq<Phase>, r: nat, period: uint32, j: nat)
    requires 0 < r < |s| && s[0].ticks == 0 && s[|s| - 1].ticks == period >= MIN_PERIOD
    requires forall i :: r <= i < |s| - 1 ==> 1 <= s[i].ticks <= 16
    requires 0 < j < |s| - 1
    ensures |ShiftFrom(s, 0, r, period)| == |s|
    ensures ShiftFrom(s, 0, r, period)[j].ticks == if j < r then s[j].ticks else period - s[j].ticks
    decreases |s| - r
  {
    if r == |s| - 1 {
      assert ShiftFrom(s, 0, r, period) == ShiftFrom(s, r, r + 1, period) == s;
    } else {
      Mirrored(Moved(s, 0, r, period), r + 1, period, j);
    }
  }

  /** In a period of up to 16 ticks the end marker is mirrored as well, to the start. */
  lemma {:induction false} AllMirrored(s: seq<Phase>, r: nat, period: uint32, j: nat)
    requires 0 < r <= |s| && s != [] && s[0].ticks == 0 && period <= 16
    requires forall i :: r <= i < |s| ==> 1 <= s[i].ticks <= period
    requires 0 < j < |s|
    ensures |ShiftFrom(s, 0, r, period)| == |s| && ShiftFrom(s, 0, r, period)[0].ticks == 0
    ensures ShiftFrom(s, 0, r, period)[j].ticks == if j < r then s[j].ticks else period - s[j].ticks
    decreases |s| - r
  {
    if r == |s| {
    } else {
      AllMirrored(Moved(s, 0, r, period), r + 1, period, j);
    }
  }

  /** In a period of 33 ticks an event at tick 17 draws the end marker to itself. */
  lemma {:induction false} MarkerLost(s: seq<Phase>, l: nat, r: nat, j: nat)
    requires l < r < |s| && s[0].ticks == 0 && s[|s| - 1].ticks == 33 && (l > 0 ==> s[l].ticks == 17)
    requires forall i :: r <= i < |s| - 1 ==> 1 <= s[i].ticks <= 17 && s[l].ticks <= s[i].ticks
    requires forall i, k :: r <= i < k < |s| - 1 ==> s[i].ticks <= s[k].ticks
    requires forall i :: 0 < i < r ==> 1 <= s[i].ticks <= 32
    requires if r < |s| - 1 then s[|s| - 2].ticks == 17 else s[l].ticks == 17
    requires 0 < j < |s|
    ensures |ShiftFrom(s, l, r, 33)| == |s| && ShiftFrom(s, l, r, 33)[0].ticks == 0
    ensures 1 <= ShiftFrom(s, l, r, 33)[j].ticks <= 32
    decreases |s| - r
  {
    if r == |s| - 1 {
      assert ShiftFrom(s, l, r, 33) == Moved(s, l, r, 33);
    } else if 0 < s[r].ticks - s[l].ticks <= 16 {
      MarkerLost(Moved(s, l, r, 33), l, r + 1, j);
    } else {
      MarkerLost(s, r, r + 1, j);
    }
  }

  lemma RestInOrder(was: seq<Phase>, now: seq<Phase>, l: nat, r: nat)
    requires l < r < |was| == |now| && was[0].ticks == 0 && SortedUpTo(was, |was|)
    requires now[l].ticks == was[l].ticks && now[r..] == was[r..]
    ensures now[l].ticks <= now[r].ticks == was[r].ticks
    ensures now[r + 1..] == was[r + 1..]
  {
  }

  /** One step of the pass: the table and the last entry left in place. */
  ghost function ShiftNext(s: seq<Phase>, l: nat, r: nat, period: uint32): (seq<Phase>, nat)
    requires l < r < |s|
  {
    if 0 < s[r].ticks - s[l].ticks <= 16 then (Moved(s, l, r, period), l) else (s, r)
  }

  lemma NextShift(s: seq<Phase>, l: nat, r: nat, period: uint32)
    requires l < r < |s|
    ensures var (t, k) := ShiftNext(s, l, r, period);
            && |t| == |s| && k <= r && ShiftFrom(t, k, r + 1, period) == ShiftFrom(s, l, r, period)
            && t[r + 1..] == s[r + 1..] && t[k].ticks == s[k].ticks
  {
  }

  method MoveEvent(pwm: array<Phase>, l: nat, r: nat, period: uint32, ghost count: nat)
    requires l < r < count <= pwm.Length && 0 < pwm[r].ticks - pwm[l].ticks <= 16
    modifies pwm
    ensures pwm[..count] == Moved(old(pwm[..count]), l, r, period)
  {
    var diff := pwm[r].ticks - pwm[l].ticks;
    var mask := pwm[r].on + pwm[r].off;
    pwm[l] := pwm[l].(off := Flip(pwm[l].off, pwm[r].off));
    pwm[l] := pwm[l].(on := Flip(pwm[l].on, pwm[r].on));
    pwm[0] := pwm[0].(off := Flip(pwm[0].off, pwm[r].on));
    pwm[0] := pwm[0].(on := Flip(pwm[0].on, pwm[r].off));
    pwm[r] := pwm[r].(ticks := Before(period, diff));
    pwm[r] := pwm[r].(on := Flip(pwm[r].on, mask));
    pwm[r] := pwm[r].(off := Flip(pwm[r].off, mask));
  }

  /** The body of the loop.  That `diff` is a `uint32` says that the subtraction never wraps. */
  method ShiftEvent(pwm: array<Phase>, l: nat, r: nat, period: uint32, ghost now: seq<Phase>)
    returns (left: nat, ghost next: seq<Phase>)
    requires l < r < |now| <= pwm.Length && now == pwm[..|now|] && now[l].ticks <= now[r].ticks
    modifies pwm
    ensures (next, left) == ShiftNext(now, l, r, period) && next == pwm[..|now|]
  {
    var diff: uint32 := pwm[r].ticks - pwm[l].ticks;
    if diff != 0 && diff <= 16 {
      MoveEvent(pwm, l, r, period, |now|);
      left := l;
    } else {
      left := r;
    }
    next := pwm[..|now|];
  }

  /** The whole pass. */
  method ShiftLeft(pwm: array<Phase>, phases: nat, period: uint32)
    requires 1 <= phases < pwm.Length
    requires pwm[0].ticks == 0 && SortedUpTo(pwm[..phases + 1], phases + 1)
    modifies pwm
    ensures pwm[..phases + 1] == ShiftFrom(old(pwm[..phases + 1]), 0, 1, period)
  {
    ghost var was := pwm[..phases + 1];
    ghost var now := was;
    ghost var shifted := ShiftFrom(was, 0, 1, period);
    var l: nat, r: nat := 0, 1;
    while r <= phases
      invariant l < r <= phases + 1
      invariant now == pwm[..phases + 1]
      invariant ShiftFrom(now, l, r, period) == shifted
      invariant now[l].ticks == was[l].ticks
      invariant now[r..] == was[r..]
    {
      RestInOrder(was, now, l, r);
      NextShift(now, l, r, period);
      l, now := ShiftEvent(pwm, l, r, period, now);
      r := r + 1;
    }
  }
}

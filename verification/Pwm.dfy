/** The PWM driver object: its buffers and pointers, the interrupt routine and the calls of its users. */
module Pwm {
  import opened Common
  import opened PinMasks
  import opened PwmWave
  import opened PwmCompiler
  import opened PwmPrep
  import opened PwmDriver

  const PWM_MAX_TICKS := 0x7fffff

  class Driver {
    const pins: seq<Pin>
    const set0: array<Phase>
    const set1: array<Phase>
    const set2: array<Phase>
    var nextSet: int
    var currentSet: int
    var currentPhase: nat
    var enabled: bool
    var wave: seq<Phase>
    var still: Phase
    var duty: seq<uint32>
    var periodTicks: uint32
    // The state of the driver, with the past it has had
    ghost var history: State

    ghost function Sets(): seq<seq<Phase>>
      reads set0, set1, set2
    {
      [set0[..], set1[..], set2[..]]
    }

    /** The state `h` with its present replaced by the fields. */
    ghost function WithFields(h: State): State
      reads this, set0, set1, set2
    {
      h.(sets := Sets(), next := nextSet, current := currentSet, phase := currentPhase,
         enabled := enabled, wave := wave, still := still)
    }

    ghost predicate Shape() {
      && set0 != set1 && set0 != set2 && set1 != set2
      && set0.Length == ENTRIES && set1.Length == ENTRIES && set2.Length == ENTRIES
      && |pins| <= PWM_MAX_CHANNELS && Distinct(pins)
    }

    /** The fields are those of a state that a run of the driver can reach. */
    ghost predicate Valid()
      reads this, set0, set1, set2
    {
      && Shape()
      && |duty| == PWM_MAX_CHANNELS
      && history == WithFields(history) && Reachable(pins, history)
    }

    constructor (pins: seq<Pin>, period: uint32, duty: seq<uint32>)
      requires |pins| <= PWM_MAX_CHANNELS && Distinct(pins)
      requires |duty| == PWM_MAX_CHANNELS
      ensures Valid() && Init(history)
      ensures set0[..] == set1[..] == set2[..] == seq(ENTRIES, _ => Phase(0, {}, {}))
      ensures nextSet == currentSet == NO_SET && !enabled
      ensures this.pins == pins && periodTicks == period && this.duty == duty
      ensures fresh(set0) && fresh(set1) && fresh(set2)
    {
      var blank := Phase(0, {}, {});
      this.pins := pins;
      set0 := new Phase[ENTRIES](_ => blank);
      set1 := new Phase[ENTRIES](_ => blank);
      set2 := new Phase[ENTRIES](_ => blank);
      nextSet, currentSet, currentPhase, enabled := NO_SET, NO_SET, 0, false;
      wave, still := [], blank;
      this.duty, periodTicks := duty, period;
      ghost var entries := seq(ENTRIES, _ => blank);
      ghost var init :=
        State([entries, entries, entries], NO_SET, NO_SET, 0, false, [], blank, Idle, [], [], {}, [], 0);
      history := init;
      LeadsToItself(pins, init);
      assert Init(init);
      new;
      assert set0[..] == entries && set1[..] == entries && set2[..] == entries;
    }

    /** Clamps the duty; channels past the last one but one are ignored. */
    method SetDuty(ticks: uint32, channel: nat)
      requires Valid() && channel != PWM_MAX_CHANNELS
      modifies this`duty
      ensures Valid()
      ensures duty == if channel > PWM_MAX_CHANNELS then old(duty)
                      else old(duty)[channel := if ticks > PWM_MAX_TICKS then PWM_MAX_TICKS else ticks]
    {
      if channel > PWM_MAX_CHANNELS {
        return;
      }
      var clamped := ticks;
      if clamped > PWM_MAX_TICKS {
        clamped := PWM_MAX_TICKS;
      }
      duty := duty[channel := clamped];
    }

    method SetPeriod(period: uint32)
      requires Valid()
      modifies this`periodTicks
      ensures Valid() && periodTicks == period
    {
      periodTicks := period;
    }

    function Set(k: int): (a: array<Phase>)
      requires 0 <= k < 3
      ensures a == [set0, set1, set2][k]
    {
      if k == 0 then set0 else if k == 1 then set1 else set2
    }

    /** The do-loop of the interrupt routine: run phases until one is long enough to set the timer for. */
    method RunPhases(table: array<Phase>)
      requires RunFrom(table[..], currentPhase).Some?
      modifies this`currentPhase, this`wave
      ensures Some(currentPhase) == RunFrom(table[..], old(currentPhase))
      ensures old(currentPhase) <= currentPhase <= table.Length
      ensures wave == old(wave) + table[old(currentPhase)..currentPhase]
    {
      var ticks: uint32 := 0;
      ghost var first := currentPhase;
      ghost var end := RunFrom(table[..], first);
      while ticks < 16
        invariant first <= currentPhase <= table.Length
        invariant wave == old(wave) + table[first..currentPhase]
        invariant if ticks < 16 then RunFrom(table[..], currentPhase) == end else Some(currentPhase) == end
        decreases table.Length - currentPhase, 16 - ticks
      {
        wave := wave + [table[currentPhase]];
        ticks := table[currentPhase].ticks;
        currentPhase := currentPhase + 1;
      }
    }

    /** At the end mark the next set is taken. */
    method TakeNextSet()
      requires Shape() && history == WithFields(history) && CanRun(history)
      modifies this`currentSet, this`currentPhase
      ensures currentSet == Entry(history).0 && currentPhase == Entry(history).1
    {
      var entry := Set(currentSet)[currentPhase];
      if entry.off == {} && entry.on == {} {
        currentSet := nextSet;
        currentPhase := 0;
      }
    }

    /** The interrupt routine on the fields alone. */
    method RunTable()
      requires Shape() && history == WithFields(history) && CanRun(history)
      modifies this`currentSet, this`currentPhase, this`wave
      ensures AfterInterrupt(history) == WithFields(AfterInterrupt(history))
    {
      TakeNextSet();
      assert Set(currentSet)[..] == history.sets[currentSet];
      RunPhases(Set(currentSet));
    }

    /** The interrupt routine. */
    method Interrupted()
      requires Valid() && enabled
      modifies this`currentSet, this`currentPhase, this`wave, this`history
      ensures Interrupt(old(history), history)
      ensures Valid()
    {
      CanAlwaysRun(pins, history);
      RunTable();
      history := AfterInterrupt(history);
    }

    /** One step of the main program has been taken. */
    ghost method Log(start: State, after: State)
      requires MainStep(pins, history, after)
      requires Reachable(pins, history) && Leads(pins, start, history)
      modifies this`history
      ensures history == after && Reachable(pins, history) && Leads(pins, start, history)
    {
      ReachableBy(pins, history, after);
      LeadsBy(pins, start, history, after);
      history := after;
    }

    /** The first of the three buffers that is neither the current nor the next one. */
    method ChooseSet(ghost start: State) returns (k: nat)
      requires Valid() && history.pc == Idle && start == history
      modifies this`history
      ensures k < 3 && Valid() && history.pc == Writing(k) && Leads(pins, start, history)
      ensures k != nextSet && k != currentSet
    {
      LeadsToItself(pins, start);
      k := 0;
      if nextSet == k || currentSet == k {
        k := k + 1;
      }
      assert FirstTest(history, history.(pc := Tested(k)));
      Log(start, history.(pc := Tested(k)));
      if nextSet == k || currentSet == k {
        k := k + 1;
      }
      assert SecondTest(history, history.(pc := Writing(k)));
      Log(start, history.(pc := Writing(k)));
      BuffersExist(pins, history);
    }

    method Compile(ghost start: State, k: nat) returns (phases: nat)
      requires k < 3 && Valid() && history.pc == Writing(k) && Leads(pins, start, history)
      requires periodTicks >= MIN_PERIOD && !Cramped(duty[..|pins|], periodTicks)
      modifies this`history, set0, set1, set2
      ensures phases < ENTRIES && Valid() && history.pc == Prepared(k, phases) && Leads(pins, start, history)
      ensures Does(Sets()[k][..phases], pins, Job(periodTicks, duty[..|pins|]))
      ensures phases > 1 <==> SomePartial(duty[..|pins|], periodTicks)
      ensures forall j :: 0 <= j < 3 && j != k ==> Sets()[j] == old(Sets()[j])
    {
      ghost var was := history;
      phases := PhasesPrep(Set(k), periodTicks, pins, duty[..|pins|]);
      ghost var entries := Set(k)[..];
      assert Sets() == was.sets[k := entries];
      assert Write(was, was.(sets := Sets()));
      Log(start, was.(sets := Sets()));
      assert Does(entries[..phases], pins, Job(periodTicks, duty[..|pins|]));
      assert Prepare(pins, history, history.(pc := Prepared(k, phases)));
      Log(start, history.(pc := Prepared(k, phases)));
    }

    method StopTimer(ghost start: State, k: nat)
      requires k < 3 && Valid() && history.pc == Prepared(k, 1) && Leads(pins, start, history)
      modifies this`nextSet, this`enabled, this`still, this`history
      ensures Valid() && history.pc == Idle && Leads(pins, start, history)
      ensures !enabled && still == Sets()[k][0]
    {
      BuffersExist(pins, history);
      if nextSet != NO_SET {
        enabled := false;
        assert Stop(history, history.(enabled := false, pc := Stopping(k)));
        Log(start, history.(enabled := false, pc := Stopping(k)));
      }
      nextSet := NO_SET;
      still := Set(k)[0];
      ghost var after := history.(next := NO_SET, still := still, pc := Idle);
      assert Hold(history, after);
      Log(start, after);
    }

    method PublishSet(ghost start: State, k: nat, phases: nat)
      requires k < 3 && 1 < phases < ENTRIES && Valid() && history.pc == Prepared(k, phases)
      requires Leads(pins, start, history)
      modifies this`nextSet, this`currentSet, this`currentPhase, this`enabled, this`wave, this`history
      ensures Valid() && history.pc == Idle && Leads(pins, start, history)
      ensures enabled && nextSet == k && history.nextTable == Sets()[k][..phases]
      ensures if old(nextSet) == NO_SET then currentSet == k && currentPhase == phases - 1 && wave == []
              else currentSet == old(currentSet) && currentPhase == old(currentPhase) && wave == old(wave)
    {
      BuffersExist(pins, history);
      ghost var table, was := Sets()[k][..phases], history;
      if nextSet == NO_SET {
        nextSet := k;
        currentSet := k;
        currentPhase := phases - 1;
        wave := [];
        enabled := true;
        ghost var after := was.(next := k, current := k, phase := phases - 1, enabled := true,
               pc := Idle, wave := [], nextTable := table, currentTable := table,
               published := was.published + {table}, cycles := [], skipped := phases - 1);
        assert StartTimer(was, after);
        Log(start, after);
        return;
      }
      nextSet := k;
      ghost var after := was.(next := k, pc := Idle, nextTable := table, published := was.published + {table});
      assert Publish(was, after);
      Log(start, after);
    }

    /** Without a partial duty the pins stay at the levels that the duties ask for. */
    method HoldPins(ghost start: State, k: nat)
      requires k < 3 && Valid() && history.pc == Prepared(k, 1) && Leads(pins, start, history)
      requires Does(Sets()[k][..1], pins, Job(periodTicks, duty[..|pins|])) && periodTicks > 0
      requires !SomePartial(duty[..|pins|], periodTicks)
      modifies this`nextSet, this`enabled, this`still, this`history
      ensures Valid() && history.pc == Idle && Leads(pins, start, history)
      ensures !enabled
      ensures forall c, level :: 0 <= c < |pins| ==> (Drive(level, still, pins[c]) <==> duty[c] > 0)
    {
      ghost var job := Job(periodTicks, duty[..|pins|]);
      assert Sets()[k][..1] == [Sets()[k][0]];
      StillHoldsAll(Sets()[k][0], pins, job);
      StopTimer(start, k);
    }

    /** The timer and the pins after the buffer has been compiled. */
    method Conclude(ghost start: State, k: nat, phases: nat)
      requires k < 3 && phases < ENTRIES && Valid() && history.pc == Prepared(k, phases) && Leads(pins, start, history)
      requires periodTicks > 0 && (phases > 1 <==> SomePartial(duty[..|pins|], periodTicks))
      requires Does(Sets()[k][..phases], pins, Job(periodTicks, duty[..|pins|]))
      modifies this`nextSet, this`currentSet, this`currentPhase, this`enabled, this`wave, this`still, this`history
      ensures Valid() && history.pc == Idle && Leads(pins, start, history)
      ensures enabled <==> phases > 1
      ensures enabled ==> nextSet == k && history.nextTable == Sets()[k][..phases]
      ensures !enabled ==> forall c, level :: 0 <= c < |pins| ==> (Drive(level, still, pins[c]) <==> duty[c] > 0)
    {
      BuffersExist(pins, history);
      if phases == 1 {
        HoldPins(start, k);
      } else {
        PublishSet(start, k, phases);
      }
    }

    /** Compiles the duties into a buffer that is not in use, and publishes it, or starts or stops the timer. */
    method Start()
      requires Valid() && history.pc == Idle
      requires periodTicks >= MIN_PERIOD && !Cramped(duty[..|pins|], periodTicks)
      modifies this`nextSet, this`currentSet, this`currentPhase, this`enabled, this`wave, this`still, this`history
      modifies set0, set1, set2
      ensures Valid() && history.pc == Idle && Leads(pins, old(history), history)
      ensures enabled <==> SomePartial(duty[..|pins|], periodTicks)
      ensures enabled ==> Does(history.nextTable, pins, Job(periodTicks, duty[..|pins|]))
      ensures enabled ==> 0 <= nextSet < 3 && history.nextTable <= Sets()[nextSet]
      ensures !enabled ==> forall c, level :: 0 <= c < |pins| ==> (Drive(level, still, pins[c]) <==> duty[c] > 0)
    {
      ghost var start := history;
      var k := ChooseSet(start);
      var phases := Compile(start, k);
      Conclude(start, k, phases);
    }
  }
}

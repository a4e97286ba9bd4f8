/** The interrupt routine, the three table buffers, and `pwm_start` interrupted anywhere.

    A `State` holds the buffers, the pointers into them and what has been put out since the timer was
    last started.  The main program is inside `pwm_start` at the point `pc` says; between any two of its
    steps the interrupt routine may run whenever the timer is enabled.
  */
module PwmDriver {
  import opened Common
  import opened PinMasks
  import opened PwmWave
  import opened PwmCompiler
  import opened PwmPrep

  const ENTRIES := PWM_MAX_CHANNELS + 2

  // The null pointer
  const NO_SET := -1

  /** Where the main program is. */
  datatype Pc =
    | Idle
    | Tested(k: nat)
    | Writing(k: nat)
    | Prepared(k: nat, phases: nat)
    | Stopping(k: nat)

  /** What a table is compiled from. */
  datatype Job = Job(period: uint32, duty: seq<uint32>)

  /** `next` and `current` are buffer numbers.  The fields from `nextTable` on are history only. */
  datatype State = State(
    sets: seq<seq<Phase>>, next: int, current: int, phase: nat, enabled: bool,
    wave: seq<Phase>, still: Phase, pc: Pc,
    nextTable: seq<Phase>, currentTable: seq<Phase>, published: set<seq<Phase>>,
    cycles: seq<seq<Phase>>, skipped: nat)

  // ----- The interrupt routine -----

  /** Where the do-loop entered at entry `k` ends; None if it runs off the buffer. */
  function RunFrom(t: seq<Phase>, k: nat): Option<nat>
    decreases |t| - k
  {
    if k >= |t| then None
    else if t[k].ticks >= 16 then Some(k + 1)
    else RunFrom(t, k + 1)
  }

  predicate AtEnd(s: State)
    requires 0 <= s.current < |s.sets| && s.phase < |s.sets[s.current]|
  {
    s.sets[s.current][s.phase].off == {} && s.sets[s.current][s.phase].on == {}
  }

  /** The set and the phase the routine starts with: at the end mark, the first phase of the next set. */
  function Entry(s: State): (int, nat)
    requires 0 <= s.current < |s.sets| && s.phase < |s.sets[s.current]|
  {
    if AtEnd(s) then (s.next, 0) else (s.current, s.phase)
  }

  /** The routine reads only entries that exist, and ends. */
  predicate CanRun(s: State) {
    && 0 <= s.current < |s.sets| && s.phase < |s.sets[s.current]| && 0 <= s.next < |s.sets|
    && var (current, phase) := Entry(s);
    RunFrom(s.sets[current], phase).Some?
  }

  function AfterInterrupt(s: State): State
    requires CanRun(s)
  {
    var (current, phase) := Entry(s);
    var end := RunFrom(s.sets[current], phase).value;
    RunBounds(s.sets[current], phase);
    s.(current := current, phase := end, wave := s.wave + s.sets[current][phase..end],
       currentTable := if AtEnd(s) then s.nextTable else s.currentTable,
       cycles := if AtEnd(s) then s.cycles + [s.currentTable] else s.cycles)
  }

  lemma {:induction false} RunBounds(t: seq<Phase>, k: nat)
    requires RunFrom(t, k).Some?
    ensures k < RunFrom(t, k).value <= |t|
    decreases |t| - k
  {
    if t[k].ticks < 16 {
      RunBounds(t, k + 1);
    }
  }

  /** One call of the interrupt routine. */
  ghost predicate Interrupt(s: State, t: State) {
    s.enabled && CanRun(s) && t == AfterInterrupt(s)
  }

  // ----- The steps of pwm_start -----

  predicate InUse(s: State, k: int) {
    s.next == k || s.current == k
  }

  ghost predicate Does(t: seq<Phase>, pins: seq<Pin>, job: Job) {
    Drives(t, job.period, pins, job.duty)
  }

  /** What the compiler leaves in a buffer: a table that drives the channels, then the end mark. */
  ghost predicate Prepares(pins: seq<Pin>, buffer: seq<Phase>, phases: nat) {
    && |buffer| == ENTRIES && 1 <= phases < ENTRIES
    && (exists job :: Does(buffer[..phases], pins, job))
    && (phases > 1 ==> Safe(buffer[..phases]))
    && buffer[phases] == Phase(0, {}, {})
  }

  ghost predicate FirstTest(s: State, t: State) {
    s.pc == Idle && t == s.(pc := Tested(if InUse(s, 0) then 1 else 0))
  }

  ghost predicate SecondTest(s: State, t: State) {
    s.pc.Tested? && t == s.(pc := Writing(if InUse(s, s.pc.k) then s.pc.k + 1 else s.pc.k))
  }

  /** The compiler changes the chosen buffer in any way. */
  ghost predicate Write(s: State, t: State) {
    && s.pc.Writing? && s.pc.k < |s.sets|
    && exists entries :: |entries| == ENTRIES && t == s.(sets := s.sets[s.pc.k := entries])
  }

  ghost predicate Prepare(pins: seq<Pin>, s: State, t: State) {
    && s.pc.Writing? && s.pc.k < |s.sets|
    && t.pc.Prepared? && t == s.(pc := Prepared(s.pc.k, t.pc.phases))
    && Prepares(pins, s.sets[s.pc.k], t.pc.phases)
  }

  /** No partial duty: the timer is stopped first, if it runs. */
  ghost predicate Stop(s: State, t: State) {
    && s.pc.Prepared? && s.pc.phases == 1 && s.next != NO_SET
    && t == s.(enabled := false, pc := Stopping(s.pc.k))
  }

  /** Then the next set is cleared and the pins are written once. */
  ghost predicate Hold(s: State, t: State) {
    && (s.pc.Stopping? || (s.pc.Prepared? && s.pc.phases == 1 && s.next == NO_SET))
    && s.pc.k < |s.sets| && s.sets[s.pc.k] != []
    && t == s.(next := NO_SET, still := s.sets[s.pc.k][0], pc := Idle)
  }

  ghost predicate StartTimer(s: State, t: State) {
    && s.pc.Prepared? && s.pc.phases != 1 && s.next == NO_SET
    && s.pc.k < |s.sets| && 1 <= s.pc.phases <= |s.sets[s.pc.k]|
    && var table := s.sets[s.pc.k][..s.pc.phases];
    && t == s.(next := s.pc.k, current := s.pc.k, phase := s.pc.phases - 1, enabled := true,
               pc := Idle, wave := [], nextTable := table, currentTable := table,
               published := s.published + {table}, cycles := [], skipped := s.pc.phases - 1)
  }

  ghost predicate Publish(s: State, t: State) {
    && s.pc.Prepared? && s.pc.phases != 1 && s.next != NO_SET
    && s.pc.k < |s.sets| && s.pc.phases <= |s.sets[s.pc.k]|
    && var table := s.sets[s.pc.k][..s.pc.phases];
    && t == s.(next := s.pc.k, pc := Idle, nextTable := table, published := s.published + {table})
  }

  ghost predicate MainStep(pins: seq<Pin>, s: State, t: State) {
    FirstTest(s, t) || SecondTest(s, t) || Write(s, t) || Prepare(pins, s, t) ||
    Stop(s, t) || Hold(s, t) || StartTimer(s, t) || Publish(s, t)
  }

  ghost predicate Step(pins: seq<Pin>, s: State, t: State) {
    Interrupt(s, t) || MainStep(pins, s, t)
  }

  /** After initialisation: empty buffers, null pointers, timer off. */
  ghost predicate Init(s: State) {
    && |s.sets| == 3 && (forall k :: 0 <= k < 3 ==> |s.sets[k]| == ENTRIES)
    && s.next == NO_SET && s.current == NO_SET && !s.enabled && s.pc == Idle && s.published == {}
  }

  // ----- The invariant -----

  ghost predicate Good(pins: seq<Pin>, t: seq<Phase>) {
    Safe(t) && exists job :: Does(t, pins, job)
  }

  /** Buffer contents: the table and then the end mark. */
  ghost predicate Holds(buffer: seq<Phase>, t: seq<Phase>) {
    |t| < |buffer| && t == buffer[..|t|] && buffer[|t|] == Phase(0, {}, {})
  }

  ghost predicate BufferChoice(s: State) {
    match s.pc
    case Idle => true
    case Tested(k) => if k == 0 then !InUse(s, 0) else k == 1 && (InUse(s, 0) || s.current == s.next)
    case Writing(k) => k < 3 && !InUse(s, k)
    case Prepared(k, _) => k < 3 && !InUse(s, k)
    case Stopping(k) => k < 3 && !InUse(s, k)
  }

  function Flatten(cycles: seq<seq<Phase>>): seq<Phase> {
    if cycles == [] then [] else Flatten(cycles[..|cycles| - 1]) + cycles[|cycles| - 1]
  }

  /** What has been put out is a run of whole cycles, without the phases skipped at the start, up to now. */
  ghost predicate WholeCycles(s: State) {
    && s.phase <= |s.currentTable|
    && s.skipped <= |Flatten(s.cycles) + s.currentTable[..s.phase]|
    && s.wave == (Flatten(s.cycles) + s.currentTable[..s.phase])[s.skipped..]
  }

  ghost predicate Running(pins: seq<Pin>, s: State) {
    && 0 <= s.next < |s.sets| && 0 <= s.current < |s.sets|
    && Holds(s.sets[s.next], s.nextTable) && Holds(s.sets[s.current], s.currentTable)
    && Good(pins, s.nextTable) && Good(pins, s.currentTable)
    && s.nextTable in s.published && s.currentTable in s.published
    && (forall i :: 0 <= i < |s.cycles| ==> s.cycles[i] in s.published)
    && s.skipped <= |if s.cycles == [] then s.currentTable else s.cycles[0]|
    && WholeCycles(s)
  }

  ghost predicate Inv(pins: seq<Pin>, s: State) {
    && |s.sets| == 3 && (forall k :: 0 <= k < 3 ==> |s.sets[k]| == ENTRIES)
    && NO_SET <= s.next < 3 && NO_SET <= s.current < 3
    && (s.enabled <==> s.next != NO_SET && !s.pc.Stopping?)
    && BufferChoice(s)
    && (s.pc.Prepared? ==> Prepares(pins, s.sets[s.pc.k], s.pc.phases))
    && (s.enabled ==> Running(pins, s))
    && (forall t :: t in s.published ==> Good(pins, t))
  }

  // ----- Interrupts -----

  /** The do-loop entered at phase `k` stops before the end mark. */
  predicate StopsInside(buffer: seq<Phase>, t: seq<Phase>, k: nat) {
    RunFrom(buffer, k).Some? && k < RunFrom(buffer, k).value <= |t|
  }

  lemma {:induction false} LoopEnds(buffer: seq<Phase>, t: seq<Phase>, k: nat)
    requires Holds(buffer, t) && k < |t| && t[|t| - 1].ticks >= 16
    ensures StopsInside(buffer, t, k)
    decreases |t| - k
  {
    assert buffer[k] == t[k];
    if buffer[k].ticks < 16 {
      LoopEnds(buffer, t, k + 1);
    }
  }

  /** The loop never passes the end mark exactly if the last phase is a long one. */
  lemma LoopsStayInside(buffer: seq<Phase>, t: seq<Phase>)
    requires Holds(buffer, t) && t != []
    ensures (forall k :: 0 <= k < |t| ==> StopsInside(buffer, t, k)) <==> t[|t| - 1].ticks >= 16
  {
    var last := |t| - 1;
    if t[last].ticks >= 16 {
      forall k | 0 <= k < |t|
        ensures StopsInside(buffer, t, k)
      {
        LoopEnds(buffer, t, k);
      }
    } else {
      assert buffer[last] == t[last] && RunFrom(buffer, last) == RunFrom(buffer, last + 1);
      if RunFrom(buffer, |t|).Some? {
        RunBounds(buffer, |t|);
      }
      assert !StopsInside(buffer, t, last);
    }
  }

  lemma EndMark(buffer: seq<Phase>, t: seq<Phase>, k: nat)
    requires Holds(buffer, t) && Safe(t) && k <= |t|
    ensures buffer[k].off == {} && buffer[k].on == {} <==> k == |t|
  {
  }

  lemma LongerWave(whole: seq<Phase>, more: seq<Phase>, skipped: nat)
    requires skipped <= |whole|
    ensures (whole + more)[skipped..] == whole[skipped..] + more
  {
  }

  lemma CycleGoesOn(s: State, t: State)
    requires WholeCycles(s) && s.phase <= t.phase <= |s.currentTable|
    requires t == s.(phase := t.phase, wave := s.wave + s.currentTable[s.phase..t.phase])
    ensures WholeCycles(t)
  {
  }

  lemma CycleTurns(s: State, t: State)
    requires WholeCycles(s) && s.phase == |s.currentTable| && t.phase <= |s.nextTable|
    requires t == s.(phase := t.phase, wave := s.wave + s.nextTable[0..t.phase], current := t.current,
                     currentTable := s.nextTable, cycles := s.cycles + [s.currentTable])
    ensures WholeCycles(t)
  {
  }

  /** Whenever the timer is enabled the routine terminates within its table. */
  lemma InterruptIsSafe(pins: seq<Pin>, s: State)
    requires Inv(pins, s) && s.enabled
    ensures CanRun(s) && (AtEnd(s) <==> s.phase == |s.currentTable|)
    ensures Entry(s).1 < AfterInterrupt(s).phase <= |AfterInterrupt(s).currentTable|
    ensures Interrupt(s, AfterInterrupt(s))
  {
    EndMark(s.sets[s.current], s.currentTable, s.phase);
    LoopEnds(s.sets[Entry(s).0], if AtEnd(s) then s.nextTable else s.currentTable, Entry(s).1);
  }

  lemma HeldPhases(buffer: seq<Phase>, t: seq<Phase>, i: nat, j: nat)
    requires Holds(buffer, t) && i <= j <= |t|
    ensures buffer[i..j] == t[i..j]
  {
  }

  lemma InterruptKeepsCycles(pins: seq<Pin>, s: State, t: State)
    requires Inv(pins, s) && Interrupt(s, t)
    ensures WholeCycles(t)
  {
    InterruptIsSafe(pins, s);
    if AtEnd(s) {
      HeldPhases(s.sets[s.next], s.nextTable, 0, t.phase);
      CycleTurns(s, t);
    } else {
      HeldPhases(s.sets[s.current], s.currentTable, s.phase, t.phase);
      CycleGoesOn(s, t);
    }
  }

  /** The routine changes nothing but its place, or goes on to the next table. */
  lemma InterruptMoves(pins: seq<Pin>, s: State, t: State)
    requires Inv(pins, s) && Interrupt(s, t)
    ensures t == s.(phase := t.phase, wave := t.wave, current := t.current,
                    currentTable := t.currentTable, cycles := t.cycles)
    ensures if AtEnd(s)
            then t.current == s.next && t.currentTable == s.nextTable && t.cycles == s.cycles + [s.currentTable]
            else t.current == s.current && t.currentTable == s.currentTable && t.cycles == s.cycles
  {
    InterruptIsSafe(pins, s);
  }

  lemma InterruptKeepsRunning(pins: seq<Pin>, s: State, t: State)
    requires Inv(pins, s) && Interrupt(s, t)
    ensures Running(pins, t)
  {
    InterruptKeepsCycles(pins, s, t);
    InterruptMoves(pins, s, t);
  }

  lemma InterruptKeeps(pins: seq<Pin>, s: State, t: State)
    requires Inv(pins, s) && Interrupt(s, t)
    ensures Inv(pins, t)
  {
    InterruptKeepsRunning(pins, s, t);
    InterruptMoves(pins, s, t);
  }

  // ----- The main program -----

  lemma PreparedIsGood(pins: seq<Pin>, buffer: seq<Phase>, phases: nat)
    requires Prepares(pins, buffer, phases) && phases != 1
    ensures Good(pins, buffer[..phases]) && Holds(buffer, buffer[..phases])
  {
  }

  lemma ChoiceKeeps(pins: seq<Pin>, s: State, t: State)
    requires Inv(pins, s) && (FirstTest(s, t) || SecondTest(s, t))
    ensures Inv(pins, t)
  {
  }

  lemma WriteKeeps(pins: seq<Pin>, s: State, t: State)
    requires Inv(pins, s) && (Write(s, t) || Prepare(pins, s, t))
    ensures Inv(pins, t)
  {
  }

  lemma StopKeeps(pins: seq<Pin>, s: State, t: State)
    requires Inv(pins, s) && (Stop(s, t) || Hold(s, t))
    ensures Inv(pins, t)
  {
  }

  lemma PublishKeeps(pins: seq<Pin>, s: State, t: State)
    requires Inv(pins, s) && (StartTimer(s, t) || Publish(s, t))
    ensures Inv(pins, t)
  {
    PreparedIsGood(pins, s.sets[s.pc.k], s.pc.phases);
  }

  lemma InitHolds(pins: seq<Pin>, s: State)
    requires Init(s)
    ensures Inv(pins, s)
  {
  }

  lemma StepKeeps(pins: seq<Pin>, s: State, t: State)
    requires Inv(pins, s) && Step(pins, s, t)
    ensures Inv(pins, t)
  {
    if Interrupt(s, t) {
      InterruptKeeps(pins, s, t);
    } else if FirstTest(s, t) || SecondTest(s, t) {
      ChoiceKeeps(pins, s, t);
    } else if Write(s, t) || Prepare(pins, s, t) {
      WriteKeeps(pins, s, t);
    } else if Stop(s, t) || Hold(s, t) {
      StopKeeps(pins, s, t);
    } else {
      PublishKeeps(pins, s, t);
    }
  }

  ghost predicate StepAt(pins: seq<Pin>, run: seq<State>, i: nat)
    requires i + 1 < |run|
  {
    Step(pins, run[i], run[i + 1])
  }

  ghost predicate Run(pins: seq<Pin>, run: seq<State>) {
    && run != []
    && forall i: nat :: i + 1 < |run| ==> StepAt(pins, run, i)
  }

  lemma {:induction false} RunKeeps(pins: seq<Pin>, run: seq<State>, i: nat)
    requires Run(pins, run) && Inv(pins, run[0]) && i < |run|
    ensures Inv(pins, run[i])
  {
    if i == 0 {
    } else {
      assert StepAt(pins, run, i - 1);
      RunKeeps(pins, run, i - 1);
      StepKeeps(pins, run[i - 1], run[i]);
    }
  }

  // ----- What follows for every run -----

  /** A finite run of driver steps leads from `s` to `t`. */
  ghost predicate Leads(pins: seq<Pin>, s: State, t: State) {
    exists run :: Run(pins, run) && run[0] == s && run[|run| - 1] == t
  }

  lemma LeadsBy(pins: seq<Pin>, s: State, t: State, u: State)
    requires Leads(pins, s, t) && Step(pins, t, u)
    ensures Leads(pins, s, u)
  {
    var run :| Run(pins, run) && run[0] == s && run[|run| - 1] == t;
    var longer := run + [u];
    forall i: nat | i + 1 < |longer|
      ensures StepAt(pins, longer, i)
    {
      if i + 1 < |run| {
        assert StepAt(pins, run, i);
      }
    }
    assert Run(pins, longer);
  }

  lemma LeadsToItself(pins: seq<Pin>, s: State)
    ensures Leads(pins, s, s)
  {
    assert Run(pins, [s]);
  }

  ghost predicate Reachable(pins: seq<Pin>, s: State) {
    exists init :: Init(init) && Leads(pins, init, s)
  }

  lemma ReachableBy(pins: seq<Pin>, s: State, t: State)
    requires Reachable(pins, s) && Step(pins, s, t)
    ensures Reachable(pins, t)
  {
    var init :| Init(init) && Leads(pins, init, s);
    LeadsBy(pins, init, s, t);
  }

  lemma ReachableKeeps(pins: seq<Pin>, s: State)
    requires Reachable(pins, s)
    ensures Inv(pins, s)
  {
    var init :| Init(init) && Leads(pins, init, s);
    var run :| Run(pins, run) && run[0] == init && run[|run| - 1] == s;
    InitHolds(pins, init);
    RunKeeps(pins, run, |run| - 1);
  }

  lemma CanAlwaysRun(pins: seq<Pin>, s: State)
    requires Reachable(pins, s) && s.enabled
    ensures CanRun(s) && Interrupt(s, AfterInterrupt(s))
    ensures Reachable(pins, AfterInterrupt(s))
  {
    ReachableKeeps(pins, s);
    InterruptIsSafe(pins, s);
    ReachableBy(pins, s, AfterInterrupt(s));
  }

  lemma BuffersExist(pins: seq<Pin>, s: State)
    requires Reachable(pins, s)
    ensures |s.sets| == 3 && NO_SET <= s.next < 3 && NO_SET <= s.current < 3
    ensures s.pc == Idle || s.pc.Prepared? ==> (s.enabled <==> s.next != NO_SET)
    ensures s.pc.Writing? || s.pc.Prepared? ==> s.pc.k < 3 && |s.sets[s.pc.k]| == ENTRIES
    ensures s.pc.Writing? ==> s.next != s.pc.k && s.current != s.pc.k
    ensures s.pc.Prepared? ==> s.pc.phases >= 1
  {
    ReachableKeeps(pins, s);
  }

  /** The buffer being rewritten is never one the interrupt routine uses or will use. */
  lemma BufferExclusion(pins: seq<Pin>, s: State)
    requires Reachable(pins, s)
    ensures s.pc.Writing? || s.pc.Prepared? ==> s.pc.k < |s.sets| && s.next != s.pc.k && s.current != s.pc.k
    ensures s.enabled ==> 0 <= s.current < |s.sets| && 0 <= s.next < |s.sets|
    ensures forall t :: Write(s, t) && s.enabled ==>
              && t.current == s.current && t.next == s.next && |t.sets| == |s.sets|
              && t.sets[t.current] == s.sets[s.current] && t.sets[t.next] == s.sets[s.next]
  {
    ReachableKeeps(pins, s);
  }

  /** In every run each call of the interrupt routine ends, reads nothing past the end mark, and stays in its table. */
  lemma InterruptsTerminate(pins: seq<Pin>, s: State)
    requires Reachable(pins, s) && s.enabled
    ensures exists t :: Interrupt(s, t)
    ensures forall t :: Interrupt(s, t) ==> t.phase <= |t.currentTable| && Holds(t.sets[t.current], t.currentTable)
  {
    ReachableKeeps(pins, s);
    InterruptIsSafe(pins, s);
    forall t | Interrupt(s, t)
      ensures t.phase <= |t.currentTable| && Holds(t.sets[t.current], t.currentTable)
    {
      InterruptKeeps(pins, s, t);
      assert t.enabled;
    }
  }

  /** Since the timer was started, the output is whole cycles of published tables, but for the start of the first. */
  lemma OutputIsWholeCycles(pins: seq<Pin>, s: State)
    requires Reachable(pins, s) && s.enabled
    ensures WholeCycles(s)
    ensures forall i :: 0 <= i < |s.cycles| ==> s.cycles[i] in s.published
    ensures s.currentTable in s.published
    ensures forall t :: t in s.published ==> Good(pins, t)
  {
    ReachableKeeps(pins, s);
  }

  lemma {:induction false} FlattenSplit(cycles: seq<seq<Phase>>, i: nat)
    requires i <= |cycles|
    ensures Flatten(cycles) == Flatten(cycles[..i]) + Flatten(cycles[i..])
  {
    if i == |cycles| {
      assert cycles[..i] == cycles && cycles[i..] == [];
    } else {
      var front, rest := cycles[..|cycles| - 1], cycles[i..];
      FlattenSplit(front, i);
      assert front[..i] == cycles[..i];
      assert rest[..|rest| - 1] == front[i..];
    }
  }

  lemma FlattenOne(t: seq<Phase>)
    ensures Flatten([t]) == t
  {
  }

  lemma FirstFits(cycles: seq<seq<Phase>>, n: nat)
    requires 1 <= n <= |cycles|
    ensures |Flatten(cycles[..n])| >= |cycles[0]|
  {
    FlattenSplit(cycles[..n], 1);
    assert cycles[..n][..1] == [cycles[0]];
    FlattenOne(cycles[0]);
  }

  lemma FlattenMore(cycles: seq<seq<Phase>>, t: seq<Phase>)
    ensures Flatten(cycles + [t]) == Flatten(cycles) + t
  {
  }

  lemma Snoc<T>(s: seq<T>, i: nat)
    requires i < |s|
    ensures s[..i + 1] == s[..i] + [s[i]]
  {
  }

  lemma FlattenPair(cycles: seq<seq<Phase>>, i: nat)
    requires 1 <= i < |cycles|
    ensures Flatten(cycles) ==
            Flatten(cycles[..i - 1]) + cycles[i - 1] + cycles[i] + Flatten(cycles[i + 1..])
  {
    FlattenSplit(cycles, i + 1);
    FlattenMore(cycles[..i], cycles[i]);
    FlattenMore(cycles[..i - 1], cycles[i - 1]);
    Snoc(cycles, i);
    Snoc(cycles, i - 1);
  }

  lemma Regroup<T>(a: seq<T>, t: seq<T>, u: seq<T>, b: seq<T>, c: seq<T>)
    ensures a + t + u + b + c == a + (t + u + (b + c))
  {
  }

  lemma Behind<T>(head: seq<T>, t: seq<T>, u: seq<T>, after: seq<T>)
    ensures head + (t + u + after) == head + t + u + after
  {
  }

  lemma WaveAround(s: State, i: nat) returns (head: seq<Phase>, after: seq<Phase>)
    requires WholeCycles(s) && 2 <= i < |s.cycles| && s.skipped <= |s.cycles[0]|
    ensures s.wave == head + s.cycles[i - 1] + s.cycles[i] + after
  {
    var t, u := s.cycles[i - 1], s.cycles[i];
    FirstFits(s.cycles, i - 1);
    FlattenPair(s.cycles, i);
    var a, b, now := Flatten(s.cycles[..i - 1]), Flatten(s.cycles[i + 1..]), s.currentTable[..s.phase];
    Regroup(a, t, u, b, now);
    head, after := a[s.skipped..], b + now;
    LongerWave(a, t + u + after, s.skipped);
    Behind(head, t, u, after);
  }

  /** In the second of two cycles of the same table every channel is high for exactly its duty. */
  lemma SecondCycleIsExact(pins: seq<Pin>, s: State, i: nat) returns (before: seq<Phase>, after: seq<Phase>)
    requires Reachable(pins, s) && s.enabled
    requires 2 <= i < |s.cycles| && s.cycles[i] == s.cycles[i - 1]
    ensures s.wave == before + s.cycles[i] + after
    ensures forall job, c, level | Does(s.cycles[i], pins, job) && 0 <= c < |pins| ::
              ReplayTicks(s.cycles[i], pins[c], ReplayLevel(before, pins[c], level)) ==
              if job.duty[c] >= job.period then job.period else job.duty[c]
  {
    ReachableKeeps(pins, s);
    var head;
    head, after := WaveAround(s, i);
    var t := s.cycles[i];
    before := head + t;
    forall job, c, level | Does(t, pins, job) && 0 <= c < |pins|
      ensures ReplayTicks(t, pins[c], ReplayLevel(before, pins[c], level)) == Expected(job.duty[c], job.period)
    {
      ReplayConcat(head, t, pins[c], level);
      assert SteadyOnTime(t, pins[c], Expected(job.duty[c], job.period));
    }
  }

  /** With no partial duty the one table entry holds every pin at its level for good. */
  lemma StillHolds(p: Phase, pins: seq<Pin>, job: Job, c: nat, level: bool)
    requires Does([p], pins, job) && c < |pins| && job.period > 0
    requires job.duty[c] == 0 || job.duty[c] >= job.period
    ensures Drive(level, p, pins[c]) <==> job.duty[c] > 0
  {
    var pin := pins[c];
    assert SteadyOnTime([p], pin, Expected(job.duty[c], job.period));
    forall before
      ensures Drive(Drive(before, p, pin), p, pin) <==> job.duty[c] > 0
    {
      ReplayOne(p, pin, before);
      ReplayOne(p, pin, Drive(before, p, pin));
      assert ReplayTicks([p], pin, ReplayLevel([p], pin, before)) == Expected(job.duty[c], job.period);
    }
    assert Drive(Drive(true, p, pin), p, pin) == Drive(Drive(false, p, pin), p, pin);
  }

  lemma StillHoldsAll(p: Phase, pins: seq<Pin>, job: Job)
    requires Does([p], pins, job) && job.period > 0 && !SomePartial(job.duty, job.period)
    ensures forall c, level :: 0 <= c < |pins| ==> (Drive(level, p, pins[c]) <==> job.duty[c] > 0)
  {
    forall c, level | 0 <= c < |pins|
      ensures Drive(level, p, pins[c]) <==> job.duty[c] > 0
    {
      StillHolds(p, pins, job, c, level);
    }
  }

  lemma ReplayOne(p: Phase, pin: Pin, level: bool)
    ensures ReplayLevel([p], pin, level) == Drive(level, p, pin)
    ensures ReplayTicks([p], pin, level) == if Drive(level, p, pin) then p.ticks + 1 else 0
    ensures CycleLength([p]) == p.ticks + 1
  {
  }
}

/** Stop-and-wait with 8-bit ids from one node to another, over a link that loses frames but keeps their order. */
module Reliable {
  import opened Common

  /** The id on the air of a node's `n`th send. */
  function Id(n: nat): byte {
    n % 256
  }

  /** What a node does with a frame that is not an acknowledgement. */
  datatype Reaction = Reaction(ack: bool, deliver: bool, seen: byte)

  /** In `recvfromAck`: only a broadcast is not acknowledged, and only a new id is delivered. */
  function OnReceive(seen: byte, id: byte, broadcast: bool): Reaction {
    Reaction(!broadcast, id != seen, id)
  }

  /** While waiting for an acknowledgement of its own: only what has been delivered before is acknowledged again. */
  function OnWaiting(seen: byte, id: byte): Reaction {
    Reaction(id == seen, false, seen)
  }

  // ----- The two nodes and the link -----

  /** A frame in flight, with the number of the send it belongs to. */
  datatype Frame = Frame(number: nat, broadcast: bool)

  /**
   * `number` counts the sends of the first node; `data` and `acks` are in flight; `seen` is what the second node
   * remembers.  The rest is history: what it delivered, and which sends returned true.
   */
  datatype State = State(number: nat, sending: bool, data: seq<Frame>, acks: seq<nat>, seen: byte,
                         delivered: seq<nat>, confirmed: set<nat>)

  const INIT := State(0, false, [], [], 0, [], {})

  datatype Step =
    | StartUnicast
    | StartElsewhere
    | StartBroadcast
    | Transmit
    | LoseFrame(i: nat)
    | LoseAck(i: nat)
    | Receive
    | ReceiveWaiting
    | TakeAck
    | GiveUp

  /** The last send that the second node delivered; 0 stands for what it remembers at the start. */
  function Last(s: State): nat {
    if s.delivered == [] then 0 else s.delivered[|s.delivered| - 1]
  }

  function Without<T>(s: seq<T>, i: nat): seq<T> {
    if i < |s| then s[..i] + s[i + 1..] else s
  }

  function React(s: State, f: Frame, r: Reaction): State {
    s.(seen := if r.deliver then r.seen else s.seen,
       acks := if r.ack then s.acks + [f.number] else s.acks,
       delivered := if r.deliver then s.delivered + [f.number] else s.delivered)
  }

  /** A step that is not possible changes nothing. */
  function Apply(s: State, step: Step): State {
    match step
    case StartUnicast =>
      if s.sending then s
      else s.(number := s.number + 1, sending := true)
    case StartElsewhere => if s.sending then s else s.(number := s.number + 1)
    case StartBroadcast =>
      if s.sending then s
      else s.(number := s.number + 1, data := s.data + [Frame(s.number + 1, true)])
    case Transmit => if s.sending then s.(data := s.data + [Frame(s.number, false)]) else s
    case LoseFrame(i) => s.(data := Without(s.data, i))
    case LoseAck(i) => s.(acks := Without(s.acks, i))
    case Receive =>
      if s.data == [] then s
      else
        var f := s.data[0];
        React(s.(data := s.data[1..]), f, OnReceive(s.seen, Id(f.number), f.broadcast))
    case ReceiveWaiting =>
      if s.data == [] then s
      else
        var f := s.data[0];
        React(s.(data := s.data[1..]), f, OnWaiting(s.seen, Id(f.number)))
    case TakeAck =>
      if s.acks == [] then s
      else if s.sending && Id(s.acks[0]) == Id(s.number) then
        s.(acks := s.acks[1..], sending := false, confirmed := s.confirmed + {s.number})
      else s.(acks := s.acks[1..])
    case GiveUp => s.(sending := false)
  }

  function After(s: State, steps: seq<Step>): State {
    if steps == [] then s else Apply(After(s, steps[..|steps| - 1]), steps[|steps| - 1])
  }

  function Run(steps: seq<Step>): State {
    After(INIT, steps)
  }

  // ----- At most once -----

  predicate Rising(s: seq<nat>) {
    forall i, j :: 0 <= i < j < |s| ==> s[i] < s[j]
  }

  predicate InOrder(data: seq<Frame>) {
    forall i, j :: 0 <= i < j < |data| ==> data[i].number <= data[j].number
  }

  /** Frames are in the order of the sends, and none is older than what has been delivered. */
  predicate Ordered(s: State) {
    && InOrder(s.data)
    && (forall f :: f in s.data ==> Last(s) <= f.number <= s.number)
    && Rising(s.delivered)
    && Last(s) <= s.number
    && s.seen == Id(Last(s)) && (s.sending ==> s.number > 0)
    && (forall f :: f in s.data ==> f.number > 0)
    && (forall m :: m in s.confirmed ==> m <= s.number)
    && (s.sending ==> s.number !in s.confirmed)
  }

  lemma WithoutKeeps(data: seq<Frame>, i: nat)
    requires InOrder(data)
    ensures InOrder(Without(data, i)) && forall f :: f in Without(data, i) ==> f in data
  {
  }

  lemma RisingNext(s: seq<nat>, n: nat)
    requires Rising(s) && (s == [] || s[|s| - 1] < n)
    ensures Rising(s + [n])
  {
  }

  lemma ReceiveKeeps(s: State, r: Reaction)
    requires Ordered(s) && s.data != []
    requires r.deliver ==> r.seen == Id(s.data[0].number) && r.seen != s.seen
    ensures Ordered(React(s.(data := s.data[1..]), s.data[0], r))
  {
    var f, rest := s.data[0], s.data[1..];
    assert forall i :: 0 <= i < |rest| ==> rest[i] == s.data[i + 1];
    if r.deliver {
      RisingNext(s.delivered, f.number);
    }
  }

  /** A frame of the last send is not older than what is in flight. */
  lemma SendKeeps(s: State, number: nat, f: Frame)
    requires Ordered(s) && s.number <= number == f.number && number > 0
    ensures Ordered(s.(number := number, data := s.data + [f]))
  {
  }

  lemma LosingKeeps(s: State, data: seq<Frame>, acks: seq<nat>)
    requires Ordered(s) && InOrder(data) && forall f :: f in data ==> f in s.data
    ensures Ordered(s.(data := data, acks := acks))
  {
  }

  lemma TakingKeeps(s: State)
    requires Ordered(s)
    ensures Ordered(Apply(s, TakeAck))
  {
  }

  lemma StepKeepsOrder(s: State, step: Step)
    requires Ordered(s)
    ensures Ordered(Apply(s, step))
  {
    match step
    case Transmit =>
      if s.sending {
        SendKeeps(s, s.number, Frame(s.number, false));
      }
    case StartBroadcast => SendKeeps(s, s.number + 1, Frame(s.number + 1, true));
    case LoseFrame(i) =>
      WithoutKeeps(s.data, i);
      LosingKeeps(s, Without(s.data, i), s.acks);
    case LoseAck(i) => LosingKeeps(s, s.data, Without(s.acks, i));
    case Receive =>
      if s.data != [] {
        ReceiveKeeps(s, OnReceive(s.seen, Id(s.data[0].number), s.data[0].broadcast));
      }
    case ReceiveWaiting =>
      if s.data != [] {
        ReceiveKeeps(s, OnWaiting(s.seen, Id(s.data[0].number)));
      }
    case TakeAck => TakingKeeps(s);
    case _ =>
  }

  lemma {:induction false} AfterOrdered(s: State, steps: seq<Step>)
    requires Ordered(s)
    ensures Ordered(After(s, steps))
  {
    if steps == [] {
    } else {
      AfterOrdered(s, steps[..|steps| - 1]);
      StepKeepsOrder(After(s, steps[..|steps| - 1]), steps[|steps| - 1]);
    }
  }

  lemma RunOrdered(steps: seq<Step>)
    ensures Ordered(Run(steps))
  {
    AfterOrdered(INIT, steps);
  }

  /** Whatever is lost or sent again, the sends are delivered in order and each of them at most once. */
  lemma AtMostOnce(steps: seq<Step>)
    ensures var d := Run(steps).delivered;
            && (forall i, j :: 0 <= i < j < |d| ==> d[i] < d[j])
            && (forall i :: 0 <= i < |d| ==> d[i] <= Run(steps).number)
  {
    RunOrdered(steps);
    var d := Run(steps).delivered;
    forall i | 0 <= i < |d|
      ensures d[i] <= Run(steps).number
    {
      assert i == |d| - 1 || d[i] < d[|d| - 1];
    }
  }

  // ----- What `true` means -----

  /** No id that could be taken for that of send `n` is about: not the last one delivered, and none in flight. */
  predicate Unaliased(s: State, n: nat) {
    && Id(n) != Id(Last(s))
    && (forall f :: f in s.data ==> Id(n) != Id(f.number))
    && (forall m :: m in s.acks ==> Id(n) != Id(m))
  }

  /** However the next send goes on, if it returns true it has been delivered. */
  ghost predicate NextIsSafe(s: State) {
    forall steps :: SafeAfter(s, steps)
  }

  predicate SafeAfter(s: State, steps: seq<Step>) {
    var q := After(Apply(s, StartUnicast), steps);
    s.number + 1 in q.confirmed ==> s.number + 1 in q.delivered
  }

  /** While send `n` is under way, its id belongs to it alone, and an acknowledgement stands for its delivery. */
  predicate Own(s: State, n: nat) {
    && (Id(Last(s)) == Id(n) ==> Last(s) == n)
    && (forall f :: f in s.data && Id(f.number) == Id(n) ==> f.number == n)
    && (forall m :: m in s.acks && Id(m) == Id(n) ==> n in s.delivered)
  }

  /** What holds from the start of send `n` on. */
  predicate Honest(s: State, n: nat) {
    && 0 < n <= s.number
    && (n in s.confirmed ==> n in s.delivered)
    && (s.sending && s.number == n ==> Own(s, n))
  }

  lemma LastIsDelivered(s: State)
    requires Last(s) > 0
    ensures Last(s) in s.delivered
  {
  }

  /** A frame that is received is delivered, now or before, if its id belongs to it alone. */
  lemma ReactHonestly(s: State, n: nat, r: Reaction)
    requires Ordered(s) && Own(s, n) && n > 0 && s.data != []
    requires var f := s.data[0];
             r == OnReceive(s.seen, Id(f.number), f.broadcast) || r == OnWaiting(s.seen, Id(f.number))
    ensures Own(React(s.(data := s.data[1..]), s.data[0], r), n)
  {
    var f, q := s.data[0], React(s.(data := s.data[1..]), s.data[0], r);
    assert f in s.data;
    assert forall g :: g in q.data ==> g in s.data;
    assert forall k :: k in s.delivered ==> k in q.delivered;
    assert r.deliver ==> q.delivered[|s.delivered|] == f.number;
    forall m | m in q.acks && Id(m) == Id(n)
      ensures n in q.delivered
    {
      if m !in s.acks {
        assert m == f.number == n;
        if !r.deliver {
          LastIsDelivered(s);
        }
      }
    }
  }

  lemma SendingIsOwn(s: State, n: nat)
    requires Own(s, n) && s.number == n
    ensures Own(s.(data := s.data + [Frame(n, false)]), n)
  {
    var q := s.(data := s.data + [Frame(n, false)]);
    forall f | f in q.data && Id(f.number) == Id(n)
      ensures f.number == n
    {
      assert f in s.data || f == Frame(n, false);
    }
  }

  lemma LosingIsOwn(s: State, n: nat, data: seq<Frame>, acks: seq<nat>)
    requires Own(s, n)
    requires (forall f :: f in data ==> f in s.data) && (forall m :: m in acks ==> m in s.acks)
    ensures Own(s.(data := data, acks := acks), n)
  {
  }

  lemma StepKeepsHonest(s: State, n: nat, step: Step)
    requires Ordered(s) && Honest(s, n)
    ensures Honest(Apply(s, step), n)
  {
    if s.sending && s.number == n {
      StepKeepsOwn(s, n, step);
    }
    match step
    case Receive => DeliveredStays(s);
    case ReceiveWaiting =>
    case TakeAck =>
      if s.acks != [] {
        assert s.acks[0] in s.acks;
      }
    case _ =>
  }

  lemma DeliveredStays(s: State)
    ensures forall k :: k in s.delivered ==> k in Apply(s, Receive).delivered
  {
  }

  lemma StepKeepsOwn(s: State, n: nat, step: Step)
    requires Ordered(s) && Own(s, n) && s.sending && s.number == n > 0
    ensures Apply(s, step).sending ==> Own(Apply(s, step), n)
  {
    match step
    case Transmit => SendingIsOwn(s, n);
    case LoseFrame(i) => LosingIsOwn(s, n, Without(s.data, i), s.acks);
    case LoseAck(i) => LosingIsOwn(s, n, s.data, Without(s.acks, i));
    case Receive =>
      if s.data != [] {
        ReactHonestly(s, n, OnReceive(s.seen, Id(s.data[0].number), s.data[0].broadcast));
      }
    case ReceiveWaiting =>
      if s.data != [] {
        ReactHonestly(s, n, OnWaiting(s.seen, Id(s.data[0].number)));
      }
    case TakeAck =>
      if s.acks != [] {
        LosingIsOwn(s, n, s.data, s.acks[1..]);
      }
    case _ =>
  }

  lemma {:induction false} AfterHonest(s: State, n: nat, steps: seq<Step>)
    requires Ordered(s) && Honest(s, n)
    ensures Honest(After(s, steps), n)
  {
    if steps == [] {
    } else {
      var front := steps[..|steps| - 1];
      AfterHonest(s, n, front);
      AfterOrdered(s, front);
      StepKeepsHonest(After(s, front), n, steps[|steps| - 1]);
    }
  }

  lemma UnaliasedIsSafe(s: State)
    requires Ordered(s) && !s.sending && Unaliased(s, s.number + 1)
    ensures NextIsSafe(s)
  {
    var n := s.number + 1;
    StepKeepsOrder(s, StartUnicast);
    forall steps
      ensures SafeAfter(s, steps)
    {
      AfterHonest(Apply(s, StartUnicast), n, steps);
    }
  }

  // ----- When it fails -----

  lemma {:induction false} AfterConcat(s: State, steps: seq<Step>, more: seq<Step>)
    ensures After(s, steps + more) == After(After(s, steps), more)
  {
    if more == [] {
      assert steps + more == steps;
    } else {
      assert (steps + more)[..|steps + more| - 1] == steps + more[..|more| - 1];
      AfterConcat(s, steps, more[..|more| - 1]);
    }
  }

  lemma AfterOne(s: State, step: Step)
    ensures After(s, [step]) == Apply(s, step)
  {
    assert [step][..0] == [];
  }

  lemma AfterFirst(s: State, step: Step, more: seq<Step>)
    ensures After(s, [step] + more) == After(Apply(s, step), more)
  {
    AfterConcat(s, [step], more);
    AfterOne(s, step);
  }

  /** The link can lose the first `i` frames in flight. */
  lemma {:induction false} LoseFrames(s: State, i: nat) returns (steps: seq<Step>)
    requires i <= |s.data|
    ensures After(s, steps) == s.(data := s.data[i..])
    decreases i
  {
    if i == 0 {
      steps := [];
      assert s.data[0..] == s.data;
    } else {
      var q := Apply(s, LoseFrame(0));
      assert q.data == s.data[1..];
      var more := LoseFrames(q, i - 1);
      steps := [LoseFrame(0)] + more;
      AfterFirst(s, LoseFrame(0), more);
      assert s.data[1..][i - 1..] == s.data[i..];
    }
  }

  lemma {:induction false} LoseAcks(s: State, i: nat) returns (steps: seq<Step>)
    requires i <= |s.acks|
    ensures After(s, steps) == s.(acks := s.acks[i..])
    decreases i
  {
    if i == 0 {
      steps := [];
      assert s.acks[0..] == s.acks;
    } else {
      var q := Apply(s, LoseAck(0));
      assert q.acks == s.acks[1..];
      var more := LoseAcks(q, i - 1);
      steps := [LoseAck(0)] + more;
      AfterFirst(s, LoseAck(0), more);
      assert s.acks[1..][i - 1..] == s.acks[i..];
    }
  }

  /** Send `s.number` is under way and has not reached its receiver. */
  predicate Unheard(s: State) {
    Ordered(s) && s.sending && s.number !in s.delivered
  }

  /** The send can return true without having been delivered. */
  ghost predicate Misled(s: State) {
    exists steps :: var q := After(s, steps); s.number in q.confirmed && s.number !in q.delivered
  }

  lemma MisledLater(s: State, steps: seq<Step>)
    requires var q := After(s, steps); q.number == s.number && Misled(q)
    ensures Misled(s)
  {
    var q := After(s, steps);
    var more :| var z := After(q, more); q.number in z.confirmed && q.number !in z.delivered;
    AfterConcat(s, steps, more);
    assert var z := After(s, steps + more); s.number in z.confirmed && s.number !in z.delivered;
  }

  /** By an acknowledgement in flight: the ones before it are lost. */
  lemma AckMisleads(s: State, j: nat)
    requires Unheard(s) && j < |s.acks| && Id(s.acks[j]) == Id(s.number)
    ensures Misled(s)
  {
    var steps := LoseAcks(s, j);
    var q := After(s, steps);
    AfterOne(q, TakeAck);
    assert var z := After(q, [TakeAck]); q.number in z.confirmed && q.number !in z.delivered;
    MisledLater(s, steps);
  }

  /** By what the receiver remembers: it acknowledges the send as a repetition. */
  lemma LastMisleads(s: State)
    requires Unheard(s) && Id(Last(s)) == Id(s.number)
    ensures Misled(s)
  {
    var lose := LoseFrames(s, |s.data|);
    var q := After(s, lose);
    assert q.data == [];
    var t := Apply(Apply(q, Transmit), Receive);
    AfterFirst(q, Transmit, [Receive]);
    AfterOne(Apply(q, Transmit), Receive);
    AfterConcat(s, lose, [Transmit] + [Receive]);
    assert t == q.(acks := q.acks + [s.number]);
    AckMisleads(t, |q.acks|);
    MisledLater(s, lose + ([Transmit] + [Receive]));
  }

  /** By an older frame in flight: the ones before it are lost, and it is what the receiver remembers. */
  lemma FrameMisleads(s: State, i: nat)
    requires Unheard(s) && i < |s.data| && s.data[i].number < s.number && Id(s.data[i].number) == Id(s.number)
    ensures Misled(s)
  {
    var lose := LoseFrames(s, i);
    var q := After(s, lose);
    AfterOrdered(s, lose);
    var t := Apply(q, Receive);
    StepKeepsOrder(q, Receive);
    assert q.data[0] == s.data[i];
    AfterOne(q, Receive);
    AfterConcat(s, lose, [Receive]);
    LastMisleads(t);
    MisledLater(s, lose + [Receive]);
  }

  /**
   * Of a send that is about to begin in any reached state, true means delivered if and only if its id is not
   * that of the last send delivered, of a frame in flight or of an acknowledgement in flight.
   */
  lemma NextIsSafeExactly(s: State)
    requires Ordered(s) && !s.sending
    ensures NextIsSafe(s) <==> Unaliased(s, s.number + 1)
  {
    if Unaliased(s, s.number + 1) {
      UnaliasedIsSafe(s);
    } else {
      AliasedIsMisled(s);
      var begun := Apply(s, StartUnicast);
      var steps :| var q := After(begun, steps); begun.number in q.confirmed && begun.number !in q.delivered;
      assert !SafeAfter(s, steps);
    }
  }

  lemma AliasedIsMisled(s: State)
    requires Ordered(s) && !s.sending && !Unaliased(s, s.number + 1)
    ensures Misled(Apply(s, StartUnicast))
  {
    var begun := Apply(s, StartUnicast);
    StepKeepsOrder(s, StartUnicast);
    NotYetDelivered(s);
    if Id(begun.number) == Id(Last(s)) {
      LastMisleads(begun);
    } else if f :| f in s.data && Id(begun.number) == Id(f.number) {
      var i: nat :| i < |s.data| && s.data[i] == f;
      FrameMisleads(begun, i);
    } else {
      var m :| m in s.acks && Id(begun.number) == Id(m);
      var j: nat :| j < |s.acks| && s.acks[j] == m;
      AckMisleads(begun, j);
    }
  }

  lemma NotYetDelivered(s: State)
    requires Ordered(s)
    ensures forall k :: k in s.delivered ==> k <= s.number
  {
    var d := s.delivered;
    forall i | 0 <= i < |d|
      ensures d[i] <= s.number
    {
      if i < |d| - 1 {
        assert d[i] < d[|d| - 1];
      }
    }
  }

  /** The same of every state that a run reaches. */
  lemma TrueMeansDelivered(steps: seq<Step>)
    requires !Run(steps).sending
    ensures NextIsSafe(Run(steps)) <==> Unaliased(Run(steps), Run(steps).number + 1)
  {
    RunOrdered(steps);
    NextIsSafeExactly(Run(steps));
  }

  /** Fewer than 256 ids separate send `n` from the last one delivered and from everything in flight. */
  predicate Near(s: State, n: nat) {
    && n < Last(s) + 256
    && (forall f :: f in s.data ==> n < f.number + 256)
    && (forall m :: m in s.acks ==> m < n < m + 256)
  }

  /** So it is safe if fewer than 256 sends separate it from all of them. */
  lemma NearIsSafe(s: State)
    requires Ordered(s) && !s.sending && Near(s, s.number + 1)
    ensures NextIsSafe(s)
  {
    UnaliasedIsSafe(s);
  }

  /** A received frame is delivered, now or before, exactly if its number is not a multiple of 256 past the last one. */
  lemma WhenDelivered(s: State)
    requires Ordered(s) && s.data != []
    ensures var n := s.data[0].number;
            n in Apply(s, Receive).delivered <==> n == Last(s) || (n - Last(s)) % 256 != 0
  {
    var n := s.data[0].number;
    assert s.data[0] in s.data;
    if n == Last(s) {
      LastIsDelivered(s);
    } else {
      assert n !in s.delivered;
      assert Id(n) == Id(Last(s)) <==> (n - Last(s)) % 256 == 0;
      if Id(n) != s.seen {
        assert Apply(s, Receive).delivered[|s.delivered|] == n;
      }
    }
  }

  /** With nothing in flight and nothing lost, a send always returns true. */
  lemma QuietExchange(s: State)
    requires Ordered(s) && !s.sending && s.data == [] && s.acks == []
    ensures var n := s.number + 1;
            var q := Apply(Apply(Apply(Apply(s, StartUnicast), Transmit), Receive), TakeAck);
            n in q.confirmed && (n in q.delivered <==> (n - Last(s)) % 256 != 0)
  {
    var begun := Apply(Apply(s, StartUnicast), Transmit);
    StepKeepsOrder(s, StartUnicast);
    StepKeepsOrder(Apply(s, StartUnicast), Transmit);
    assert begun.data == [Frame(s.number + 1, false)];
    WhenDelivered(begun);
    assert Apply(begun, Receive).acks == [s.number + 1];
  }

  function Elsewhere(n: nat): seq<Step> {
    seq(n, _ => StartElsewhere)
  }

  lemma {:induction false} RunElsewhere(steps: seq<Step>, n: nat)
    requires !Run(steps).sending
    ensures Run(steps + Elsewhere(n)) == Run(steps).(number := Run(steps).number + n)
  {
    if n == 0 {
      assert steps + Elsewhere(0) == steps;
    } else {
      RunElsewhere(steps, n - 1);
      assert steps + Elsewhere(n) == steps + Elsewhere(n - 1) + [StartElsewhere];
      RunNext(steps + Elsewhere(n - 1), StartElsewhere);
    }
  }

  lemma RunNext(steps: seq<Step>, step: Step)
    ensures Run(steps + [step]) == Apply(Run(steps), step)
  {
    assert (steps + [step])[..|steps|] == steps;
  }

  /** A node whose first 255 sends go elsewhere can be misled at once: the id 0 is what the receiver starts with. */
  lemma StartValueMisleads()
    ensures !Run(Elsewhere(255)).sending && Run(Elsewhere(255)).number == 255 && !NextIsSafe(Run(Elsewhere(255)))
  {
    RunElsewhere([], 255);
    assert [] + Elsewhere(255) == Elsewhere(255);
    TrueMeansDelivered(Elsewhere(255));
  }

  /** A second acknowledgement of send 1 that is still in flight before send 257, with send 2 delivered since. */
  lemma StaleAckMisleads()
    ensures var s := Run(STALE + Elsewhere(254));
            !s.sending && s.number == 256 && s.data == [] && s.acks == [1] && Last(s) == 2 && !NextIsSafe(s)
  {
    StaleState();
    RunElsewhere(STALE, 254);
    TrueMeansDelivered(STALE + Elsewhere(254));
    assert 1 in Run(STALE + Elsewhere(254)).acks && Id(257) == Id(1);
  }

  const STALE := [StartUnicast, Transmit, Transmit, Receive, Receive, TakeAck] +
                 [StartUnicast, Transmit, Receive, GiveUp, LoseAck(1)]

  lemma AfterThree(s: State, a: Step, b: Step, c: Step)
    ensures After(s, [a, b, c]) == Apply(Apply(Apply(s, a), b), c)
  {
    assert [a, b, c] == [a] + ([b] + [c]);
    AfterFirst(s, a, [b] + [c]);
    AfterFirst(Apply(s, a), b, [c]);
    AfterOne(Apply(Apply(s, a), b), c);
  }

  lemma StaleState()
    ensures Run(STALE) == State(2, false, [], [1], 2, [1, 2], {1})
  {
    var a := [StartUnicast, Transmit, Transmit];
    var b := [Receive, Receive, TakeAck];
    var c := [StartUnicast, Transmit, Receive];
    assert STALE == a + b + c + [GiveUp] + [LoseAck(1)];
    var s := State(1, true, [Frame(1, false), Frame(1, false)], [], 0, [], {});
    AfterThree(INIT, a[0], a[1], a[2]);
    assert After(INIT, a) == s;
    var t := State(1, false, [], [1], 1, [1], {1});
    AfterThree(s, b[0], b[1], b[2]);
    AcknowledgedTwice(s, t);
    AfterConcat(INIT, a, b);
    AfterThree(t, c[0], c[1], c[2]);
    var u := State(2, true, [], [1, 2], 2, [1, 2], {1});
    SecondReceived(t, u);
    AfterConcat(INIT, a + b, c);
    AfterConcat(INIT, a + b + c, [GiveUp]);
    AfterOne(u, GiveUp);
    AfterConcat(INIT, a + b + c + [GiveUp], [LoseAck(1)]);
    AfterOne(Apply(u, GiveUp), LoseAck(1));
    assert Without([1, 2], 1) == [1];
  }

  lemma AcknowledgedTwice(s: State, t: State)
    requires s == State(1, true, [Frame(1, false), Frame(1, false)], [], 0, [], {})
    requires t == State(1, false, [], [1], 1, [1], {1})
    ensures Apply(Apply(Apply(s, Receive), Receive), TakeAck) == t
  {
    var r := State(1, true, [Frame(1, false)], [1], 1, [1], {});
    assert Apply(s, Receive) == r;
    assert Apply(r, Receive) == State(1, true, [], [1, 1], 1, [1], {});
  }

  lemma SecondReceived(t: State, u: State)
    requires t == State(1, false, [], [1], 1, [1], {1}) && u == State(2, true, [], [1, 2], 2, [1, 2], {1})
    ensures Apply(Apply(Apply(t, StartUnicast), Transmit), Receive) == u
  {
    assert Apply(Apply(t, StartUnicast), Transmit) == State(2, true, [Frame(2, false)], [1], 1, [1], {1});
  }
}

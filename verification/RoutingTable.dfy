/** The routing table of RHRouter: ten slots, some of them stale, which stand for a map of at most ten routes. */
module RoutingTable {
  import opened Common

  datatype RouteState = Invalid | Discovering | Valid

  datatype Entry = Entry(dest: byte, nextHop: byte, state: RouteState) {
    predicate Live() {
      state != Invalid
    }
  }

  const ROUTING_TABLE_SIZE := 10

  type Table = s: seq<Entry> | |s| == 10 witness seq(10, _ => Entry(0, 0, Invalid))

  // ----- The operations -----

  /** The first slot from `i` on that holds `dest`, live or not. */
  function SlotOf(t: seq<Entry>, dest: byte, i: nat): (r: nat)
    requires i <= |t|
    ensures i <= r <= |t|
    decreases |t| - i
  {
    if i == |t| || t[i].dest == dest then i else SlotOf(t, dest, i + 1)
  }

  /** The first slot from `i` on that is not live. */
  function FreeSlot(t: seq<Entry>, i: nat): (r: nat)
    requires i <= |t|
    ensures i <= r <= |t|
    decreases |t| - i
  {
    if i == |t| || !t[i].Live() then i else FreeSlot(t, i + 1)
  }

  /** The slots after `index` move down by one; the last one keeps its contents but is invalid. */
  function DeleteRoute(t: Table, index: nat): Table
    requires index < |t|
  {
    seq(10, i requires 0 <= i < 10 =>
      if i == 9 then t[9].(state := Invalid) else if i >= index then t[i + 1] else t[i])
  }

  /** Every slot that is not live. */
  function FillFree(t: Table, e: Entry): Table {
    seq(10, i requires 0 <= i < 10 => if t[i].Live() then t[i] else e)
  }

  function AddRouteTo(t: Table, dest: byte, nextHop: byte, state: RouteState): Table {
    var e := Entry(dest, nextHop, state);
    var slot := SlotOf(t, dest, 0);
    if slot < |t| then t[slot := e]
    else
      var free := FreeSlot(t, 0);
      if free < |t| then t[free := e] else FillFree(DeleteRoute(t, 0), e)
  }

  function DeleteRouteTo(t: Table, dest: byte): Table {
    var slot := SlotOf(t, dest, 0);
    if slot < |t| then DeleteRoute(t, slot) else t
  }

  function Clear(t: Table): Table {
    seq(10, i requires 0 <= i < 10 => t[i].(state := Invalid))
  }

  /** The first live slot for `dest` from `i` on. */
  function LiveSlot(t: seq<Entry>, dest: byte, i: nat): (r: nat)
    requires i <= |t|
    ensures i <= r <= |t|
    ensures r < |t| ==> t[r].dest == dest && t[r].Live()
    decreases |t| - i
  {
    if i == |t| || (t[i].dest == dest && t[i].Live()) then i else LiveSlot(t, dest, i + 1)
  }

  // ----- What a table stands for -----

  datatype Route = Route(nextHop: byte, state: RouteState)

  /** A live entry is the first slot that holds its destination. */
  predicate FirstSlots(t: seq<Entry>) {
    forall i, j :: 0 <= j < i < |t| && t[i].Live() ==> t[j].dest != t[i].dest
  }

  function View(t: seq<Entry>): map<byte, Route> {
    if t == [] then map[]
    else
      var e := t[|t| - 1];
      var front := View(t[..|t| - 1]);
      if e.Live() then front[e.dest := Route(e.nextHop, e.state)] else front
  }

  lemma {:induction false} ViewHas(t: seq<Entry>, d: byte)
    requires FirstSlots(t)
    ensures d in View(t) <==> exists i :: 0 <= i < |t| && t[i].Live() && t[i].dest == d
    ensures forall i :: 0 <= i < |t| && t[i].Live() && t[i].dest == d ==>
              d in View(t) && View(t)[d] == Route(t[i].nextHop, t[i].state)
  {
    if t == [] {
    } else {
      var front, last := t[..|t| - 1], t[|t| - 1];
      ViewHas(front, d);
      assert forall i :: 0 <= i < |front| ==> front[i] == t[i];
      if last.Live() && last.dest == d {
        assert t[|t| - 1].dest == d;
      }
    }
  }

  /** The number of routes is the number of live slots. */
  lemma {:induction false} ViewSize(t: seq<Entry>)
    requires FirstSlots(t)
    ensures |View(t)| <= |t|
    ensures |View(t)| == |t| <==> forall i :: 0 <= i < |t| ==> t[i].Live()
  {
    if t == [] {
    } else {
      var front, last := t[..|t| - 1], t[|t| - 1];
      ViewSize(front);
      ViewHas(front, last.dest);
      assert forall i :: 0 <= i < |front| ==> front[i] == t[i];
    }
  }

  lemma {:induction false} SlotIsFirst(t: seq<Entry>, dest: byte, i: nat)
    requires i <= |t|
    ensures forall j :: i <= j < SlotOf(t, dest, i) ==> t[j].dest != dest
    ensures SlotOf(t, dest, i) < |t| ==> t[SlotOf(t, dest, i)].dest == dest
    decreases |t| - i
  {
    if i < |t| && t[i].dest != dest {
      SlotIsFirst(t, dest, i + 1);
    }
  }

  lemma {:induction false} FreeIsFirst(t: seq<Entry>, i: nat)
    requires i <= |t|
    ensures forall j :: i <= j < FreeSlot(t, i) ==> t[j].Live()
    ensures FreeSlot(t, i) < |t| ==> !t[FreeSlot(t, i)].Live()
    decreases |t| - i
  {
    if i < |t| && t[i].Live() {
      FreeIsFirst(t, i + 1);
    }
  }

  lemma {:induction false} LiveSlotIsFirst(t: seq<Entry>, dest: byte, i: nat)
    requires i <= |t|
    ensures forall j :: i <= j < LiveSlot(t, dest, i) ==> !(t[j].dest == dest && t[j].Live())
    decreases |t| - i
  {
    if i < |t| && !(t[i].dest == dest && t[i].Live()) {
      LiveSlotIsFirst(t, dest, i + 1);
    }
  }

  /** `getRouteTo` looks the destination up in the map. */
  lemma GetIsLookup(t: Table, dest: byte)
    requires FirstSlots(t)
    ensures var slot := LiveSlot(t, dest, 0);
            if slot < |t| then dest in View(t) && View(t)[dest] == Route(t[slot].nextHop, t[slot].state)
            else dest !in View(t)
  {
    LiveSlotIsFirst(t, dest, 0);
    ViewHas(t, dest);
  }

  // ----- Every operation keeps the first slots and does what it should to the map -----

  /** Two tables with the same live routes stand for the same map. */
  lemma SameView(t: seq<Entry>, m: map<byte, Route>)
    requires FirstSlots(t)
    requires forall i :: 0 <= i < |t| && t[i].Live() ==>
               t[i].dest in m && m[t[i].dest] == Route(t[i].nextHop, t[i].state)
    requires forall d :: d in m ==> exists i :: 0 <= i < |t| && t[i].Live() && t[i].dest == d
    ensures View(t) == m
  {
    forall d: byte
      ensures d in View(t) <==> d in m
      ensures d in m ==> View(t)[d] == m[d]
    {
      ViewHas(t, d);
    }
  }

  lemma LiveInView(t: seq<Entry>, i: nat)
    requires FirstSlots(t) && i < |t| && t[i].Live()
    ensures t[i].dest in View(t) && View(t)[t[i].dest] == Route(t[i].nextHop, t[i].state)
  {
  }

  lemma DeleteFirst(t: Table, index: nat)
    requires FirstSlots(t) && index < |t|
    ensures FirstSlots(DeleteRoute(t, index))
  {
  }

  /** The live entries that are left, and no others, come from the old table. */
  lemma DeleteLive(t: Table, index: nat, i: nat)
    requires FirstSlots(t) && index < |t| && i < |t| && DeleteRoute(t, index)[i].Live()
    ensures var e := DeleteRoute(t, index)[i];
            && e.dest in View(t) && View(t)[e.dest] == Route(e.nextHop, e.state)
            && (t[index].Live() ==> e.dest != t[index].dest)
  {
    LiveInView(t, if i >= index then i + 1 else i);
  }

  lemma DeleteStays(t: Table, index: nat, d: byte)
    requires FirstSlots(t) && index < |t| && d in View(t) && (t[index].Live() ==> d != t[index].dest)
    ensures exists i :: 0 <= i < 10 && DeleteRoute(t, index)[i].Live() && DeleteRoute(t, index)[i].dest == d
  {
    ViewHas(t, d);
    var i :| 0 <= i < |t| && t[i].Live() && t[i].dest == d;
    assert DeleteRoute(t, index)[if i > index then i - 1 else i] == t[i];
  }

  lemma DeleteView(t: Table, index: nat)
    requires FirstSlots(t) && index < |t|
    ensures var u := DeleteRoute(t, index);
            && FirstSlots(u) && !u[9].Live()
            && View(u) == (if t[index].Live() then View(t) - {t[index].dest} else View(t))
  {
    var u := DeleteRoute(t, index);
    var m := if t[index].Live() then View(t) - {t[index].dest} else View(t);
    DeleteFirst(t, index);
    forall i | 0 <= i < |u| && u[i].Live()
      ensures u[i].dest in m && m[u[i].dest] == Route(u[i].nextHop, u[i].state)
    {
      DeleteLive(t, index, i);
    }
    forall d | d in m
      ensures exists i :: 0 <= i < |u| && u[i].Live() && u[i].dest == d
    {
      DeleteStays(t, index, d);
    }
    SameView(u, m);
  }

  /** The map after `dest` has been given a route, or has lost its own. */
  function With(m: map<byte, Route>, e: Entry): map<byte, Route> {
    if e.Live() then m[e.dest := Route(e.nextHop, e.state)] else m - {e.dest}
  }

  lemma PutView(t: Table, slot: nat, e: Entry)
    requires FirstSlots(t) && slot < |t|
    requires t[slot].dest == e.dest || !t[slot].Live()
    requires forall j :: 0 <= j < |t| && j != slot && (j < slot || t[j].Live()) ==> t[j].dest != e.dest
    ensures FirstSlots(t[slot := e]) && View(t[slot := e]) == With(View(t), e)
  {
    var u := t[slot := e];
    if !e.Live() {
      assert forall i :: 0 <= i < |u| && u[i].Live() ==> i != slot;
    }
    forall i, j | 0 <= j < i < |u| && u[i].Live()
      ensures u[j].dest != u[i].dest
    {
      assert j != slot ==> u[j] == t[j];
      assert i != slot ==> u[i] == t[i];
    }
    var m := With(View(t), e);
    forall i | 0 <= i < |u| && u[i].Live()
      ensures u[i].dest in m && m[u[i].dest] == Route(u[i].nextHop, u[i].state)
    {
      if i != slot {
        LiveInView(t, i);
      }
    }
    forall d | d in m
      ensures exists i :: 0 <= i < |u| && u[i].Live() && u[i].dest == d
    {
      if d == e.dest {
        assert u[slot] == e;
      } else {
        ViewHas(t, d);
        var i :| 0 <= i < |t| && t[i].Live() && t[i].dest == d;
        assert u[i] == t[i];
      }
    }
    SameView(u, m);
  }

  lemma FillsOneSlot(t: Table, e: Entry)
    requires forall i :: 0 <= i < |t| ==> t[i].Live()
    ensures FillFree(DeleteRoute(t, 0), e) == DeleteRoute(t, 0)[9 := e]
  {
  }

  /** Giving a destination a route disturbs no other route, unless ten others are live: then slot 0 is lost. */
  lemma AddView(t: Table, dest: byte, nextHop: byte, state: RouteState)
    requires FirstSlots(t)
    ensures var u := AddRouteTo(t, dest, nextHop, state);
            var full := dest !in View(t) && |View(t)| == ROUTING_TABLE_SIZE;
            && FirstSlots(u)
            && View(u) == With(if full then View(t) - {t[0].dest} else View(t), Entry(dest, nextHop, state))
  {
    var e := Entry(dest, nextHop, state);
    var slot := SlotOf(t, dest, 0);
    SlotIsFirst(t, dest, 0);
    ViewSize(t);
    ViewHas(t, dest);
    if slot < |t| {
      PutView(t, slot, e);
    } else {
      var free := FreeSlot(t, 0);
      FreeIsFirst(t, 0);
      if free < |t| {
        PutView(t, free, e);
      } else {
        FillsOneSlot(t, e);
        DeleteView(t, 0);
        PutView(DeleteRoute(t, 0), 9, e);
      }
    }
  }

  /** A route that has been added is the one that is found. */
  lemma AddedIsFound(t: Table, dest: byte, nextHop: byte, state: RouteState)
    requires FirstSlots(t) && state != Invalid
    ensures var u := AddRouteTo(t, dest, nextHop, state);
            var slot := LiveSlot(u, dest, 0);
            slot < |u| && u[slot] == Entry(dest, nextHop, state)
  {
    AddView(t, dest, nextHop, state);
    GetIsLookup(AddRouteTo(t, dest, nextHop, state), dest);
  }

  /** Deleting removes that destination only; stale slots do not matter. */
  lemma DeleteToView(t: Table, dest: byte)
    requires FirstSlots(t)
    ensures FirstSlots(DeleteRouteTo(t, dest)) && View(DeleteRouteTo(t, dest)) == View(t) - {dest}
  {
    SlotIsFirst(t, dest, 0);
    ViewHas(t, dest);
    var slot := SlotOf(t, dest, 0);
    if slot < |t| {
      DeleteView(t, slot);
      if !t[slot].Live() {
        assert dest !in View(t);
      }
    }
  }

  /** Only slot 0 is retired, if it holds a route. */
  lemma RetireView(t: Table)
    requires FirstSlots(t)
    ensures FirstSlots(DeleteRoute(t, 0))
    ensures View(DeleteRoute(t, 0)) == if t[0].Live() then View(t) - {t[0].dest} else View(t)
  {
    DeleteView(t, 0);
  }

  lemma ClearView(t: Table)
    ensures FirstSlots(Clear(t)) && View(Clear(t)) == map[]
  {
    SameView(Clear(t), map[]);
  }

  /** The live entries after an addition were there before, except for the new one. */
  lemma AddedEntries(t: Table, dest: byte, nextHop: byte, d: byte)
    requires FirstSlots(t)
    requires d in View(AddRouteTo(t, dest, nextHop, Valid))
    ensures var r := View(AddRouteTo(t, dest, nextHop, Valid))[d];
            if d == dest then r.nextHop == nextHop else d in View(t) && View(t)[d] == r
  {
    AddView(t, dest, nextHop, Valid);
  }
}

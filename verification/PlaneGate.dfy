/** Delivery of guest activity to the Mac under the commit gate.

The plane loop drains a room and runs Presence and ApplyWrite callbacks; target rotation
and enable/disable advance the generation and then wait at the gate. Each event below is
one critical section, one arrival, or the start or end of one callback. */
module PlaneGate {
  import opened Text
  import RP = RoomPlane

  /** A SetTarget or SetEnabled call that advanced the generation. */
  datatype Change = Waiting(generation: nat) | Returned(generation: nat)

  datatype Stage =
    | Requested                      // the drain request is out
    | InFlight                       // the origin has drained, the answer is on its way
    | Between(presented: bool)       // no callback, gate not held
    | Holding(apply: bool)           // read side held, generation not yet checked
    | Calling(write: Option<RP.Write>) // inside Presence, or inside ApplyWrite of a write

  /** The plane loop: its frozen generation and room, and what it has drained but not applied. */
  datatype Loop =
    | Resting
    | Loop(generation: nat, room: nat, batch: seq<RP.Write>, numbers: seq<nat>, stage: Stage)

  /** One origin room object. `accepted` records every write Enqueue accepted, in order;
      `queued` and `applied` give acceptance numbers. */
  datatype RoomLog = RoomLog(plane: RP.Plane, accepted: seq<RP.Write>, queued: seq<nat>, applied: seq<nat>)

  const NEW_ROOM := RoomLog(RP.EMPTY, [], [], [])

  datatype World = World(generation: nat, changes: map<nat, Change>, loop: Loop, rooms: map<nat, RoomLog>)

  datatype Event =
    | Advance(id: nat)               // a change call's state transition
    | Join(id: nat)                  // its pass through the gate's write side
    | Enqueue(room: nat, write: RP.Write)
    | ResetRoom(room: nat)
    | Start(room: nat)
    | DrainAt(now: int)
    | Lose                           // request or answer lost, or the cycle cancelled
    | Receive
    | Enter
    | Check
    | Return
    | SkipPresence                   // no Presence hook
    | Finish

  function Room(w: World, r: nat): RoomLog {
    if r in w.rooms then w.rooms[r] else NEW_ROOM
  }

  predicate GateFree(w: World) {
    w.loop.Loop? ==> !w.loop.stage.Holding? && !w.loop.stage.Calling?
  }

  predicate Enabled(w: World, e: Event) {
    match e
    case Advance(id) => id !in w.changes
    case Join(id) => id in w.changes && w.changes[id].Waiting? && GateFree(w)
    case Enqueue(_, _) => true
    case ResetRoom(_) => true
    case Start(_) => w.loop.Resting?
    case DrainAt(_) => w.loop.Loop? && w.loop.stage.Requested?
    case Lose => w.loop.Loop? && GateFree(w)
    case Receive => w.loop.Loop? && w.loop.stage.InFlight?
    case Enter => w.loop.Loop? && w.loop.stage.Between? && (w.loop.stage.presented ==> w.loop.batch != [])
    case Check => w.loop.Loop? && w.loop.stage.Holding?
                  && (w.loop.stage.apply ==> w.loop.batch != [] && |w.loop.numbers| == |w.loop.batch|)
    case Return => w.loop.Loop? && w.loop.stage.Calling?
    case SkipPresence => w.loop.Loop? && w.loop.stage == Between(false)
    case Finish => w.loop.Loop? && w.loop.stage == Between(true)
  }

  function Step(w: World, e: Event): World
    requires Enabled(w, e)
  {
    var l := w.loop;
    match e
    case Advance(id) =>
      w.(generation := w.generation + 1, changes := w.changes[id := Waiting(w.generation + 1)])
    case Join(id) => w.(changes := w.changes[id := Returned(w.changes[id].generation)])
    case Enqueue(r, write) =>
      var room := Room(w, r);
      if !RP.Accepts(room.plane, write.path) then w
      else
        w.(rooms := w.rooms[r := room.(plane := RP.EnqueueSpec(room.plane, write),
                                       accepted := room.accepted + [write],
                                       queued := room.queued + [|room.accepted|])])
    case ResetRoom(r) =>
      var room := Room(w, r);
      w.(rooms := w.rooms[r := room.(plane := RP.ResetSpec(room.plane), queued := [])])
    case Start(r) => w.(loop := Loop(w.generation, r, [], [], Requested))
    case DrainAt(now) =>
      var room := Room(w, l.room);
      w.(loop := l.(batch := room.plane.writes, numbers := room.queued, stage := InFlight),
         rooms := w.rooms[l.room := room.(plane := RP.DrainSpec(room.plane, now), queued := [])])
    case Lose => w.(loop := Resting)
    case Receive =>
      if l.generation != w.generation then w.(loop := Resting) else w.(loop := l.(stage := Between(false)))
    case Enter => w.(loop := l.(stage := Holding(l.stage.presented)))
    case Check =>
      if l.generation != w.generation then w.(loop := Resting)
      else if !l.stage.apply then w.(loop := l.(stage := Calling(None)))
      else
        var room := Room(w, l.room);
        w.(loop := l.(batch := l.batch[1..], numbers := l.numbers[1..], stage := Calling(Some(l.batch[0]))),
           rooms := w.rooms[l.room := room.(applied := room.applied + [l.numbers[0]])])
    case Return => w.(loop := l.(stage := Between(true)))
    case SkipPresence => w.(loop := l.(stage := Between(true)))
    case Finish => w.(loop := Resting)
  }

  ghost predicate Run(ws: seq<World>, es: seq<Event>) {
    && |ws| == |es| + 1
    && ws[0] == World(0, map[], Resting, map[])
    && forall i {:trigger es[i]} :: 0 <= i < |es| ==> Enabled(ws[i], es[i]) && ws[i + 1] == Step(ws[i], es[i])
  }

  // ---------------------------------------------------------------- the gate

  /** A callback inside the gate is no older than any change that has returned. */
  ghost predicate GateHolds(w: World) {
    && (forall id :: id in w.changes ==> w.changes[id].generation <= w.generation)
    && (w.loop.Loop? ==> w.loop.generation <= w.generation)
    && (w.loop.Loop? && w.loop.stage.Calling? ==>
          forall id :: id in w.changes && w.changes[id].Returned? ==> w.changes[id].generation <= w.loop.generation)
  }

  // ---------------------------------------------------------------- order of writes

  predicate Ascending(s: seq<nat>) {
    forall i, j :: 0 <= i < j < |s| ==> s[i] < s[j]
  }

  predicate Below(s: seq<nat>, n: nat) {
    forall i :: 0 <= i < |s| ==> s[i] < n
  }

  /** What the loop has taken from this room and not yet applied. */
  function Pending(w: World, r: nat): seq<nat> {
    if w.loop.Loop? && w.loop.room == r then w.loop.numbers else []
  }

  predicate Matches(writes: seq<RP.Write>, numbers: seq<nat>, accepted: seq<RP.Write>) {
    && |writes| == |numbers|
    && forall i :: 0 <= i < |writes| ==> numbers[i] < |accepted| && writes[i] == accepted[numbers[i]]
  }

  /** Applied, then drained, then queued writes carry ascending acceptance numbers. */
  ghost predicate Ordered(w: World, r: nat) {
    var room := Room(w, r);
    && Ascending(room.applied + Pending(w, r) + room.queued)
    && Below(room.applied + Pending(w, r) + room.queued, |room.accepted|)
    && Matches(room.plane.writes, room.queued, room.accepted)
  }

  ghost predicate Inv(w: World) {
    && GateHolds(w)
    && (forall r :: Ordered(w, r))
    && (w.loop.Loop? ==>
          && Matches(w.loop.batch, w.loop.numbers, Room(w, w.loop.room).accepted)
          && (w.loop.stage.Requested? ==> w.loop.numbers == [])
          && (w.loop.stage == Holding(true) ==> w.loop.batch != []))
  }

  lemma StepKeepsGate(w: World, e: Event)
    requires GateHolds(w) && Enabled(w, e)
    ensures GateHolds(Step(w, e))
  {
  }

  lemma AppendNumber(s: seq<nat>, n: nat)
    requires Ascending(s) && Below(s, n)
    ensures Ascending(s + [n]) && Below(s + [n], n + 1)
  {
  }

  lemma PartAscends(a: seq<nat>, b: seq<nat>, c: seq<nat>, n: nat)
    requires Ascending(a + b + c) && Below(a + b + c, n)
    ensures Ascending(a + b) && Below(a + b, n)
    ensures Ascending(a + c) && Below(a + c, n)
  {
    var all := a + b + c;
    assert forall i :: 0 <= i < |a + b| ==> (a + b)[i] == all[i];
    assert forall i :: 0 <= i < |a + c| ==> (a + c)[i] == all[if i < |a| then i else i + |b|];
  }

  lemma AcceptKeepsMatches(writes: seq<RP.Write>, numbers: seq<nat>, accepted: seq<RP.Write>, write: RP.Write)
    requires Matches(writes, numbers, accepted)
    ensures Matches(writes, numbers, accepted + [write])
    ensures Matches(writes + [write], numbers + [|accepted|], accepted + [write])
  {
  }

  lemma AppendedAscends(kept: seq<nat>, queued: seq<nat>, n: nat)
    requires Ascending(kept + queued) && Below(kept + queued, n)
    ensures Ascending(kept + (queued + [n])) && Below(kept + (queued + [n]), n + 1)
  {
    AppendNumber(kept + queued, n);
    assert kept + queued + [n] == kept + (queued + [n]);
  }

  lemma EnqueueKeepsOrder(w: World, r: nat, write: RP.Write, q: nat)
    requires Inv(w)
    ensures Ordered(Step(w, Enqueue(r, write)), q)
  {
    assert Ordered(w, q);
    var room := Room(w, r);
    if q == r && RP.Accepts(room.plane, write.path) {
      AppendedAscends(room.applied + Pending(w, r), room.queued, |room.accepted|);
      AcceptKeepsMatches(room.plane.writes, room.queued, room.accepted, write);
    }
  }

  lemma ResetKeepsOrder(w: World, r: nat, q: nat)
    requires Inv(w)
    ensures Ordered(Step(w, ResetRoom(r)), q)
  {
    assert Ordered(w, q);
    if q == r {
      EmptiedAscends(Room(w, r).applied + Pending(w, r), Room(w, r).queued, |Room(w, r).accepted|);
    }
  }

  lemma EmptiedAscends(kept: seq<nat>, queued: seq<nat>, n: nat)
    requires Ascending(kept + queued) && Below(kept + queued, n)
    ensures Ascending(kept + []) && Below(kept + [], n)
  {
    assert kept + queued + [] == kept + queued;
    PartAscends(kept, queued, [], n);
  }

  lemma DrainKeepsOrder(w: World, now: int, q: nat)
    requires Inv(w) && Enabled(w, DrainAt(now))
    ensures Ordered(Step(w, DrainAt(now)), q)
  {
    assert Ordered(w, q);
    var room := Room(w, w.loop.room);
    assert room.applied + [] + room.queued == room.applied + room.queued + [];
  }

  /** Dropping what was drained leaves a gap in the numbers, never a disorder. */
  lemma DropKeepsOrder(w: World, w': World, q: nat)
    requires Inv(w) && w' == w.(loop := Resting)
    ensures Ordered(w', q)
  {
    assert Ordered(w, q);
    var room := Room(w, q);
    PartAscends(room.applied, Pending(w, q), room.queued, |room.accepted|);
    assert room.applied + [] + room.queued == room.applied + room.queued;
  }

  lemma CheckKeepsOrder(w: World, q: nat)
    requires Inv(w) && Enabled(w, Check)
    ensures Ordered(Step(w, Check), q)
  {
    assert Ordered(w, q);
    var l := w.loop;
    if l.generation != w.generation {
      DropKeepsOrder(w, Step(w, Check), q);
    } else if l.stage.apply && q == l.room {
      var room := Room(w, q);
      assert room.applied + l.numbers + room.queued == (room.applied + [l.numbers[0]]) + l.numbers[1..] + room.queued;
    }
  }

  lemma StepKeeps(w: World, e: Event)
    requires Inv(w) && Enabled(w, e)
    ensures Inv(Step(w, e))
  {
    StepKeepsGate(w, e);
    var w' := Step(w, e);
    forall q ensures Ordered(w', q) {
      assert Ordered(w, q);
      match e
      case Enqueue(r, write) => EnqueueKeepsOrder(w, r, write, q);
      case ResetRoom(r) => ResetKeepsOrder(w, r, q);
      case DrainAt(now) => DrainKeepsOrder(w, now, q);
      case Check => CheckKeepsOrder(w, q);
      case Lose => DropKeepsOrder(w, w', q);
      case Finish => DropKeepsOrder(w, w', q);
      case Receive => if w'.loop.Resting? { DropKeepsOrder(w, w', q); }
      case _ =>
    }
    LoopMatches(w, e);
  }

  lemma LoopMatches(w: World, e: Event)
    requires Inv(w) && Enabled(w, e)
    ensures var w' := Step(w, e);
            w'.loop.Loop? ==>
              && Matches(w'.loop.batch, w'.loop.numbers, Room(w', w'.loop.room).accepted)
              && (w'.loop.stage.Requested? ==> w'.loop.numbers == [])
              && (w'.loop.stage == Holding(true) ==> w'.loop.batch != [])
  {
    if w.loop.Loop? { assert Ordered(w, w.loop.room); }
  }

  lemma {:induction false} RunKeeps(ws: seq<World>, es: seq<Event>, k: nat)
    requires Run(ws, es) && k <= |es|
    ensures Inv(ws[k])
  {
    if k > 0 {
      RunKeeps(ws, es, k - 1);
      StepKeeps(ws[k - 1], es[k - 1]);
    }
  }

  lemma {:induction false} ReturnedStays(ws: seq<World>, es: seq<Event>, i: nat, j: nat, id: nat)
    requires Run(ws, es) && i <= j < |ws|
    requires id in ws[i].changes && ws[i].changes[id].Returned?
    ensures id in ws[j].changes && ws[j].changes[id] == ws[i].changes[id]
    decreases j - i
  {
    if i < j {
      ReturnedStays(ws, es, i, j - 1, id);
      assert ws[j] == Step(ws[j - 1], es[j - 1]);
    }
  }

  /** Once the change call that advanced the generation has returned, no Presence or
      ApplyWrite callback of an older generation is running, now or at any later time. */
  lemma NoOldCallbackAfterReturn(ws: seq<World>, es: seq<Event>, i: nat, j: nat, id: nat)
    requires Run(ws, es) && i <= j < |ws|
    requires id in ws[i].changes && ws[i].changes[id].Returned?
    ensures ws[j].loop.Loop? && ws[j].loop.stage.Calling? ==> ws[j].loop.generation >= ws[i].changes[id].generation
  {
    ReturnedStays(ws, es, i, j, id);
    RunKeeps(ws, es, j);
  }

  // ---------------------------------------------------------------- what was applied

  /** `picks` selects `a` from `b` in order, each element at most once. */
  ghost predicate Selects(a: seq<RP.Write>, b: seq<RP.Write>, picks: seq<nat>) {
    Ascending(picks) && Matches(a, picks, b)
  }

  function AppliedWrites(room: RoomLog): seq<RP.Write>
    requires Below(room.applied, |room.accepted|)
  {
    seq(|room.applied|, i requires 0 <= i < |room.applied| => room.accepted[room.applied[i]])
  }

  lemma AppliedSelects(w: World, r: nat)
    requires Ordered(w, r)
    ensures Below(Room(w, r).applied, |Room(w, r).accepted|)
    ensures Selects(AppliedWrites(Room(w, r)), Room(w, r).accepted, Room(w, r).applied)
  {
    var room := Room(w, r);
    var all := room.applied + Pending(w, r) + room.queued;
    assert forall i :: 0 <= i < |room.applied| ==> room.applied[i] == all[i];
  }

  /** An ApplyWrite callback is given the very write the number it consumes stands for. */
  lemma CallGetsItsWrite(w: World, r: nat)
    requires Inv(w) && Enabled(w, Check) && w.loop.room == r
    ensures var next := Step(w, Check);
            next.loop.Loop? && next.loop.stage.Calling? && next.loop.stage.write.Some? ==>
              var now := Room(next, r);
              && |now.applied| == |Room(w, r).applied| + 1
              && now.applied[|now.applied| - 1] < |now.accepted|
              && next.loop.stage.write.value == now.accepted[now.applied[|now.applied| - 1]]
  {
  }

  /** The writes applied from one room are a subsequence of those its queue accepted, in
      order and each at most once; and an ApplyWrite callback is given the very write the
      number it consumes stands for. */
  lemma AppliedIsSubsequence(ws: seq<World>, es: seq<Event>, j: nat, r: nat)
    requires Run(ws, es) && j < |ws|
    ensures Below(Room(ws[j], r).applied, |Room(ws[j], r).accepted|)
    ensures Selects(AppliedWrites(Room(ws[j], r)), Room(ws[j], r).accepted, Room(ws[j], r).applied)
    ensures j < |es| && es[j] == Check && ws[j + 1].loop.Loop? && ws[j + 1].loop.stage.Calling?
            && ws[j + 1].loop.stage.write.Some? && ws[j].loop.room == r ==>
              var now := Room(ws[j + 1], r);
              && |now.applied| == |Room(ws[j], r).applied| + 1
              && now.applied[|now.applied| - 1] < |now.accepted|
              && ws[j + 1].loop.stage.write.value == now.accepted[now.applied[|now.applied| - 1]]
  {
    RunKeeps(ws, es, j);
    AppliedSelects(ws[j], r);
    if j < |es| && es[j] == Check && ws[j].loop.room == r {
      CallGetsItsWrite(ws[j], r);
    }
  }

  // ---------------------------------------------------------------- nothing drained is left out

  /** The loop has drained room `r` and has not been told to stop. */
  ghost predicate Delivering(w: World, r: nat, g: nat) {
    && w.loop.Loop? && w.loop.room == r && w.loop.generation == g == w.generation
    && !w.loop.stage.Requested?
  }

  /** An event that neither loses the batch, ends the loop nor advances the generation. */
  predicate Undisturbed(e: Event) {
    !e.Lose? && !e.Finish? && !e.Advance?
  }

  /** Applied and still pending writes of the room, in order. */
  function Delivery(w: World, r: nat): seq<nat>
    requires w.loop.Loop?
  {
    Room(w, r).applied + w.loop.numbers
  }

  lemma DeliveryStep(w: World, e: Event, r: nat, g: nat)
    requires Delivering(w, r, g) && Enabled(w, e) && Undisturbed(e)
    ensures Delivering(Step(w, e), r, g) && Delivery(Step(w, e), r) == Delivery(w, r)
  {
    if e.Check? && w.loop.stage.apply {
      assert w.loop.numbers == [w.loop.numbers[0]] + w.loop.numbers[1..];
    }
  }

  /** While the generation stands and nothing is lost, every drained write is applied or still
      pending, in the order it was accepted; with none pending all have been applied. */
  lemma {:induction false} DrainedIsAppliedOrPending(ws: seq<World>, es: seq<Event>, i: nat, j: nat, r: nat, g: nat)
    requires Run(ws, es) && i <= j <= |es| && Delivering(ws[i], r, g)
    requires forall k :: i <= k < j ==> Undisturbed(es[k])
    ensures Delivering(ws[j], r, g) && Delivery(ws[j], r) == Delivery(ws[i], r)
    ensures ws[j].loop.numbers == [] ==> Room(ws[j], r).applied == Room(ws[i], r).applied + ws[i].loop.numbers
  {
    if i < j {
      DrainedIsAppliedOrPending(ws, es, i, j - 1, r, g);
      assert ws[j] == Step(ws[j - 1], es[j - 1]);
      DeliveryStep(ws[j - 1], es[j - 1], r, g);
    }
    if ws[j].loop.numbers == [] {
      assert Room(ws[j], r).applied + [] == Room(ws[j], r).applied;
    }
  }

  /** And the next write is always one turn through the gate away. */
  lemma NextIsApplied(w: World, r: nat, g: nat)
    requires Delivering(w, r, g) && w.loop.stage == Between(true) && w.loop.batch != []
    requires |w.loop.numbers| == |w.loop.batch|
    ensures Enabled(w, Enter) && Enabled(Step(w, Enter), Check)
    ensures var w' := Step(Step(w, Enter), Check);
            && w'.loop.Loop? && w'.loop.stage == Calling(Some(w.loop.batch[0])) && Enabled(w', Return)
            && w'.loop.batch == w.loop.batch[1..] && Step(w', Return).loop.stage == Between(true)
            && Room(w', r).applied == Room(w, r).applied + [w.loop.numbers[0]]
  {
  }

  /** A drain takes everything its room has queued. */
  lemma DrainTakesAll(w: World, now: int)
    requires Inv(w) && Enabled(w, DrainAt(now))
    ensures var r, next := w.loop.room, Step(w, DrainAt(now));
            && next.loop.batch == Room(w, r).plane.writes && next.loop.numbers == Room(w, r).queued
            && Room(next, r).queued == [] && Room(next, r).plane.writes == []
            && Room(next, r).accepted == Room(w, r).accepted
  {
  }
}

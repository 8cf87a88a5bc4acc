/** Contribution to the relay origin: media before the playlist that names it.

`Manager` is the pusher's lock-protected state and `ContributionManager` the object that
holds it. The second half runs the pusher against an origin that may forget a room at any
moment, and bounds how often a stored playlist can name media the room never received. */
module Contribution {
  import opened Text
  import opened Readers

  const FAIL_RESET_AFTER := 3

  /** A relay room and the publish credential for it. */
  datatype Target = Target(base: string, token: string)

  datatype Manager = Manager(
    generation: nat,
    enabled: bool,
    targetKnown: bool,
    target: Target,
    sent: set<string>,
    pageSent: bool,
    assetsRev: string,
    originEpoch: Option<nat>,
    variant: string,
    failStreak: nat,
    failures: nat,
    running: bool,
    pushed: nat)

  // ---------------------------------------------------------------- critical sections

  function ResetTarget(m: Manager): Manager {
    m.(sent := {}, pageSent := false, assetsRev := "")
  }

  function SetEnabledSpec(m: Manager, on: bool): Manager {
    if m.enabled == on then m
    else
      var next := m.(enabled := on, generation := m.generation + 1);
      if on then next else ResetTarget(next).(running := false, variant := "", failStreak := 0)
  }

  function AdoptSpec(m: Manager, target: Target): Manager {
    if m.targetKnown && m.target == target then m
    else
      ResetTarget(m).(targetKnown := true, target := target, generation := m.generation + 1,
                      originEpoch := None, running := false, failures := 0, failStreak := 0)
  }

  /** A changed room epoch means everything sent is gone; the first one seen does not. */
  function ObserveSpec(m: Manager, epoch: nat): Manager {
    if m.originEpoch == Some(epoch) then m
    else if m.originEpoch.None? then m.(originEpoch := Some(epoch))
    else ResetTarget(m.(originEpoch := Some(epoch)))
  }

  function MarkSpec(m: Manager, name: string): Manager {
    m.(sent := m.sent + {name}, pushed := m.pushed + 1)
  }

  function MarkPageSpec(m: Manager): Manager {
    m.(pageSent := true)
  }

  function MarkAssetsSpec(m: Manager, rev: string): Manager {
    m.(assetsRev := rev)
  }

  function PruneSpec(m: Manager, names: seq<string>): Manager {
    m.(sent := set n | n in m.sent && n in names)
  }

  function ResetSession(m: Manager): Manager {
    ResetTarget(m).(variant := "", failStreak := 0)
  }

  /** One cycle's outcome; the third failure in a row rebuilds the whole conversation. */
  function RecordSpec(m: Manager, generation: nat, failed: bool): Manager {
    if m.generation != generation || !m.enabled then m
    else if !failed then m.(running := true, failures := 0, failStreak := 0)
    else
      var next := m.(running := false, failures := m.failures + 1, failStreak := m.failStreak + 1, variant := "");
      if next.failStreak >= FAIL_RESET_AFTER then ResetSession(next) else next
  }

  class ContributionManager {
    var generation: nat
    var enabled: bool
    var targetKnown: bool
    var target: Target
    var sent: set<string>
    var pageSent: bool
    var assetsRev: string
    var originEpoch: Option<nat>
    var variant: string
    var failStreak: nat
    var failures: nat
    var running: bool
    var pushed: nat

    ghost function Value(): Manager
      reads this
    {
      Manager(generation, enabled, targetKnown, target, sent, pageSent, assetsRev,
              originEpoch, variant, failStreak, failures, running, pushed)
    }

    constructor ()
      ensures Value() == Initial()
    {
      generation, enabled, targetKnown, target := 0, false, false, Target("", "");
      sent, pageSent, assetsRev, originEpoch, variant := {}, false, "", None, "";
      failStreak, failures, running, pushed := 0, 0, false, 0;
    }

    method ResetTargetState()
      modifies `sent, `pageSent, `assetsRev
      ensures Value() == ResetTarget(old(Value()))
    {
      sent := {};
      pageSent := false;
      assetsRev := "";
    }

    method SetEnabled(on: bool)
      modifies this
      ensures Value() == SetEnabledSpec(old(Value()), on)
    {
      if enabled == on {
        return;
      }
      enabled := on;
      generation := generation + 1;
      if !on {
        running := false;
        ResetTargetState();
        variant := "";
        failStreak := 0;
      }
    }

    method AdoptTarget(next: Target) returns (frozen: nat)
      modifies this
      ensures Value() == AdoptSpec(old(Value()), next)
      ensures frozen == generation
    {
      var changed := !targetKnown || target != next;
      if changed {
        ChangeTarget(next);
      }
      frozen := generation;
    }

    method ChangeTarget(next: Target)
      requires !targetKnown || target != next
      modifies this
      ensures Value() == AdoptSpec(old(Value()), next)
    {
      ghost var m := Value();
      ResetTargetState();
      assert Value() == ResetTarget(m);
      targetKnown, target, generation, originEpoch := true, next, generation + 1, None;
      running, failures, failStreak := false, 0, 0;
    }

    method ObserveEpochAt(frozen: nat, epoch: nat) returns (current: bool)
      modifies this
      ensures current == (old(generation) == frozen)
      ensures Value() == if current then ObserveSpec(old(Value()), epoch) else old(Value())
    {
      if generation != frozen {
        return false;
      }
      if originEpoch == Some(epoch) {
        return true;
      }
      var first := originEpoch.None?;
      originEpoch := Some(epoch);
      if first {
        return true;
      }
      ResetTargetState();
      return true;
    }

    method MarkSentAt(frozen: nat, name: string) returns (current: bool)
      modifies `sent, `pushed
      ensures current == (old(generation) == frozen)
      ensures Value() == if current then MarkSpec(old(Value()), name) else old(Value())
    {
      if generation != frozen {
        return false;
      }
      sent := sent + {name};
      pushed := pushed + 1;
      return true;
    }

    method PagePushedAt(frozen: nat) returns (pushed: bool, current: bool)
      ensures current == (generation == frozen) && pushed == (current && pageSent)
    {
      if generation != frozen {
        return false, false;
      }
      return pageSent, true;
    }

    method MarkPagePushedAt(frozen: nat) returns (current: bool)
      modifies `pageSent
      ensures current == (generation == frozen)
      ensures Value() == if current then MarkPageSpec(old(Value())) else old(Value())
    {
      current := generation == frozen;
      if current {
        pageSent := true;
      }
    }

    method MarkAssetsAt(frozen: nat, rev: string) returns (current: bool)
      modifies `assetsRev
      ensures current == (generation == frozen)
      ensures Value() == if current then MarkAssetsSpec(old(Value()), rev) else old(Value())
    {
      current := generation == frozen;
      if current {
        assetsRev := rev;
      }
    }

    method PruneSentAt(frozen: nat, names: seq<string>) returns (current: bool)
      modifies `sent
      ensures current == (old(generation) == frozen)
      ensures Value() == if current then PruneSpec(old(Value()), names) else old(Value())
    {
      if generation != frozen {
        return false;
      }
      var rest := sent;
      while rest != {}
        invariant rest <= old(sent)
        invariant sent == set n | n in old(sent) && (n in rest || n in names)
        decreases rest
      {
        var name :| name in rest;
        rest := rest - {name};
        if name !in names {
          sent := sent - {name};
        }
      }
      return true;
    }

    method RecordCycle(frozen: nat, failed: bool) returns (recorded: bool)
      modifies this
      ensures recorded == (old(generation) == frozen && old(enabled))
      ensures Value() == RecordSpec(old(Value()), frozen, failed)
    {
      if generation != frozen || !enabled {
        return false;
      }
      if failed {
        running := false;
        failures := failures + 1;
        failStreak := failStreak + 1;
        variant := "";
      } else {
        running := true;
        failures := 0;
        failStreak := 0;
      }
      if failStreak >= FAIL_RESET_AFTER {
        ResetTargetState();
        variant := "";
        failStreak := 0;
      }
      return true;
    }
  }

  function Initial(): Manager {
    Manager(0, false, false, Target("", ""), {}, false, "", None, "", 0, 0, false, 0)
  }

  // ---------------------------------------------------------------- the origin and one cycle

  /** One in-memory life of a room: its epoch and every name it was ever sent. */
  datatype Incarnation = Incarnation(epoch: nat, received: set<string>)

  datatype Put = Media(name: string) | Extra(name: string) | Playlist

  datatype Phase =
    | Fetching                         // the local playlist has not been read yet
    | Walking(at: nat)                 // names[..at] are dealt with
    | Sending(put: Put)                // a PUT is on its way
    | Delivered(sentPut: Put, epoch: nat) // the origin stored it and answered with its epoch
    | Marking(name: string, epoch: nat) // the answer was observed, `sent` not yet updated
    | Finishing                        // the playlist is stored and answered

  /** A cycle with its frozen generation and target. */
  datatype Cycle =
    | Idle
    | Cycle(generation: nat, base: string, names: seq<string>, required: set<string>,
            at: nat, done: set<string>, phase: Phase)

  /** A PUT whose call was cancelled while it was on its way: it may reach the origin yet. */
  datatype Stray = Stray(base: string, put: Put, required: set<string>)

  /** `bad[e]` counts playlists stored in epoch e that name a required file it had not
      received; `lost[e]` counts responses of epoch e that never arrived, `late[e]` playlists that
      arrived after their call had returned. */
  datatype World = World(
    m: Manager,
    rooms: map<string, Incarnation>,
    nextEpoch: nat,
    cycle: Cycle,
    bad: map<nat, nat>,
    lost: map<nat, nat>,
    late: map<nat, nat>,
    strays: multiset<Stray>)

  function Count(c: map<nat, nat>, e: nat): nat {
    if e in c then c[e] else 0
  }

  function Bump(c: map<nat, nat>, e: nat): map<nat, nat> {
    c[e := Count(c, e) + 1]
  }

  datatype Event =
    | SetEnabled(on: bool)
    | SetTarget(target: Target)
    | OriginForgets(base: string)      // restart, or the idle sweep
    | OriginCreates(base: string)      // some other request made the room
    | Begin
    | Fetched(lines: seq<string>)
    | Walk(fetchOk: bool)
    | SendExtra(name: string)
    | SendPlaylist
    | Deliver
    | Respond(ok: bool)
    | LoseResponse
    | Mark
    | Prune
    | Abort                            // a fetch error, a refused or cancelled PUT
    | LateArrival(stray: Stray)        // a cancelled PUT reaches the origin after all
    | MarkPage                         // the guest page is on the origin
    | MarkAssets(rev: string)          // and its assets, at this revision
    | Record(generation: nat, failed: bool)

  predicate Busy(w: World) {
    w.cycle.Cycle?
  }

  predicate Current(w: World) {
    Busy(w) && w.cycle.generation == w.m.generation
  }

  predicate Enabled(w: World, e: Event) {
    match e
    case SetEnabled(_) => true
    case SetTarget(_) => true
    case OriginForgets(base) => base in w.rooms
    case OriginCreates(base) => base !in w.rooms
    case Begin => w.cycle.Idle? && w.m.enabled && w.m.target.base != ""
    case Fetched(lines) => Busy(w) && w.cycle.phase.Fetching? && MediaNamesOf(lines) != []
    case Walk(_) => Busy(w) && w.cycle.phase.Walking? && w.cycle.phase.at < |w.cycle.names|
    case SendExtra(_) => Busy(w) && w.cycle.phase.Walking? && w.cycle.phase.at == |w.cycle.names|
    case SendPlaylist => Busy(w) && w.cycle.phase.Walking? && w.cycle.phase.at == |w.cycle.names|
    case Deliver => Busy(w) && w.cycle.phase.Sending?
    case Respond(_) => Busy(w) && w.cycle.phase.Delivered?
    case LoseResponse => Busy(w) && w.cycle.phase.Delivered?
    case Mark => Busy(w) && w.cycle.phase.Marking?
    case Prune => Busy(w) && w.cycle.phase.Finishing?
    case Abort => Busy(w) && !w.cycle.phase.Delivered?
    case LateArrival(stray) => stray in w.strays
    case MarkPage => Busy(w) && w.cycle.phase.Walking?
    case MarkAssets(_) => Busy(w) && w.cycle.phase.Walking?
    case Record(_, _) => w.cycle.Idle?
  }

  /** The origin's side of an upload: the room is made if needed, then the file stored. */
  function Arrived(w: World, base: string): World {
    if base in w.rooms then w
    else w.(rooms := w.rooms[base := Incarnation(w.nextEpoch, {})], nextEpoch := w.nextEpoch + 1)
  }

  function Stored(w: World, c: Cycle): World
    requires c.Cycle? && c.phase.Sending? && c.base in w.rooms
  {
    var room := w.rooms[c.base];
    var after := Delivered(c.phase.put, room.epoch);
    match c.phase.put
    case Playlist =>
      w.(cycle := c.(phase := after), bad := if c.required <= room.received then w.bad else Bump(w.bad, room.epoch))
    case Media(name) =>
      w.(cycle := c.(phase := after), rooms := w.rooms[c.base := room.(received := room.received + {name})])
    case Extra(name) =>
      w.(cycle := c.(phase := after), rooms := w.rooms[c.base := room.(received := room.received + {name})])
  }

  /** A stray PUT is stored like any other, and nobody reads its answer. */
  function StoredLate(w: World, s: Stray): World
    requires s.base in w.rooms
  {
    var room := w.rooms[s.base];
    match s.put
    case Playlist =>
      w.(late := Bump(w.late, room.epoch),
         bad := if s.required <= room.received then w.bad else Bump(w.bad, room.epoch))
    case Media(name) => w.(rooms := w.rooms[s.base := room.(received := room.received + {name})])
    case Extra(name) => w.(rooms := w.rooms[s.base := room.(received := room.received + {name})])
  }

  /** Ending a cycle whose PUT is on its way leaves the PUT behind. */
  function Aborted(w: World): World
    requires Busy(w)
  {
    var c := w.cycle;
    w.(cycle := Idle,
       strays := if c.phase.Sending? then w.strays + multiset{Stray(c.base, c.phase.put, c.required)} else w.strays)
  }

  function Answered(w: World, c: Cycle, ok: bool): World
    requires c.Cycle? && c.phase.Delivered?
  {
    if c.generation != w.m.generation then w.(cycle := Idle)
    else
      var m := ObserveSpec(w.m, c.phase.epoch);
      if !ok then w.(m := m, cycle := Idle)
      else
        match c.phase.sentPut
        case Playlist => w.(m := m, cycle := c.(phase := Finishing))
        case Media(name) => w.(m := m, cycle := c.(phase := Marking(name, c.phase.epoch)))
        case Extra(_) => w.(m := m, cycle := c.(phase := Walking(|c.names|)))
  }

  function Walked(w: World, c: Cycle, fetchOk: bool): World
    requires c.Cycle? && c.phase.Walking? && c.phase.at < |c.names|
  {
    var name := c.names[c.phase.at];
    if c.generation != w.m.generation then w.(cycle := Idle)
    else if name in w.m.sent then w.(cycle := c.(done := c.done + {name}, phase := Walking(c.phase.at + 1)))
    else if fetchOk then w.(cycle := c.(at := c.phase.at, phase := Sending(Media(name))))
    else if name in c.required then w.(cycle := Idle)
    else w.(cycle := c.(phase := Walking(c.phase.at + 1)))
  }

  function Step(w: World, e: Event): World
    requires Enabled(w, e)
  {
    var c := w.cycle;
    match e
    case SetEnabled(on) => w.(m := SetEnabledSpec(w.m, on))
    case SetTarget(target) => w.(m := AdoptSpec(w.m, target))
    case OriginForgets(base) => w.(rooms := w.rooms - {base})
    case OriginCreates(base) => Arrived(w, base)
    case Begin => w.(cycle := Cycle(w.m.generation, w.m.target.base, [], {}, 0, {}, Fetching))
    case Fetched(lines) =>
      w.(cycle := c.(names := MediaNamesOf(lines), required := RequiredNames(lines), phase := Walking(0)))
    case Walk(fetchOk) => Walked(w, c, fetchOk)
    case SendExtra(name) => w.(cycle := if Current(w) then c.(phase := Sending(Extra(name))) else Idle)
    case SendPlaylist => w.(cycle := if Current(w) then c.(phase := Sending(Playlist)) else Idle)
    case Deliver => Stored(Arrived(w, c.base), c)
    case Respond(ok) => Answered(w, c, ok)
    case LoseResponse => w.(cycle := Idle, lost := Bump(w.lost, c.phase.epoch))
    case Mark =>
      if c.generation != w.m.generation then w.(cycle := Idle)
      else
        w.(m := MarkSpec(w.m, c.phase.name),
           cycle := c.(done := c.done + {c.phase.name}, phase := Walking(c.at + 1)))
    case Prune =>
      w.(m := if Current(w) then PruneSpec(w.m, c.names) else w.m, cycle := Idle)
    case Abort => Aborted(w)
    case LateArrival(stray) => StoredLate(Arrived(w, stray.base), stray).(strays := w.strays - multiset{stray})
    case MarkPage => if Current(w) then w.(m := MarkPageSpec(w.m)) else w.(cycle := Idle)
    case MarkAssets(rev) => if Current(w) then w.(m := MarkAssetsSpec(w.m, rev)) else w.(cycle := Idle)
    case Record(generation, failed) => w.(m := RecordSpec(w.m, generation, failed))
  }

  // ---------------------------------------------------------------- the invariant

  /** Epochs are never reused and belong to one room. */
  ghost predicate FreshEpochs(w: World) {
    && (forall b :: b in w.rooms ==> w.rooms[b].epoch < w.nextEpoch)
    && (forall a, b :: a in w.rooms && b in w.rooms && w.rooms[a].epoch == w.rooms[b].epoch ==> a == b)
    && (forall e :: e in w.bad ==> e < w.nextEpoch)
    && (w.m.originEpoch.Some? ==> w.m.originEpoch.value < w.nextEpoch)
  }

  /** What the pusher believes it sent, it sent to the target's present life if it has seen
      that life's epoch; it believes nothing while switched off or before any answer. */
  ghost predicate SentIsTrue(w: World) {
    && (w.m.originEpoch.None? || !w.m.enabled ==> w.m.sent == {})
    && (w.m.target.base in w.rooms && w.m.originEpoch == Some(w.rooms[w.m.target.base].epoch)
        ==> w.m.sent <= w.rooms[w.m.target.base].received)
  }

  ghost predicate CycleMakesSense(w: World) {
    Busy(w) ==>
      var c := w.cycle;
      && c.generation <= w.m.generation
      && (c.generation == w.m.generation ==> c.base == w.m.target.base && w.m.enabled)
      && (c.generation != w.m.generation ==> w.m.sent == {})
      && (forall n :: n in c.required ==> n in c.names)
      && Covered(c)
      && PutIsKnown(w, c)
  }

  /** How many names the cycle has dealt with. */
  function UpTo(c: Cycle): nat
    requires c.Cycle?
  {
    match c.phase
    case Fetching => 0
    case Walking(at) => at
    case Sending(put) => if put.Media? then c.at else |c.names|
    case Delivered(put, _) => if put.Media? then c.at else |c.names|
    case Marking(_, _) => c.at
    case Finishing => 0
  }

  ghost predicate DoneUpTo(c: Cycle, k: nat)
    requires c.Cycle?
  {
    k <= |c.names| && forall j :: 0 <= j < k && c.names[j] in c.required ==> c.names[j] in c.done
  }

  /** The file in hand is the one the walk stands at. */
  ghost predicate InHand(c: Cycle, name: string)
    requires c.Cycle?
  {
    c.at < |c.names| && name == c.names[c.at]
  }

  /** Required names already walked past have been uploaded or were known to be. */
  ghost predicate Covered(c: Cycle)
    requires c.Cycle?
  {
    && DoneUpTo(c, UpTo(c))
    && (c.phase.Sending? && c.phase.put.Media? ==> InHand(c, c.phase.put.name))
    && (c.phase.Delivered? && c.phase.sentPut.Media? ==> InHand(c, c.phase.sentPut.name))
    && (c.phase.Marking? ==> InHand(c, c.phase.name))
  }

  /** A delivered file is in the life that answered; a later life has stored no playlist. */
  ghost predicate PutIsKnown(w: World, c: Cycle)
    requires c.Cycle?
  {
    && (c.phase.Delivered? ==>
          && c.phase.epoch < w.nextEpoch
          && LaterLifeIsClean(w, c.base, c.phase.epoch)
          && (c.phase.sentPut.Media? && IsLife(w, c.base, c.phase.epoch)
              ==> c.phase.sentPut.name in w.rooms[c.base].received))
    && (c.phase.Marking? ==>
          && c.phase.epoch < w.nextEpoch
          && LaterLifeIsClean(w, c.base, c.phase.epoch)
          && (c.generation == w.m.generation ==> w.m.originEpoch == Some(c.phase.epoch))
          && (IsLife(w, c.base, c.phase.epoch) ==> c.phase.name in w.rooms[c.base].received))
  }

  predicate IsLife(w: World, base: string, epoch: nat) {
    base in w.rooms && w.rooms[base].epoch == epoch
  }

  ghost predicate LaterLifeIsClean(w: World, base: string, epoch: nat) {
    (base in w.rooms && w.rooms[base].epoch != epoch) ==>
      Count(w.bad, w.rooms[base].epoch) <= Count(w.late, w.rooms[base].epoch)
  }

  /** Everything the pusher relies on for this room has really arrived in its present life. */
  ghost predicate Aligned(w: World, b: string)
    requires b in w.rooms
  {
    && (w.m.target.base == b ==> w.m.sent <= w.rooms[b].received)
    && (Busy(w) && w.cycle.base == b && !w.cycle.phase.Finishing? ==> w.cycle.done <= w.rooms[b].received)
  }

  ghost predicate AnswerPending(w: World, b: string)
    requires b in w.rooms
  {
    Busy(w) && w.cycle.base == b && w.cycle.phase == Delivered(Playlist, w.rooms[b].epoch)
  }

  /** Answers that were lost and playlists that came late. */
  function Excused(w: World, epoch: nat): nat {
    Count(w.lost, epoch) + Count(w.late, epoch)
  }

  /** A life that has had its one exception is aligned, or its answer is still on the way. */
  ghost predicate Accounted(w: World) {
    && (forall b :: b in w.rooms ==>
          var e := w.rooms[b].epoch;
          Count(w.bad, e) <= Excused(w, e) + if Aligned(w, b) || AnswerPending(w, b) then 1 else 0)
    && forall e :: Count(w.bad, e) <= Excused(w, e) + 1
  }

  ghost predicate Inv(w: World) {
    FreshEpochs(w) && SentIsTrue(w) && CycleMakesSense(w) && Accounted(w)
  }
}

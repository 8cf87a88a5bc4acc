/** The broadcast lifecycle: Start, Stop, exit watchers and status polls interleave freely,
one critical section at a time, and only the generation counter keeps them apart. */
module Broadcast {
  import opened Text

  datatype State = Idle | Starting | Live | Stopping | Failed

  /** An error message: the Start it belongs to and whether it blames the recording permission. */
  datatype Failure = Failure(gen: nat, blamesPermission: bool)

  /** The fields under b.mu. A Start makes one encoder and at most one capture helper, so a
      process is named by the Start that made it. */
  datatype Fields = Fields(gen: nat, cmd: Option<nat>, helper: Option<nat>, state: State,
                           lastError: Option<Failure>, mac: bool, captureUp: bool)

  const FRESH := Fields(0, None, None, Idle, None, false, false)

  // ---------------------------------------------------------------- critical sections

  function StopSection(b: Fields): Fields {
    b.(gen := b.gen + 1, state := if b.cmd == None then Idle else Stopping)
  }

  /** The section in which a Start claims its generation. It is refused when the capture
      helper is missing or its pipe cannot be made. */
  function ClaimSection(b: Fields, mac: bool, refused: bool): Fields {
    b.(gen := b.gen + 1, mac := mac, captureUp := false,
       state := if refused then Failed else Starting,
       lastError := if refused then Some(Failure(b.gen + 1, false)) else None)
  }

  function FailSection(b: Fields, g: nat): Fields {
    if b.gen != g then b
    else b.(state := Failed, lastError := Some(Failure(g, false)), cmd := None, helper := None)
  }

  function HelperSection(b: Fields, t: nat, g: nat): Fields {
    if b.gen != g then b else b.(helper := Some(t))
  }

  function FormatSection(b: Fields, g: nat): Fields {
    if b.gen != g then b else b.(captureUp := true)
  }

  function PublishSection(b: Fields, t: nat, g: nat, helper: Option<nat>): Fields {
    if b.gen != g then b.(helper := if b.helper == helper then None else b.helper)
    else b.(cmd := Some(t))
  }

  function ExitSection(b: Fields, t: nat, g: nat, helper: Option<nat>): Fields {
    if b.cmd != Some(t) then b
    else if b.state == Stopping then b.(state := Idle, cmd := None, helper := None)
    else if b.gen != g then b.(cmd := None, helper := if b.helper == helper then None else b.helper)
    else b.(state := Failed, cmd := None, helper := None,
            lastError := Some(Failure(g, b.mac && !b.captureUp)))
  }

  function StatusSection(b: Fields, producing: bool): Fields {
    if b.state == Starting && producing then b.(state := Live) else b
  }

  /** The broadcaster itself, with its recovery throttles. */
  class Broadcaster {
    var gen: nat
    var cmd: Option<nat>
    var helper: Option<nat>
    var state: State
    var lastError: Option<Failure>
    var mac: bool
    var captureUp: bool
    var hasDevice: bool
    var lastAutoRestart: int
    var lastPipelineRecover: int

    ghost function Value(): Fields
      reads this
    {
      Fields(gen, cmd, helper, state, lastError, mac, captureUp)
    }

    function Throttle(): Throttles
      reads this
    {
      Throttles(lastAutoRestart, lastPipelineRecover)
    }

    constructor ()
      ensures Value() == FRESH
    {
      gen, cmd, helper, state, lastError, mac, captureUp := 0, None, None, Idle, None, false, false;
      hasDevice, lastAutoRestart, lastPipelineRecover := false, 0, 0;
    }

    method Stop()
      modifies this`gen, this`state
      ensures Value() == StopSection(old(Value()))
    {
      gen := gen + 1;
      if cmd == None && helper == None {
        state := Idle;
        return;
      }
      if cmd == None {
        state := Idle;
      } else {
        state := Stopping;
      }
    }

    method Claim(mac: bool, refused: bool) returns (myGen: nat)
      modifies this
      ensures Value() == ClaimSection(old(Value()), mac, refused) && myGen == gen && hasDevice
      ensures lastAutoRestart == old(lastAutoRestart) && lastPipelineRecover == old(lastPipelineRecover)
    {
      gen := gen + 1;
      myGen := gen;
      this.mac, hasDevice := mac, true;
      state := Starting;
      lastError := None;
      captureUp := false;
      if refused {
        state := Failed;
        lastError := Some(Failure(myGen, false));
      }
    }

    method Fail(g: nat)
      modifies this`state, this`lastError, this`cmd, this`helper
      ensures Value() == FailSection(old(Value()), g)
    {
      if gen != g {
        return;
      }
      state := Failed;
      lastError := Some(Failure(g, false));
      cmd, helper := None, None;
    }

    method PublishHelper(t: nat, g: nat) returns (ok: bool)
      modifies this`helper
      ensures Value() == HelperSection(old(Value()), t, g) && ok == (gen == g)
    {
      if gen != g {
        return false;
      }
      helper := Some(t);
      ok := true;
    }

    method FormatAnnounced(g: nat)
      modifies this`captureUp
      ensures Value() == FormatSection(old(Value()), g)
    {
      if gen == g {
        captureUp := true;
      }
    }

    method PublishEncoder(t: nat, g: nat, mine: Option<nat>) returns (ok: bool)
      modifies this`cmd, this`helper
      ensures Value() == PublishSection(old(Value()), t, g, mine) && ok == (gen == g)
    {
      if gen != g {
        if helper == mine {
          helper := None;
        }
        return false;
      }
      cmd := Some(t);
      ok := true;
    }

    method Exited(t: nat, g: nat, mine: Option<nat>)
      modifies this`state, this`lastError, this`cmd, this`helper
      ensures Value() == ExitSection(old(Value()), t, g, mine)
    {
      if cmd != Some(t) {
        return;
      }
      if state == Stopping {
        state := Idle;
        cmd, helper := None, None;
        return;
      }
      if gen != g {
        cmd := None;
        if helper == mine {
          helper := None;
        }
        return;
      }
      state := Failed;
      lastError := Some(Failure(g, mac && !captureUp));
      cmd, helper := None, None;
    }

    method Status(producing: bool)
      modifies this`state
      ensures Value() == StatusSection(old(Value()), producing)
    {
      if state == Starting && producing {
        state := Live;
      }
    }

    // -------------------------------------------------------------- recovery gates, times in seconds

    method TryAutoRestart(now: int) returns (granted: bool)
      modifies this`lastAutoRestart
      ensures granted == Grants(old(Throttle()), Ask(Rebuild, Value(), hasDevice, now))
      ensures Throttle() == Asked(old(Throttle()), Ask(Rebuild, Value(), hasDevice, now))
    {
      var live := state == Live || state == Starting;
      var throttled := now - lastAutoRestart < 15;
      if live && mac && !throttled {
        lastAutoRestart := now;
      }
      granted := !(!live || !mac || throttled);
    }

    method ShouldRecover(now: int) returns (granted: bool)
      modifies this`lastPipelineRecover
      ensures granted == Grants(old(Throttle()), Ask(Recover, Value(), hasDevice, now))
      ensures Throttle() == Asked(old(Throttle()), Ask(Recover, Value(), hasDevice, now))
    {
      if state != Live && state != Starting {
        return false;
      }
      if now - lastPipelineRecover < 90 {
        return false;
      }
      lastPipelineRecover := now;
      granted := true;
    }

    method ShouldRevive(now: int) returns (granted: bool)
      modifies this`lastPipelineRecover
      ensures granted == Grants(old(Throttle()), Ask(Revive, Value(), hasDevice, now))
      ensures Throttle() == Asked(old(Throttle()), Ask(Revive, Value(), hasDevice, now))
    {
      if state != Failed || !hasDevice {
        return false;
      }
      if now - lastPipelineRecover < 20 {
        return false;
      }
      lastPipelineRecover := now;
      granted := true;
    }
  }

  // ---------------------------------------------------------------- recovery over time

  /** When a rebuild, and when a recovery or revival, was last granted, in seconds. */
  datatype Throttles = Throttles(rebuild: int, pipeline: int)

  datatype Gate = Rebuild | Recover | Revive

  /** One request to recover, the state it found and the time. */
  datatype Ask = Ask(gate: Gate, b: Fields, hasDevice: bool, now: int)

  predicate Wanted(a: Ask) {
    match a.gate
    case Rebuild => (a.b.state == Live || a.b.state == Starting) && a.b.mac
    case Recover => a.b.state == Live || a.b.state == Starting
    case Revive => a.b.state == Failed && a.hasDevice
  }

  function Spacing(g: Gate): int {
    match g case Rebuild => 15 case Recover => 90 case Revive => 20
  }

  function LastGrant(t: Throttles, g: Gate): int {
    if g == Rebuild then t.rebuild else t.pipeline
  }

  predicate Grants(t: Throttles, a: Ask) {
    Wanted(a) && a.now - LastGrant(t, a.gate) >= Spacing(a.gate)
  }

  function Asked(t: Throttles, a: Ask): Throttles {
    if !Grants(t, a) then t else if a.gate == Rebuild then t.(rebuild := a.now) else t.(pipeline := a.now)
  }

  /** Requests in the order of a clock that does not run backwards. */
  ghost predicate AskRun(ts: seq<Throttles>, asks: seq<Ask>) {
    && |ts| == |asks| + 1
    && (forall i {:trigger asks[i]} :: 0 <= i < |asks| ==> ts[i + 1] == Asked(ts[i], asks[i]))
    && (forall i, j :: 0 <= i < j < |asks| ==> asks[i].now <= asks[j].now)
  }

  lemma {:induction false} GrantIsRemembered(ts: seq<Throttles>, asks: seq<Ask>, i: nat, j: nat, g: Gate)
    requires AskRun(ts, asks) && i < j <= |asks| && Grants(ts[i], asks[i])
    requires (asks[i].gate == Rebuild) == (g == Rebuild)
    ensures LastGrant(ts[j], g) >= asks[i].now
  {
    assert ts[j - 1 + 1] == Asked(ts[j - 1], asks[j - 1]);
    if i < j - 1 {
      GrantIsRemembered(ts, asks, i, j - 1, g);
    }
  }

  /** However often recovery is asked for, a grant keeps its gate's distance from every earlier
      one: 15 s between rebuilds, 90 s before a recovery and 20 s before a revival, whichever of
      these two came before. */
  lemma GrantsAreSpaced(ts: seq<Throttles>, asks: seq<Ask>, i: nat, j: nat)
    requires AskRun(ts, asks) && i < j < |asks| && Grants(ts[i], asks[i]) && Grants(ts[j], asks[j])
    requires (asks[i].gate == Rebuild) == (asks[j].gate == Rebuild)
    ensures asks[j].now - asks[i].now >= Spacing(asks[j].gate)
  {
    GrantIsRemembered(ts, asks, i, j, asks[j].gate);
  }

  // ---------------------------------------------------------------- the interleaving

  /** Where one Start stands. `announced` says its tap has reported a format. */
  datatype Phase =
    | Parked                                                // its Stop has run, its claim has not
    | Claimed(gen: nat, mac: bool)                          // helper being started
    | Ready(gen: nat, mac: bool, announced: bool)           // encoder being started
    | Published(gen: nat, mac: bool, announced: bool)       // watcher not running yet
    | Watching(gen: nat, mac: bool, announced: bool)
    | Over

  datatype World = World(b: Fields, starts: seq<Phase>)

  datatype Event =
    | StopCalled
    | StartCalled                                   // a Start, at its leading Stop
    | ClaimEvent(t: nat, mac: bool, refused: bool)
    | HelperFails(t: nat)
    | HelperRuns(t: nat)
    | FormatArrives(t: nat)
    | EncoderFails(t: nat)
    | EncoderRuns(t: nat)
    | WatcherRuns(t: nat)
    | EncoderExits(t: nat)
    | StatusPolled(producing: bool)

  predicate HasGen(p: Phase) {
    !p.Parked? && !p.Over?
  }

  function Mine(t: nat, p: Phase): Option<nat>
    requires HasGen(p)
  {
    if p.mac then Some(t) else None
  }

  /** Which events can happen: the phase of the Start concerned, never the shared fields. */
  predicate Enabled(w: World, e: Event) {
    match e
    case StopCalled => true
    case StartCalled => true
    case StatusPolled(_) => true
    case ClaimEvent(t, mac, refused) => t < |w.starts| && w.starts[t] == Parked && (refused ==> mac)
    case HelperFails(t) => t < |w.starts| && w.starts[t].Claimed? && w.starts[t].mac
    case HelperRuns(t) => t < |w.starts| && w.starts[t].Claimed?
    case FormatArrives(t) =>
      && t < |w.starts| && (w.starts[t].Ready? || w.starts[t].Published? || w.starts[t].Watching?)
      && w.starts[t].mac
    case EncoderFails(t) => t < |w.starts| && w.starts[t].Ready?
    case EncoderRuns(t) => t < |w.starts| && w.starts[t].Ready?
    case WatcherRuns(t) => t < |w.starts| && w.starts[t].Published?
    case EncoderExits(t) => t < |w.starts| && w.starts[t].Watching?
  }

  function Next(w: World, e: Event): World
    requires Enabled(w, e)
  {
    match e
    case StopCalled => w.(b := StopSection(w.b))
    case StartCalled => World(StopSection(w.b), w.starts + [Parked])
    case StatusPolled(producing) => w.(b := StatusSection(w.b, producing))
    case ClaimEvent(t, mac, refused) =>
      World(ClaimSection(w.b, mac, refused), w.starts[t := if refused then Over else Claimed(w.b.gen + 1, mac)])
    case HelperFails(t) => World(FailSection(w.b, w.starts[t].gen), w.starts[t := Over])
    case HelperRuns(t) =>
      var p := w.starts[t];
      if !p.mac then w.(starts := w.starts[t := Ready(p.gen, false, false)])
      else
        World(HelperSection(w.b, t, p.gen),
              w.starts[t := if w.b.gen != p.gen then Over else Ready(p.gen, true, false)])
    case FormatArrives(t) =>
      World(FormatSection(w.b, w.starts[t].gen), w.starts[t := w.starts[t].(announced := true)])
    case EncoderFails(t) => World(FailSection(w.b, w.starts[t].gen), w.starts[t := Over])
    case EncoderRuns(t) =>
      var p := w.starts[t];
      World(PublishSection(w.b, t, p.gen, Mine(t, p)),
            w.starts[t := if w.b.gen != p.gen then Over else Published(p.gen, p.mac, p.announced)])
    case WatcherRuns(t) =>
      var p := w.starts[t];
      w.(starts := w.starts[t := Watching(p.gen, p.mac, p.announced)])
    case EncoderExits(t) =>
      var p := w.starts[t];
      World(ExitSection(w.b, t, p.gen, Mine(t, p)), w.starts[t := Over])
  }

  ghost predicate Step(w: World, e: Event, next: World) {
    Enabled(w, e) && next == Next(w, e)
  }

  ghost predicate Run(ws: seq<World>, es: seq<Event>) {
    && |ws| == |es| + 1 && ws[0] == World(FRESH, [])
    && forall i {:trigger es[i]} :: 0 <= i < |es| ==> Step(ws[i], es[i], ws[i + 1])
  }

  // ---------------------------------------------------------------- what every step keeps

  /** The current generation's Start, if it is still at work, and nobody else, may publish. */
  ghost predicate GensApart(w: World) {
    && (forall t :: 0 <= t < |w.starts| && HasGen(w.starts[t]) ==> w.starts[t].gen <= w.b.gen)
    && (forall t, u :: 0 <= t < u < |w.starts| && HasGen(w.starts[t]) && HasGen(w.starts[u]) ==>
                         w.starts[t].gen != w.starts[u].gen)
  }

  predicate Quiet(s: State) {
    s == Idle || s == Stopping || s == Failed
  }

  /** Once stopped or failed, no Start of the current generation is left. */
  ghost predicate NoneCurrent(w: World) {
    Quiet(w.b.state) ==> forall t :: 0 <= t < |w.starts| && HasGen(w.starts[t]) ==> w.starts[t].gen != w.b.gen
  }

  /** b.cmd belongs to a Start whose watcher runs or is about to. */
  predicate HasWatcher(w: World, t: nat) {
    t < |w.starts| && (w.starts[t].Published? || w.starts[t].Watching?)
  }

  ghost predicate CmdWatched(w: World) {
    && (w.b.cmd.Some? ==> HasWatcher(w, w.b.cmd.value))
    && (w.b.state == Stopping ==> w.b.cmd.Some?)
  }

  ghost predicate ErrorOwned(w: World) {
    && (w.b.state == Failed ==> w.b.lastError.Some?)
    && (w.b.lastError.Some? && !(w.b.state == Idle || w.b.state == Stopping) ==> w.b.lastError.value.gen == w.b.gen)
  }

  predicate Announced(p: Phase) {
    (p.Ready? || p.Published? || p.Watching?) && p.announced
  }

  ghost predicate CaptureTrue(w: World) {
    forall t :: 0 <= t < |w.starts| && HasGen(w.starts[t]) && w.starts[t].gen == w.b.gen
                ==> w.b.captureUp == Announced(w.starts[t]) && w.b.mac == w.starts[t].mac
  }

  ghost predicate Inv(w: World) {
    GensApart(w) && NoneCurrent(w) && CmdWatched(w) && ErrorOwned(w) && CaptureTrue(w)
  }

  /** An event gives at most one Start a generation, and then a new one. */
  lemma GensComeFrom(w: World, e: Event, t: nat)
    requires Enabled(w, e) && t < |Next(w, e).starts| && HasGen(Next(w, e).starts[t])
    ensures if e.ClaimEvent? && e.t == t then Next(w, e).starts[t].gen == w.b.gen + 1
            else t < |w.starts| && HasGen(w.starts[t]) && w.starts[t].gen == Next(w, e).starts[t].gen
  {
  }

  lemma KeepsGensApart(w: World, e: Event)
    requires Inv(w) && Enabled(w, e)
    ensures GensApart(Next(w, e))
  {
    var next := Next(w, e);
    forall t | 0 <= t < |next.starts| && HasGen(next.starts[t]) ensures next.starts[t].gen <= next.b.gen {
      GensComeFrom(w, e, t);
    }
    forall t, u | 0 <= t < u < |next.starts| && HasGen(next.starts[t]) && HasGen(next.starts[u])
      ensures next.starts[t].gen != next.starts[u].gen
    {
      GensComeFrom(w, e, t);
      GensComeFrom(w, e, u);
    }
  }

  lemma KeepsNoneCurrent(w: World, e: Event)
    requires Inv(w) && Enabled(w, e)
    ensures NoneCurrent(Next(w, e))
  {
  }

  lemma KeepsCmdWatched(w: World, e: Event)
    requires Inv(w) && Enabled(w, e)
    ensures CmdWatched(Next(w, e))
  {
  }

  lemma KeepsErrorOwned(w: World, e: Event)
    requires Inv(w) && Enabled(w, e)
    ensures ErrorOwned(Next(w, e))
  {
  }

  lemma KeepsCaptureTrue(w: World, e: Event)
    requires Inv(w) && Enabled(w, e)
    ensures CaptureTrue(Next(w, e))
  {
  }

  lemma StepKeepsInv(w: World, e: Event)
    requires Inv(w) && Enabled(w, e)
    ensures Inv(Next(w, e))
  {
    KeepsGensApart(w, e);
    KeepsNoneCurrent(w, e);
    KeepsCmdWatched(w, e);
    KeepsErrorOwned(w, e);
    KeepsCaptureTrue(w, e);
  }

  lemma {:induction false} RunKeepsInv(ws: seq<World>, es: seq<Event>, i: nat)
    requires Run(ws, es) && i <= |es|
    ensures Inv(ws[i])
  {
    if i > 0 {
      RunKeepsInv(ws, es, i - 1);
      assert Step(ws[i - 1], es[i - 1], ws[i - 1 + 1]);
      StepKeepsInv(ws[i - 1], es[i - 1]);
    }
  }

  // ---------------------------------------------------------------- generations count Starts and Stops

  /** The events that supersede: every Stop section and every claim. */
  predicate Supersedes(e: Event) {
    e.StopCalled? || e.StartCalled? || e.ClaimEvent?
  }

  lemma {:induction false} GenCounts(ws: seq<World>, es: seq<Event>, i: nat, j: nat)
    requires Run(ws, es) && i <= j <= |es|
    ensures ws[i].b.gen <= ws[j].b.gen
    ensures ws[i].b.gen == ws[j].b.gen <==> forall k :: i <= k < j ==> !Supersedes(es[k])
  {
    if i < j {
      GenCounts(ws, es, i, j - 1);
      assert Step(ws[j - 1], es[j - 1], ws[j - 1 + 1]);
    }
  }

  /** A Start keeps the generation it claimed for as long as it lasts. */
  lemma {:induction false} KeepsItsGen(ws: seq<World>, es: seq<Event>, i: nat, j: nat, t: nat)
    requires Run(ws, es) && i < j <= |es| && es[i].ClaimEvent? && es[i].t == t
    requires t < |ws[j].starts| && HasGen(ws[j].starts[t])
    ensures ws[j].starts[t].gen == ws[i + 1].b.gen
  {
    assert Step(ws[i], es[i], ws[i + 1]);
    if i + 1 < j {
      assert Step(ws[j - 1], es[j - 1], ws[j - 1 + 1]);
      StartsGrow(ws, es, i + 1, j - 1);
      StaysClaimed(ws, es, i + 1, j - 1, t);
      KeepsItsGen(ws, es, i, j - 1, t);
    }
  }

  lemma {:induction false} StartsGrow(ws: seq<World>, es: seq<Event>, i: nat, j: nat)
    requires Run(ws, es) && i <= j <= |es|
    ensures |ws[i].starts| <= |ws[j].starts|
  {
    if i < j {
      StartsGrow(ws, es, i, j - 1);
      assert Step(ws[j - 1], es[j - 1], ws[j - 1 + 1]);
    }
  }

  lemma {:induction false} StaysClaimed(ws: seq<World>, es: seq<Event>, i: nat, j: nat, t: nat)
    requires Run(ws, es) && i <= j <= |es| && t < |ws[i].starts| && ws[i].starts[t] != Parked
    ensures t < |ws[j].starts| && ws[j].starts[t] != Parked
  {
    if i < j {
      StaysClaimed(ws, es, i, j - 1, t);
      assert Step(ws[j - 1], es[j - 1], ws[j - 1 + 1]);
    }
  }

  // ---------------------------------------------------------------- the three promises

  /** What Start `t` itself does after its claim. */
  predicate Of(e: Event, t: nat) {
    match e
    case HelperFails(u) => u == t
    case HelperRuns(u) => u == t
    case FormatArrives(u) => u == t
    case EncoderFails(u) => u == t
    case EncoderRuns(u) => u == t
    case WatcherRuns(u) => u == t
    case EncoderExits(u) => u == t
    case _ => false
  }

  /** Once any Stop or Start has run after its claim, a Start publishes no process, records no
      error and changes the state only to report that a stopping encoder is gone. */
  lemma SupersededPublishesNothing(ws: seq<World>, es: seq<Event>, i: nat, k: nat, j: nat, t: nat)
    requires Run(ws, es) && i < k < j < |es|
    requires es[i].ClaimEvent? && es[i].t == t && Supersedes(es[k]) && Of(es[j], t)
    ensures var b, next := ws[j].b, ws[j + 1].b;
            && next.lastError == b.lastError && next.gen == b.gen && next.captureUp == b.captureUp
            && (next.cmd == b.cmd || (es[j].EncoderExits? && b.cmd == Some(t) && next.cmd == None))
            && (next.helper == b.helper || next.helper == None)
            && (next.state == b.state
                || (es[j].EncoderExits? && b.state == Stopping && next.state == Idle && next.cmd == None))
  {
    assert Step(ws[j], es[j], ws[j + 1]);
    KeepsItsGen(ws, es, i, j, t);
    GenCounts(ws, es, i + 1, j);
  }

  /** An error on display is the newest Start's own: no Start or Stop has happened since
      that Start claimed its generation. */
  lemma {:induction false} ErrorIsCurrent(ws: seq<World>, es: seq<Event>, j: nat) returns (i: nat)
    requires Run(ws, es) && j <= |es| && ws[j].b.state == Failed
    ensures i < j && es[i].ClaimEvent?
    ensures forall k :: i < k < j ==> !Supersedes(es[k])
    ensures ws[j].b.lastError.Some? && ws[j].b.lastError.value.gen == ws[i + 1].b.gen
  {
    RunKeepsInv(ws, es, j);
    i := LastBump(ws, es, j);
    GenCounts(ws, es, i + 1, j);
    assert Step(ws[i], es[i], ws[i + 1]);
    if !es[i].ClaimEvent? {
      QuietUntilClaim(ws, es, i + 1, j);
    }
  }

  /** The event that made the generation what it is. */
  lemma {:induction false} LastBump(ws: seq<World>, es: seq<Event>, j: nat) returns (i: nat)
    requires Run(ws, es) && j <= |es| && ws[j].b.state != Idle
    ensures i < j && Supersedes(es[i])
    ensures forall k :: i < k < j ==> !Supersedes(es[k])
  {
    assert j > 0;
    assert Step(ws[j - 1], es[j - 1], ws[j - 1 + 1]);
    if Supersedes(es[j - 1]) {
      i := j - 1;
    } else {
      RunKeepsInv(ws, es, j - 1);
      i := LastBump(ws, es, j - 1);
    }
  }

  /** After a Stop, and until some Start claims, the broadcaster is idle or stopping: nothing
      revives a broadcast its DJ ended. */
  lemma {:induction false} QuietUntilClaim(ws: seq<World>, es: seq<Event>, i: nat, j: nat)
    requires Run(ws, es) && i <= j <= |es| && (ws[i].b.state == Idle || ws[i].b.state == Stopping)
    requires forall k :: i <= k < j ==> !es[k].ClaimEvent?
    ensures ws[j].b.state == Idle || ws[j].b.state == Stopping
    ensures forall g, hasDevice, now :: !Wanted(Ask(g, ws[j].b, hasDevice, now))
  {
    if i < j {
      QuietUntilClaim(ws, es, i, j - 1);
      RunKeepsInv(ws, es, j - 1);
      assert Step(ws[j - 1], es[j - 1], ws[j - 1 + 1]);
    }
  }

  /** Stopping always has an encoder whose watcher will turn the state idle: until a new
      Start claims, the state stays stopping with that encoder exactly as long as its exit
      has not been seen. */
  lemma {:induction false} StoppingEndsIdle(ws: seq<World>, es: seq<Event>, i: nat, j: nat) returns (t: nat)
    requires Run(ws, es) && i <= j <= |es| && ws[i].b.state == Stopping
    requires forall k :: i <= k < j ==> !es[k].ClaimEvent?
    ensures ws[i].b.cmd == Some(t) && HasWatcher(ws[i], t)
    ensures if exists k :: i <= k < j && es[k] == EncoderExits(t)
            then ws[j].b.state == Idle && ws[j].b.cmd == None
            else ws[j].b.state == Stopping && ws[j].b.cmd == Some(t) && HasWatcher(ws[j], t)
  {
    RunKeepsInv(ws, es, i);
    t := ws[i].b.cmd.value;
    if i < j {
      var u := StoppingEndsIdle(ws, es, i, j - 1);
      RunKeepsInv(ws, es, j - 1);
      assert Step(ws[j - 1], es[j - 1], ws[j - 1 + 1]);
      if exists k :: i <= k < j - 1 && es[k] == EncoderExits(t) {
        IdleStays(ws[j - 1], es[j - 1]);
      } else {
        StoppingStep(ws[j - 1], es[j - 1], t);
      }
    }
  }

  lemma StoppingStep(w: World, e: Event, t: nat)
    requires Inv(w) && Enabled(w, e) && !e.ClaimEvent?
    requires w.b.state == Stopping && w.b.cmd == Some(t) && HasWatcher(w, t)
    ensures var next := Next(w, e);
            if e == EncoderExits(t) then next.b.state == Idle && next.b.cmd == None
            else next.b.state == Stopping && next.b.cmd == Some(t) && HasWatcher(next, t)
  {
  }

  lemma IdleStays(w: World, e: Event)
    requires Inv(w) && Enabled(w, e) && !e.ClaimEvent? && w.b.state == Idle && w.b.cmd == None
    ensures Next(w, e).b.state == Idle && Next(w, e).b.cmd == None
  {
  }

  /** A crash is blamed on the recording permission exactly when the tap never came up. */
  lemma BlameIsRight(ws: seq<World>, es: seq<Event>, i: nat, t: nat)
    requires Run(ws, es) && i < |es| && es[i] == EncoderExits(t)
    requires ws[i].b.state != Failed && ws[i + 1].b.state == Failed
    ensures var p := ws[i].starts[t];
            ws[i + 1].b.lastError == Some(Failure(p.gen, p.mac && !p.announced))
  {
    RunKeepsInv(ws, es, i);
    assert Step(ws[i], es[i], ws[i + 1]);
  }

  // ---------------------------------------------------------------- nothing runs unheld

  /** Start t's encoder runs, and no Stop or Start has come after it. */
  predicate RunsCurrent(w: World, t: nat) {
    HasWatcher(w, t) && w.starts[t].gen == w.b.gen
  }

  ghost predicate EncodersHeld(w: World) {
    forall t :: 0 <= t < |w.starts| && RunsCurrent(w, t) ==> w.b.cmd == Some(t)
  }

  /** The same of a capture helper, which runs from before its encoder on. */
  predicate CapturesCurrent(w: World, t: nat) {
    && t < |w.starts| && (w.starts[t].Ready? || HasWatcher(w, t))
    && w.starts[t].mac && w.starts[t].gen == w.b.gen
  }

  ghost predicate HelpersHeld(w: World) {
    forall t :: 0 <= t < |w.starts| && CapturesCurrent(w, t) ==> w.b.helper == Some(t)
  }

  lemma KeepsEncodersHeld(w: World, e: Event)
    requires Inv(w) && Enabled(w, e) && EncodersHeld(w)
    ensures EncodersHeld(Next(w, e))
  {
    var next := Next(w, e);
    forall t | 0 <= t < |next.starts| && RunsCurrent(next, t) ensures next.b.cmd == Some(t) {
      GensComeFrom(w, e, t);
    }
  }

  lemma KeepsHelpersHeld(w: World, e: Event)
    requires Inv(w) && Enabled(w, e) && HelpersHeld(w)
    ensures HelpersHeld(Next(w, e))
  {
    var next := Next(w, e);
    forall t | 0 <= t < |next.starts| && CapturesCurrent(next, t) ensures next.b.helper == Some(t) {
      GensComeFrom(w, e, t);
    }
  }

  /** In every interleaving the processes of the newest Start are the ones the broadcaster
      holds, so that a Stop can reach them. */
  lemma {:induction false} ProcessesAreHeld(ws: seq<World>, es: seq<Event>, i: nat)
    requires Run(ws, es) && i <= |es|
    ensures EncodersHeld(ws[i]) && HelpersHeld(ws[i])
  {
    if i > 0 {
      ProcessesAreHeld(ws, es, i - 1);
      RunKeepsInv(ws, es, i - 1);
      assert Step(ws[i - 1], es[i - 1], ws[i - 1 + 1]);
      KeepsEncodersHeld(ws[i - 1], es[i - 1]);
      KeepsHelpersHeld(ws[i - 1], es[i - 1]);
    }
  }

  /** An encoder published in time stays the current one until it exits or is superseded. */
  lemma {:induction false} PublishedStays(ws: seq<World>, es: seq<Event>, i: nat, j: nat, t: nat)
    requires Run(ws, es) && i < j <= |es| && es[i] == EncoderRuns(t)
    requires t < |ws[i].starts| && HasGen(ws[i].starts[t]) && ws[i].starts[t].gen == ws[i].b.gen
    requires forall k :: i < k < j ==> !Supersedes(es[k]) && es[k] != EncoderExits(t)
    ensures RunsCurrent(ws[j], t) && (ws[j].b.state == Starting || ws[j].b.state == Live)
  {
    RunKeepsInv(ws, es, j);
    assert Step(ws[j - 1], es[j - 1], ws[j - 1 + 1]);
    if i + 1 < j {
      PublishedStays(ws, es, i, j - 1, t);
    }
  }

  /** A Stop, or the one a new Start begins with, finds the encoder of the Start before it: the
      state turns stopping and the encoder is held until it exits. */
  lemma StopReachesTheEncoder(ws: seq<World>, es: seq<Event>, i: nat, j: nat, t: nat)
    requires Run(ws, es) && i < j < |es| && es[i] == EncoderRuns(t) && (es[j].StopCalled? || es[j].StartCalled?)
    requires t < |ws[i].starts| && HasGen(ws[i].starts[t]) && ws[i].starts[t].gen == ws[i].b.gen
    requires forall k :: i < k < j ==> !Supersedes(es[k]) && es[k] != EncoderExits(t)
    ensures ws[j + 1].b.state == Stopping && ws[j + 1].b.cmd == Some(t)
    ensures ws[i].starts[t].mac ==> ws[j + 1].b.helper == Some(t)
  {
    PublishedStays(ws, es, i, j, t);
    PublishedIsMac(ws, es, i, j, t);
    ProcessesAreHeld(ws, es, j);
    assert Step(ws[j], es[j], ws[j + 1]);
    assert RunsCurrent(ws[j], t);
    assert ws[i].starts[t].mac ==> CapturesCurrent(ws[j], t);
  }

  lemma {:induction false} PublishedIsMac(ws: seq<World>, es: seq<Event>, i: nat, j: nat, t: nat)
    requires Run(ws, es) && i < j <= |es| && es[i] == EncoderRuns(t)
    requires t < |ws[i].starts| && HasGen(ws[i].starts[t]) && ws[i].starts[t].gen == ws[i].b.gen
    requires forall k :: i < k < j ==> !Supersedes(es[k]) && es[k] != EncoderExits(t)
    ensures t < |ws[j].starts| && HasWatcher(ws[j], t) && ws[j].starts[t].mac == ws[i].starts[t].mac
  {
    assert Step(ws[j - 1], es[j - 1], ws[j - 1 + 1]);
    if i + 1 < j {
      PublishedIsMac(ws, es, i, j - 1, t);
    }
  }

  /** Without one, or once it has exited, a Stop is idle at once and there is nothing to wait for. */
  lemma StopIsIdleOnlyUnheld(ws: seq<World>, es: seq<Event>, j: nat, t: nat)
    requires Run(ws, es) && j < |es| && es[j].StopCalled? && ws[j + 1].b.state == Idle
    ensures !RunsCurrent(ws[j], t)
  {
    ProcessesAreHeld(ws, es, j);
    assert Step(ws[j], es[j], ws[j + 1]);
  }

  // ---------------------------------------------------------------- what the DJ is shown

  /** Whatever fails of the newest Start is shown: its helper, its encoder, or a crash later. */
  lemma FailureIsShown(ws: seq<World>, es: seq<Event>, i: nat, t: nat)
    requires Run(ws, es) && i < |es| && es[i] in {HelperFails(t), EncoderFails(t), EncoderExits(t)}
    requires t < |ws[i].starts| && HasGen(ws[i].starts[t]) && ws[i].starts[t].gen == ws[i].b.gen
    ensures ws[i + 1].b.state == Failed && ws[i + 1].b.cmd == None && ws[i + 1].b.helper == None
    ensures ws[i + 1].b.lastError.Some? && ws[i + 1].b.lastError.value.gen == ws[i].b.gen
  {
    RunKeepsInv(ws, es, i);
    ProcessesAreHeld(ws, es, i);
    assert Step(ws[i], es[i], ws[i + 1]);
    assert es[i].EncoderExits? ==> RunsCurrent(ws[i], t);
  }

  /** While the newest Start is at work the state is starting, or live once output has flowed. */
  lemma AtWorkIsShown(ws: seq<World>, es: seq<Event>, i: nat, t: nat)
    requires Run(ws, es) && i <= |es|
    requires t < |ws[i].starts| && HasGen(ws[i].starts[t]) && ws[i].starts[t].gen == ws[i].b.gen
    ensures ws[i].b.state == Starting || ws[i].b.state == Live
    ensures i < |es| && es[i] == StatusPolled(true) ==> ws[i + 1].b.state == Live
  {
    RunKeepsInv(ws, es, i);
    if i < |es| {
      assert Step(ws[i], es[i], ws[i + 1]);
    }
  }

  /** Live means that output was seen to flow since the newest Start claimed. */
  lemma {:induction false} LiveHasFlowed(ws: seq<World>, es: seq<Event>, j: nat) returns (i: nat)
    requires Run(ws, es) && j <= |es| && ws[j].b.state == Live
    ensures i < j && es[i] == StatusPolled(true) && forall k :: i < k < j ==> !Supersedes(es[k])
  {
    assert j > 0;
    assert Step(ws[j - 1], es[j - 1], ws[j - 1 + 1]);
    if ws[j - 1].b.state == Live {
      i := LiveHasFlowed(ws, es, j - 1);
    } else {
      i := j - 1;
    }
  }
}

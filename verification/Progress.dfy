/** The push cycle gets through: as long as nothing it needs fails, it sends its playlist,
whatever becomes of the files it can do without. */
module Progress {
  import opened Text
  import opened Readers
  import opened Contribution
  import opened ContributionSafety

  /** The name the walk stands at. */
  function Standing(w: World): string
    requires Busy(w) && w.cycle.phase.Walking? && w.cycle.phase.at < |w.cycle.names|
  {
    w.cycle.names[w.cycle.phase.at]
  }

  /** An event of the cycle's own that goes well: a required file can be read, an optional one may
      be missing, and every PUT that is sent arrives and is answered ok. */
  predicate GoesWell(w: World, e: Event)
    requires Enabled(w, e)
  {
    match e
    case Walk(fetchOk) => Standing(w) in w.cycle.required && Standing(w) !in w.m.sent ==> fetchOk
    case SendExtra(_) => true
    case SendPlaylist => true
    case Deliver => true
    case Respond(ok) => ok
    case Mark => true
    case MarkPage => true
    case MarkAssets(_) => true
    case _ => false
  }

  /** Something outside the cycle that leaves its generation current. */
  predicate LeavesCurrent(w: World, e: Event)
    requires Enabled(w, e)
  {
    Outside(e) && Step(w, e).m.generation == w.m.generation
  }

  // ---------------------------------------------------------------- it never gives up

  /** The cycle that fetched `names` is still at it. */
  ghost predicate AtWork(w: World, g: nat, names: seq<string>) {
    && Busy(w) && w.cycle.generation == g == w.m.generation && w.cycle.names == names
    && !w.cycle.phase.Fetching? && !w.cycle.phase.Finishing?
    && (w.cycle.phase.Walking? ==> w.cycle.phase.at <= |names|)
    && (w.cycle.phase.Sending? && w.cycle.phase.put.Media? ==> w.cycle.at < |names|)
    && (w.cycle.phase.Delivered? && w.cycle.phase.sentPut.Media? ==> w.cycle.at < |names|)
    && (w.cycle.phase.Marking? ==> w.cycle.at < |names|)
  }

  /** The events still to come before the playlist's own answer. */
  function Rank(w: World): nat
    requires Busy(w)
  {
    var c, n := w.cycle, |w.cycle.names|;
    match c.phase
    case Fetching => 4 * n + 5
    case Walking(at) => if at <= n then 4 * (n - at) + 4 else 4
    case Sending(put) =>
      (match put case Media(_) => if c.at < n then 4 * (n - c.at) + 3 else 7 case Extra(_) => 6 case Playlist => 3)
    case Delivered(put, _) =>
      (match put case Media(_) => if c.at < n then 4 * (n - c.at) + 2 else 6 case Extra(_) => 5 case Playlist => 2)
    case Marking(_, _) => if c.at < n then 4 * (n - c.at) + 1 else 5
    case Finishing => 1
  }

  /** Page and asset marks are bookkeeping; an extra file costs two events beyond its own. */
  function Gain(e: Event): int {
    match e
    case SendExtra(_) => -2
    case MarkPage => 0
    case MarkAssets(_) => 0
    case _ => if Outside(e) then 0 else 1
  }

  /** The playlist has been stored. */
  predicate StoresPlaylist(w: World, e: Event) {
    e == Deliver && Busy(w) && w.cycle.phase == Sending(Playlist)
  }

  /** The playlist's answer is not on its way yet. */
  predicate Unsent(w: World) {
    Busy(w) && !(w.cycle.phase.Delivered? && w.cycle.phase.sentPut.Playlist?)
  }

  lemma WellStaysAtWork(w: World, e: Event, g: nat, names: seq<string>)
    requires AtWork(w, g, names) && Enabled(w, e) && GoesWell(w, e) && !StoresPlaylist(w, e)
    requires Unsent(w)
    ensures AtWork(Step(w, e), g, names) && Unsent(Step(w, e))
  {
  }

  /** One event: nothing that goes well ends the cycle, and each brings the playlist nearer. */
  lemma WellBringsNearer(w: World, e: Event, g: nat, names: seq<string>)
    requires AtWork(w, g, names) && Enabled(w, e) && GoesWell(w, e) && !StoresPlaylist(w, e)
    requires Unsent(w)
    ensures AtWork(Step(w, e), g, names) && Unsent(Step(w, e))
    ensures Rank(Step(w, e)) <= Rank(w) - Gain(e)
  {
    WellStaysAtWork(w, e, g, names);
  }

  lemma OutsideChangesNothing(w: World, e: Event, g: nat, names: seq<string>)
    requires AtWork(w, g, names) && Enabled(w, e) && LeavesCurrent(w, e)
    ensures AtWork(Step(w, e), g, names) && Step(w, e).cycle == w.cycle
  {
  }

  /** There is always a next event that goes well. */
  lemma NeverStuck(w: World, g: nat, names: seq<string>) returns (e: Event)
    requires AtWork(w, g, names)
    ensures Enabled(w, e) && GoesWell(w, e) && Gain(e) == 1
  {
    match w.cycle.phase
    case Walking(at) => e := if at < |names| then Walk(true) else SendPlaylist;
    case Sending(_) => e := Deliver;
    case Delivered(_, _) => e := Respond(true);
    case Marking(_, _) => e := Mark;
  }

  // ---------------------------------------------------------------- over a run

  /** An event of a run in which nothing goes wrong and which is not the one awaited. */
  ghost predicate Smooth(w: World, e: Event, next: World) {
    && Enabled(w, e) && next == Step(w, e)
    && (GoesWell(w, e) || LeavesCurrent(w, e))
    && !StoresPlaylist(w, e)
  }

  /** The cycle is at work on `names`, its playlist not stored, and at most `bound` away from it. */
  ghost predicate Nearing(w: World, g: nat, names: seq<string>, bound: int) {
    AtWork(w, g, names) && Unsent(w) && Rank(w) <= bound
  }

  lemma SmoothStep(w: World, e: Event, next: World, g: nat, names: seq<string>, bound: int)
    requires Smooth(w, e, next) && Nearing(w, g, names, bound)
    ensures Nearing(next, g, names, bound - Gain(e))
  {
    if GoesWell(w, e) {
      WellBringsNearer(w, e, g, names);
    } else {
      OutsideChangesNothing(w, e, g, names);
    }
  }

  function Gained(es: seq<Event>, i: nat, j: nat): int
    requires i <= j <= |es|
  {
    if i == j then 0 else Gained(es, i, j - 1) + Gain(es[j - 1])
  }

  ghost predicate SmoothFrom(ws: seq<World>, es: seq<Event>, i: nat, j: nat)
    requires j <= |es| && j < |ws|
  {
    forall k {:trigger Smooth(ws[k], es[k], ws[k + 1])} :: i <= k < j ==> Smooth(ws[k], es[k], ws[k + 1])
  }

  lemma SmoothLast(ws: seq<World>, es: seq<Event>, i: nat, n: nat)
    requires i <= n < |es| && n + 1 < |ws| && SmoothFrom(ws, es, i, n + 1)
    ensures SmoothFrom(ws, es, i, n) && Smooth(ws[n], es[n], ws[n + 1])
  {
  }

  /** Until the playlist is stored the cycle is at work, and nearer by every event of its own. */
  lemma {:induction false} NearerAndNearer(
      ws: seq<World>, es: seq<Event>, i: nat, j: nat, g: nat, names: seq<string>, bound: int)
    requires i <= j <= |es| && j < |ws| && SmoothFrom(ws, es, i, j) && Nearing(ws[i], g, names, bound)
    ensures Nearing(ws[j], g, names, bound - Gained(es, i, j))
  {
    if i < j {
      var n := j - 1;
      SmoothLast(ws, es, i, n);
      NearerAndNearer(ws, es, i, n, g, names, bound);
      SmoothStep(ws[n], es[n], ws[n + 1], g, names, bound - Gained(es, i, n));
    }
  }

  // ---------------------------------------------------------------- in every run

  ghost predicate Well(w: World, e: Event) {
    Enabled(w, e) && (GoesWell(w, e) || LeavesCurrent(w, e))
  }

  /** From state i to state j nothing goes wrong. */
  ghost predicate WellFrom(ws: seq<World>, es: seq<Event>, i: nat, j: nat)
    requires j <= |es| && j < |ws|
  {
    forall k {:trigger Well(ws[k], es[k])} :: i <= k < j ==> Well(ws[k], es[k])
  }

  ghost predicate UnsentFrom(ws: seq<World>, es: seq<Event>, i: nat, j: nat)
    requires j <= |es| && j < |ws|
  {
    forall k {:trigger StoresPlaylist(ws[k], es[k])} :: i <= k < j ==> !StoresPlaylist(ws[k], es[k])
  }

  lemma SmoothAt(ws: seq<World>, es: seq<Event>, k: nat)
    requires Run(ws, es) && k < |es| && Well(ws[k], es[k]) && !StoresPlaylist(ws[k], es[k])
    ensures Smooth(ws[k], es[k], ws[k + 1])
  {
    StepAt(ws, es, k);
  }

  lemma SmoothRun(ws: seq<World>, es: seq<Event>, i: nat, j: nat)
    requires Run(ws, es) && i <= j <= |es| && WellFrom(ws, es, i, j) && UnsentFrom(ws, es, i, j)
    ensures SmoothFrom(ws, es, i, j)
  {
    forall k {:trigger Smooth(ws[k], es[k], ws[k + 1])} | i <= k < j ensures Smooth(ws[k], es[k], ws[k + 1]) {
      assert Well(ws[k], es[k]) && !StoresPlaylist(ws[k], es[k]);
      SmoothAt(ws, es, k);
    }
  }

  lemma FirstStored(ws: seq<World>, es: seq<Event>, i: nat, j: nat) returns (k: nat)
    requires i <= j <= |es| && j < |ws| && !UnsentFrom(ws, es, i, j)
    ensures i <= k < j && StoresPlaylist(ws[k], es[k]) && UnsentFrom(ws, es, i, k)
  {
    k := i;
    while !StoresPlaylist(ws[k], es[k])
      invariant i <= k < j && UnsentFrom(ws, es, i, k) && !UnsentFrom(ws, es, k, j)
      decreases j - k
    {
      k := k + 1;
    }
  }

  /** A cycle whose required files can be read and whose PUTs are answered stores the playlist of
      the names it set out with, whatever optional files are missing and whatever the origin
      forgets meanwhile: at the latest when its events, extra files aside, come to four for each
      name and two more. */
  lemma PlaylistIsStored(ws: seq<World>, es: seq<Event>, i: nat, j: nat, g: nat, names: seq<string>) returns (k: nat)
    requires Run(ws, es) && i <= j <= |es| && WellFrom(ws, es, i, j)
    requires AtWork(ws[i], g, names) && ws[i].cycle.phase == Walking(0)
    requires Gained(es, i, j) >= 4 * |names| + 2
    ensures i <= k < j && StoresPlaylist(ws[k], es[k])
    ensures AtWork(ws[k], g, names)
  {
    if UnsentFrom(ws, es, i, j) {
      SmoothRun(ws, es, i, j);
      NearerAndNearer(ws, es, i, j, g, names, Rank(ws[i]));
      UnsentRank(ws[j]);
    }
    k := FirstStored(ws, es, i, j);
    SmoothRun(ws, es, i, k);
    NearerAndNearer(ws, es, i, k, g, names, Rank(ws[i]));
  }

  lemma UnsentRank(w: World)
    requires Unsent(w) && !w.cycle.phase.Finishing?
    ensures Rank(w) >= 3
  {
  }

  // ---------------------------------------------------------------- no work twice

  lemma SentIsPassed(w: World, fetchOk: bool)
    requires Enabled(w, Walk(fetchOk)) && Current(w) && Standing(w) in w.m.sent
    ensures var c := Step(w, Walk(fetchOk)).cycle; c.Cycle? && c.phase == Walking(w.cycle.phase.at + 1)
  {
  }

  lemma UnreadIsNotSent(w: World)
    requires Enabled(w, Walk(false)) && Current(w) && Standing(w) !in w.m.sent
    ensures var c := Step(w, Walk(false)).cycle; c.Idle? || c.phase == Walking(w.cycle.phase.at + 1)
  {
  }

  lemma ReadIsSent(w: World)
    requires Enabled(w, Walk(true)) && Current(w) && Standing(w) !in w.m.sent
    ensures var c := Step(w, Walk(true)).cycle; c.Cycle? && c.phase == Sending(Media(Standing(w)))
  {
  }

  /** Walking past a name sends it exactly when it is not marked as sent and can be read. */
  lemma SendsExactlyTheUnsent(w: World, fetchOk: bool)
    requires Enabled(w, Walk(fetchOk)) && Current(w)
    ensures var c := Step(w, Walk(fetchOk)).cycle;
            (c.Cycle? && c.phase == Sending(Media(Standing(w)))) <==> (Standing(w) !in w.m.sent && fetchOk)
  {
    if Standing(w) in w.m.sent {
      SentIsPassed(w, fetchOk);
    } else if fetchOk {
      ReadIsSent(w);
    } else {
      UnreadIsNotSent(w);
    }
  }

  /** An upload that is answered is marked, and nothing else is. */
  lemma AnswerIsMarked(w: World)
    requires Enabled(w, Mark) && Current(w)
    ensures Step(w, Mark).m.sent == w.m.sent + {w.cycle.phase.name}
    ensures Step(w, Mark).cycle.Cycle? && Step(w, Mark).cycle.phase == Walking(w.cycle.at + 1)
  {
  }

  // ---------------------------------------------------------------- the failure streak

  function FailedTimes(m: Manager, n: nat): Manager {
    if n == 0 then m else RecordSpec(FailedTimes(m, n - 1), m.generation, true)
  }

  lemma {:induction false} FailuresCount(m: Manager, n: nat)
    requires m.enabled && m.failStreak + n < 3
    ensures n > 0 ==> FailedTimes(m, n) == m.(
                        running := false, variant := "", failStreak := m.failStreak + n, failures := m.failures + n)
    ensures FailedTimes(m, n).sent == m.sent
  {
    if n > 0 {
      FailuresCount(m, n - 1);
    }
  }

  lemma OneMoreFailure(m: Manager, n: nat, before: Manager)
    requires FailedTimes(m, n) == before
    ensures FailedTimes(m, n + 1) == RecordSpec(before, m.generation, true)
  {
  }

  /** Failures in a row leave what was sent alone; the third starts the conversation over, wherever
      the streak began. */
  lemma ThirdFailureForgets(m: Manager, n: nat)
    requires m.enabled && m.failStreak + n == 2
    ensures FailedTimes(m, n).sent == m.sent
    ensures FailedTimes(m, n + 1) == m.(
                running := false, variant := "", sent := {}, pageSent := false, assetsRev := "",
                failStreak := 0, failures := m.failures + n + 1)
  {
    FailuresCount(m, n);
    var before := if n == 0 then m
                  else m.(running := false, variant := "", failStreak := 2, failures := m.failures + n);
    NoFailure(m);
    OneMoreFailure(m, n, before);
    FailureForgets(m, before, n);
  }

  lemma NoFailure(m: Manager)
    ensures FailedTimes(m, 0) == m
  {
  }

  lemma FailureForgets(m: Manager, before: Manager, n: nat)
    requires m.enabled && m.failStreak + n == 2
    requires if n == 0 then before == m
             else before == m.(running := false, variant := "", failStreak := 2, failures := m.failures + n)
    ensures RecordSpec(before, m.generation, true) == m.(
                running := false, variant := "", sent := {}, pageSent := false, assetsRev := "",
                failStreak := 0, failures := m.failures + n + 1)
  {
  }
}

/** The origin-side room plane: versioned snapshots with parked readers, bounded presence,
and the bounded queue of guest writes for the Mac. */
module RoomPlane {
  import opened Text
  import opened Clock
  import opened Sorting

  const MAX_QUEUED := 512
  const MAX_LISTENERS := 2048
  const LISTENER_TTL := 12_000
  const MAX_SNAPSHOT := 262_144

  datatype Write = Write(path: string, body: string, at: int)

  datatype Guest = Guest(id: string, name: string, paused: bool)

  datatype Listener = Listener(latMs: real, hasLat: bool, lastSeen: int, guest: Guest)

  /** `wake` numbers the channels: every channel below it has been closed. */
  datatype Plane = Plane(
    delaySec: real,
    snapshots: map<string, string>,
    versions: map<string, nat>,
    verCounter: nat,
    wake: nat,
    listeners: map<string, Listener>,
    writes: seq<Write>)

  const EMPTY := Plane(0.0, map[], map[], 0, 0, map[], [])

  // ---------------------------------------------------------------- critical sections

  /** What a caller may publish; `json` says whether the body parses. */
  predicate Publishable(kind: string, body: string, json: bool) {
    kind != "" && body != "" && |body| <= MAX_SNAPSHOT && json
  }

  function PublishSpec(p: Plane, kind: string, body: string, delaySec: real): Plane {
    var d := if delaySec > 0.0 then p.(delaySec := delaySec) else p;
    if kind in p.snapshots && p.snapshots[kind] == body then d
    else
      d.(snapshots := p.snapshots[kind := body],
         verCounter := p.verCounter + 1,
         versions := p.versions[kind := p.verCounter + 1],
         wake := p.wake + 1)
  }

  function ResetSpec(p: Plane): Plane {
    EMPTY.(verCounter := p.verCounter, wake := p.wake + 1)
  }

  function Fresh(listeners: map<string, Listener>, now: int): map<string, Listener> {
    map id | id in listeners && now - listeners[id].lastSeen <= LISTENER_TTL :: listeners[id]
  }

  function Heard(was: Listener, guest: Guest, latMs: real, hasLat: bool, now: int): Listener {
    Listener(if hasLat then latMs else was.latMs, hasLat || was.hasLat, now, guest)
  }

  const SILENT := Listener(0.0, false, 0, Guest("", "", false))

  function BeatSpec(p: Plane, guest: Guest, latMs: real, hasLat: bool, now: int): Plane {
    if guest.id == "" then p
    else if guest.id in p.listeners then
      p.(listeners := p.listeners[guest.id := Heard(p.listeners[guest.id], guest, latMs, hasLat, now)])
    else
      var kept := if |p.listeners| >= MAX_LISTENERS then Fresh(p.listeners, now) else p.listeners;
      if |kept| >= MAX_LISTENERS then p.(listeners := kept)
      else p.(listeners := kept[guest.id := Heard(SILENT, guest, latMs, hasLat, now)])
  }

  predicate Accepts(p: Plane, path: string) {
    path != "" && |p.writes| < MAX_QUEUED
  }

  function EnqueueSpec(p: Plane, write: Write): Plane {
    if Accepts(p, write.path) then p.(writes := p.writes + [write]) else p
  }

  function DrainSpec(p: Plane, now: int): Plane {
    p.(listeners := Fresh(p.listeners, now), writes := [])
  }

  // ---------------------------------------------------------------- the digest

  /** What a drain hands the Mac. */
  datatype Digest = Digest(present: nat, roster: seq<Guest>, spreadMs: real, medianMs: real, deviationMs: real,
                           writes: seq<Write>)

  predicate ById(a: Guest, b: Guest) {
    StrLe(a.id, b.id)
  }

  predicate AtMost(a: real, b: real) {
    a <= b
  }

  lemma Orders()
    ensures TotalOrder(ById) && TotalOrder(AtMost)
  {
    forall a: Guest, b: Guest ensures ById(a, b) || ById(b, a) {
      StrLeTotal(a.id, b.id);
    }
    forall a: Guest, b: Guest, c: Guest | ById(a, b) && ById(b, c) ensures ById(a, c) {
      StrLeTransitive(a.id, b.id, c.id);
    }
  }

  /** The ids are those of the listeners, each once. */
  ghost predicate Listing(listeners: map<string, Listener>, ids: seq<string>) {
    && (forall i, j :: 0 <= i < j < |ids| ==> ids[i] != ids[j])
    && forall id :: id in listeners <==> id in ids
  }

  function GuestsOf(listeners: map<string, Listener>, ids: seq<string>): seq<Guest>
    requires forall id :: id in ids ==> id in listeners
  {
    if ids == [] then []
    else var n := |ids| - 1; GuestsOf(listeners, ids[..n]) + [listeners[ids[n]].guest]
  }

  function LatenciesOf(listeners: map<string, Listener>, ids: seq<string>): seq<real>
    requires forall id :: id in ids ==> id in listeners
  {
    if ids == [] then []
    else
      var n := |ids| - 1;
      LatenciesOf(listeners, ids[..n]) + if listeners[ids[n]].hasLat then [listeners[ids[n]].latMs] else []
  }

  function Median(sorted: seq<real>): real
    requires sorted != []
  {
    var n := |sorted|;
    if n % 2 == 1 then sorted[n / 2] else (sorted[n / 2 - 1] + sorted[n / 2]) / 2.0
  }

  /** The digest sums up the listeners, listed as `ids`, with latencies sorted as `lats`. */
  ghost predicate Summarises(d: Digest, listeners: map<string, Listener>, delaySec: real,
                             ids: seq<string>, lats: seq<real>)
  {
    && Listing(listeners, ids) && d.present == |listeners|
    && multiset(d.roster) == multiset(GuestsOf(listeners, ids)) && Ordered(ById, d.roster)
    && multiset(lats) == multiset(LatenciesOf(listeners, ids)) && Ordered(AtMost, lats)
    && if lats == [] then d.spreadMs == 0.0 && d.medianMs == 0.0 && d.deviationMs == 0.0
       else
         var worst := lats[|lats| - 1];
         d.spreadMs == worst - lats[0] && d.medianMs == Median(lats) && d.deviationMs == Max0(worst - delaySec * 1000.0)
  }

  ghost predicate Reports(d: Digest, listeners: map<string, Listener>, delaySec: real) {
    exists ids, lats :: Summarises(d, listeners, delaySec, ids, lats)
  }

  /** The keys of the listener map, in some order. */
  method IdsOf(listeners: map<string, Listener>) returns (ids: seq<string>)
    ensures Listing(listeners, ids)
  {
    ids := [];
    var left := listeners.Keys;
    while left != {}
      invariant left <= listeners.Keys
      invariant forall i, j :: 0 <= i < j < |ids| ==> ids[i] != ids[j]
      invariant forall id :: id in listeners <==> id in ids || id in left
      invariant forall id :: id in ids ==> id !in left
      decreases |left|
    {
      var id :| id in left;
      ids := ids + [id];
      left := left - {id};
    }
  }

  method Collect(listeners: map<string, Listener>, ids: seq<string>) returns (roster: seq<Guest>, latencies: seq<real>)
    requires Listing(listeners, ids)
    ensures roster == GuestsOf(listeners, ids) && latencies == LatenciesOf(listeners, ids)
  {
    roster, latencies := [], [];
    for i := 0 to |ids|
      invariant roster == GuestsOf(listeners, ids[..i]) && latencies == LatenciesOf(listeners, ids[..i])
    {
      var l := listeners[ids[i]];
      assert ids[..i + 1][..i] == ids[..i];
      if l.hasLat {
        latencies := latencies + [l.latMs];
      }
      roster := roster + [l.guest];
    }
    assert ids[..|ids|] == ids;
  }

  method DigestOf(listeners: map<string, Listener>, delaySec: real, writes: seq<Write>) returns (d: Digest)
    ensures d.writes == writes && Reports(d, listeners, delaySec)
  {
    var ids := IdsOf(listeners);
    var roster, latencies := Collect(listeners, ids);
    Orders();
    roster := Sort(ById, roster);
    latencies := Sort(AtMost, latencies);
    var spread, median, deviation := Measures(latencies, delaySec);
    d := Digest(|listeners|, roster, spread, median, deviation, writes);
    assert Summarises(d, listeners, delaySec, ids, latencies);
  }

  method Measures(sorted: seq<real>, delaySec: real) returns (spread: real, median: real, deviation: real)
    ensures sorted == [] ==> spread == median == deviation == 0.0
    ensures sorted != [] ==>
              && spread == sorted[|sorted| - 1] - sorted[0] && median == Median(sorted)
              && deviation == Max0(sorted[|sorted| - 1] - delaySec * 1000.0)
  {
    spread, median, deviation := 0.0, 0.0, 0.0;
    if |sorted| > 0 {
      var worst := sorted[|sorted| - 1];
      spread, median := worst - sorted[0], Median(sorted);
      if worst - delaySec * 1000.0 > 0.0 {
        deviation := worst - delaySec * 1000.0;
      }
    }
  }

  lemma {:induction false} LatencyListed(listeners: map<string, Listener>, ids: seq<string>, id: string)
    requires (forall i :: i in ids ==> i in listeners) && id in ids && listeners[id].hasLat
    ensures listeners[id].latMs in LatenciesOf(listeners, ids)
  {
    var n := |ids| - 1;
    assert ids == ids[..n] + [ids[n]];
    if id != ids[n] { LatencyListed(listeners, ids[..n], id); }
  }

  lemma SortedBounds(lats: seq<real>, x: real)
    requires Ordered(AtMost, lats) && x in lats
    ensures lats[0] <= x <= lats[|lats| - 1]
  {
    var i :| 0 <= i < |lats| && lats[i] == x;
    if i > 0 { assert AtMost(lats[0], lats[i]); }
    if i < |lats| - 1 { assert AtMost(lats[i], lats[|lats| - 1]); }
  }

  /** What the Mac may conclude: no guest who reports a latency is later than the configured
      delay by more than the deviation, and no two are further apart than the spread. */
  lemma DigestBoundsEveryGuest(d: Digest, listeners: map<string, Listener>, delaySec: real, a: string, b: string)
    requires Reports(d, listeners, delaySec)
    requires a in listeners && b in listeners && listeners[a].hasLat && listeners[b].hasLat
    ensures listeners[a].latMs <= delaySec * 1000.0 + d.deviationMs
    ensures listeners[a].latMs - listeners[b].latMs <= d.spreadMs
  {
    var ids, lats :| Summarises(d, listeners, delaySec, ids, lats);
    LatencyListed(listeners, ids, a);
    LatencyListed(listeners, ids, b);
    var listed := LatenciesOf(listeners, ids);
    assert listeners[a].latMs in multiset(listed) && listeners[b].latMs in multiset(listed);
    SortedBounds(lats, listeners[a].latMs);
    SortedBounds(lats, listeners[b].latMs);
  }

  // ---------------------------------------------------------------- the room object

  class Room {
    var delaySec: real
    var snapshots: map<string, string>
    var versions: map<string, nat>
    var verCounter: nat
    var wake: nat
    var listeners: map<string, Listener>
    var writes: seq<Write>
    var clock: Option<Anchor>

    ghost function Value(): Plane
      reads this
    {
      Plane(delaySec, snapshots, versions, verCounter, wake, listeners, writes)
    }

    constructor ()
      ensures Value() == EMPTY && clock == None
    {
      delaySec, snapshots, versions, verCounter, wake := 0.0, map[], map[], 0, 0;
      listeners, writes, clock := map[], [], None;
    }

    /** `sample` is the decoded body of a clock publish. */
    method Publish(kind: string, body: string, delay: real, json: bool, sample: Option<Sample>, now: real)
      returns (ok: bool)
      modifies this
      ensures kind == "" || |body| == 0 || |body| > 262_144 || !json ==> !ok
      ensures kind !in {"", "clock"} && 0 < |body| <= 262_144 && json ==> ok
      ensures !Publishable(kind, body, json) ==> !ok && Value() == old(Value()) && clock == old(clock)
      ensures Publishable(kind, body, json) && kind != "clock" ==>
                ok && Value() == PublishSpec(old(Value()), kind, body, delay) && clock == old(clock)
      ensures Publishable(kind, body, json) && kind == "clock" ==>
                && Value() == old(Value())
                && ok == (sample.Some? && Anchored(sample.value, now).Some?)
                && clock == if ok then Anchored(sample.value, now) else old(clock)
    {
      if kind == "" || |body| == 0 || |body| > MAX_SNAPSHOT || !json {
        return false;
      }
      if kind == "clock" {
        if sample.None? || Anchored(sample.value, now).None? {
          return false;
        }
        clock := Anchored(sample.value, now);
        return true;
      }
      if delay > 0.0 {
        delaySec := delay;
      }
      if kind in snapshots && snapshots[kind] == body {
        return true;
      }
      snapshots := snapshots[kind := body];
      verCounter := verCounter + 1;
      versions := versions[kind := verCounter];
      wake := wake + 1;
      return true;
    }

    /** Absent kinds read as version zero. */
    method ReadVersioned(kind: string) returns (body: Option<string>, version: nat)
      ensures body == if kind in snapshots then Some(snapshots[kind]) else None
      ensures version == VersionOf(Value(), kind)
    {
      body := if kind in snapshots then Some(snapshots[kind]) else None;
      version := if kind in versions then versions[kind] else 0;
    }

    method Beat(guest: Guest, latMs: real, hasLat: bool, now: int)
      modifies `listeners
      ensures Value() == BeatSpec(old(Value()), guest, latMs, hasLat, now)
    {
      if guest.id == "" {
        return;
      }
      var existing := SILENT;
      if guest.id !in listeners {
        if |listeners| >= MAX_LISTENERS {
          listeners := Fresh(listeners, now);
          if |listeners| >= MAX_LISTENERS {
            return;
          }
        }
      } else {
        existing := listeners[guest.id];
      }
      existing := existing.(lastSeen := now, guest := guest);
      if hasLat {
        existing := existing.(latMs := latMs, hasLat := true);
      }
      listeners := listeners[guest.id := existing];
    }

    method Enqueue(path: string, body: string, now: int) returns (accepted: bool)
      modifies `writes
      ensures accepted == Accepts(old(Value()), path)
      ensures Value() == EnqueueSpec(old(Value()), Write(path, body, now))
    {
      if path == "" {
        return false;
      }
      if |writes| >= MAX_QUEUED {
        return false;
      }
      writes := writes + [Write(path, body, now)];
      return true;
    }

    method Drain(now: int) returns (d: Digest)
      modifies `listeners, `writes
      ensures d.writes == old(writes) && Reports(d, Fresh(old(listeners), now), delaySec)
      ensures Value() == DrainSpec(old(Value()), now)
    {
      listeners := Fresh(listeners, now);
      d := DigestOf(listeners, delaySec, writes);
      writes := [];
    }

    method Reset()
      modifies this
      ensures Value() == ResetSpec(old(Value())) && clock == None
    {
      snapshots, listeners, writes, delaySec, clock := map[], map[], [], 0.0, None;
      versions := map[];
      wake := wake + 1;
    }
  }

  function VersionOf(p: Plane, kind: string): nat {
    if kind in p.versions then p.versions[kind] else 0
  }

  // ---------------------------------------------------------------- versions over a run

  datatype Event =
    | Publish(kind: string, body: string, delaySec: real)
    | Beat(guest: Guest, latMs: real, hasLat: bool, now: int)
    | Enqueue(write: Write)
    | Drain(now: int)
    | Reset

  function Step(p: Plane, e: Event): Plane {
    match e
    case Publish(kind, body, delaySec) =>
      if kind == "" || kind == "clock" || body == "" then p else PublishSpec(p, kind, body, delaySec)
    case Beat(guest, latMs, hasLat, now) => BeatSpec(p, guest, latMs, hasLat, now)
    case Enqueue(write) => EnqueueSpec(p, write)
    case Drain(now) => DrainSpec(p, now)
    case Reset => ResetSpec(p)
  }

  ghost predicate Run(ps: seq<Plane>, es: seq<Event>) {
    && |ps| == |es| + 1
    && ps[0] == EMPTY
    && forall i {:trigger es[i]} :: 0 <= i < |es| ==> ps[i + 1] == Step(ps[i], es[i])
  }

  ghost predicate Inv(p: Plane) {
    && p.versions.Keys == p.snapshots.Keys
    && (forall k :: k in p.versions ==> 0 < p.versions[k] <= p.verCounter)
    && (forall k, l :: k in p.versions && l in p.versions && p.versions[k] == p.versions[l] ==> k == l)
    && |p.listeners| <= MAX_LISTENERS
    && |p.writes| <= MAX_QUEUED
  }

  lemma {:induction false} FreshIsSmaller(listeners: map<string, Listener>, now: int)
    ensures |Fresh(listeners, now)| <= |listeners|
  {
    var kept := Fresh(listeners, now);
    assert kept.Keys <= listeners.Keys;
    SubsetSize(kept.Keys, listeners.Keys);
  }

  lemma {:induction false} SubsetSize(a: set<string>, b: set<string>)
    requires a <= b
    ensures |a| <= |b|
  {
    if a != {} {
      var x :| x in a;
      SubsetSize(a - {x}, b - {x});
    }
  }

  lemma PublishKeepsInv(p: Plane, kind: string, body: string, delaySec: real)
    requires Inv(p)
    ensures var q := PublishSpec(p, kind, body, delaySec);
            Inv(q) && p.verCounter <= q.verCounter && p.wake <= q.wake
  {
  }

  lemma StepKeepsInv(p: Plane, e: Event)
    requires Inv(p)
    ensures Inv(Step(p, e)) && p.verCounter <= Step(p, e).verCounter && p.wake <= Step(p, e).wake
  {
    match e
    case Publish(kind, body, delaySec) => PublishKeepsInv(p, kind, body, delaySec);
    case Beat(guest, latMs, hasLat, now) => FreshIsSmaller(p.listeners, now);
    case Enqueue(_) =>
    case Drain(now) => FreshIsSmaller(p.listeners, now);
    case Reset =>
  }

  lemma {:induction false} RunKeepsInv(ps: seq<Plane>, es: seq<Event>)
    requires Run(ps, es)
    ensures forall i :: 0 <= i < |ps| ==> Inv(ps[i])
    decreases |es|
  {
    if es != [] {
      var n := |es| - 1;
      var init := ps[..n + 1];
      assert init[0] == ps[0];
      RunKeepsInv(init, es[..n]);
      assert init[n] == ps[n];
      StepKeepsInv(ps[n], es[n]);
      forall i | 0 <= i < |ps| ensures Inv(ps[i]) {
        if i <= n { assert init[i] == ps[i]; }
      }
    }
  }

  /** Later content either carries a version issued later, or is the very same content. */
  ghost predicate Follows(p: Plane, q: Plane) {
    && p.verCounter <= q.verCounter && p.wake <= q.wake
    && (forall k :: k in q.versions && q.versions[k] <= p.verCounter ==>
          k in p.versions && p.versions[k] == q.versions[k]
          && k in p.snapshots && k in q.snapshots && p.snapshots[k] == q.snapshots[k])
    && (p.wake == q.wake ==> p.snapshots == q.snapshots && p.versions == q.versions)
  }

  lemma PublishFollows(p: Plane, kind: string, body: string, delaySec: real)
    requires Inv(p)
    ensures Follows(p, PublishSpec(p, kind, body, delaySec))
  {
    var q := PublishSpec(p, kind, body, delaySec);
    assert forall k :: k in q.versions && q.versions[k] <= p.verCounter ==>
                         k in p.versions && q.versions[k] == p.versions[k];
  }

  /** Presence and the write queue have nothing to do with snapshots. */
  lemma OthersKeepSnapshots(p: Plane, e: Event)
    requires !e.Publish? && !e.Reset?
    ensures var q := Step(p, e);
            q.snapshots == p.snapshots && q.versions == p.versions && q.verCounter == p.verCounter && q.wake == p.wake
  {
  }

  lemma StepFollows(p: Plane, e: Event)
    requires Inv(p)
    ensures Follows(p, Step(p, e))
  {
    match e
    case Publish(kind, body, delaySec) => PublishFollows(p, kind, body, delaySec);
    case Reset =>
    case _ => OthersKeepSnapshots(p, e);
  }

  lemma FollowsTransitive(p: Plane, q: Plane, r: Plane)
    requires Follows(p, q) && Follows(q, r)
    ensures Follows(p, r)
  {
  }

  lemma {:induction false} RunFollows(ps: seq<Plane>, es: seq<Event>, i: nat, j: nat)
    requires Run(ps, es) && i <= j < |ps|
    ensures Follows(ps[i], ps[j])
    decreases j - i
  {
    RunKeepsInv(ps, es);
    if i < j {
      RunFollows(ps, es, i, j - 1);
      StepFollows(ps[j - 1], es[j - 1]);
      FollowsTransitive(ps[i], ps[j - 1], ps[j]);
    }
  }

  /** A version number stands for one kind and one body for the whole life of the room,
      Reset included. */
  lemma VersionNamesContent(ps: seq<Plane>, es: seq<Event>, i: nat, j: nat, k: string, l: string)
    requires Run(ps, es) && i < |ps| && j < |ps|
    requires k in ps[i].versions && l in ps[j].versions && ps[i].versions[k] == ps[j].versions[l]
    ensures k == l
    ensures k in ps[i].snapshots && l in ps[j].snapshots && ps[i].snapshots[k] == ps[j].snapshots[l]
  {
    RunKeepsInv(ps, es);
    if i <= j {
      RunFollows(ps, es, i, j);
    } else {
      RunFollows(ps, es, j, i);
    }
  }

  // ---------------------------------------------------------------- parked readers

  /** One turn of the wait loop: what it captured, and whether it answers at once. */
  datatype Turn = Turn(body: Option<string>, version: nat, channel: nat, answers: bool)

  function WaitTurn(p: Plane, kind: string, since: nat, late: bool): Turn {
    var body := if kind in p.snapshots then Some(p.snapshots[kind]) else None;
    Turn(body, VersionOf(p, kind), p.wake, body.None? || VersionOf(p, kind) != since || late)
  }

  /** The channel a reader captured has been closed by now. */
  predicate Closed(p: Plane, channel: nat) {
    channel < p.wake
  }

  /** A reader that answers before its deadline has news: the kind is gone, or its content
      is not the content the guest's version stood for. */
  lemma EarlyAnswerIsNews(ps: seq<Plane>, es: seq<Event>, i: nat, j: nat, kind: string)
    requires Run(ps, es) && i <= j < |ps| && kind in ps[i].snapshots
    ensures WaitTurn(ps[j], kind, VersionOf(ps[i], kind), false).answers ==>
              kind !in ps[j].snapshots || VersionOf(ps[j], kind) > ps[i].verCounter
    ensures !WaitTurn(ps[j], kind, VersionOf(ps[i], kind), false).answers ==>
              kind in ps[j].snapshots && ps[j].snapshots[kind] == ps[i].snapshots[kind]
  {
    RunKeepsInv(ps, es);
    RunFollows(ps, es, i, j);
    if kind in ps[j].versions && ps[j].versions[kind] == VersionOf(ps[i], kind) {
      VersionNamesContent(ps, es, i, j, kind, kind);
    }
  }

  /** No change is slept through: once any kind's content differs from what a parked reader
      captured, the channel it is parked on is closed. */
  lemma ChangeClosesCapturedChannel(ps: seq<Plane>, es: seq<Event>, i: nat, j: nat)
    requires Run(ps, es) && i <= j < |ps|
    requires ps[i].snapshots != ps[j].snapshots || ps[i].versions != ps[j].versions
    ensures Closed(ps[j], ps[i].wake)
  {
    RunFollows(ps, es, i, j);
  }

  // ---------------------------------------------------------------- what each operation changes

  /** Publishing stores the content, under a new version and with a wake-up exactly if it is new,
      and touches no other kind, presence or queue. */
  lemma PublishEffect(p: Plane, kind: string, body: string, delaySec: real)
    requires Inv(p)
    ensures var q := PublishSpec(p, kind, body, delaySec);
            && kind in q.snapshots && q.snapshots[kind] == body
            && (VersionOf(q, kind) == VersionOf(p, kind) <==> kind in p.snapshots && p.snapshots[kind] == body)
            && (q.wake == p.wake <==> kind in p.snapshots && p.snapshots[kind] == body)
            && VersionOf(q, kind) >= VersionOf(p, kind) && q.wake >= p.wake && VersionOf(q, kind) > 0
            && q.listeners == p.listeners && q.writes == p.writes
            && q.delaySec == if delaySec > 0.0 then delaySec else p.delaySec
    ensures var q := PublishSpec(p, kind, body, delaySec);
            forall k :: k != kind ==>
                          && (k in q.snapshots <==> k in p.snapshots)
                          && (k in p.snapshots ==> q.snapshots[k] == p.snapshots[k])
                          && VersionOf(q, k) == VersionOf(p, k)
  {
  }

  /** A beat of a named guest records who it is and that it was heard now, keeping its last
      latency if it sends none; only in a room of 2048 can it be turned away, and then it is
      a newcomer that found no listener silent for more than twelve seconds. */
  lemma BeatEffect(p: Plane, guest: Guest, latMs: real, hasLat: bool, now: int)
    requires guest.id != ""
    ensures var q, id := BeatSpec(p, guest, latMs, hasLat, now), guest.id;
            && (id in q.listeners ==>
                  && q.listeners[id].guest == guest && q.listeners[id].lastSeen == now
                  && (hasLat ==> q.listeners[id].hasLat && q.listeners[id].latMs == latMs)
                  && (!hasLat ==> q.listeners[id].hasLat == (id in p.listeners && p.listeners[id].hasLat))
                  && (!hasLat && id in p.listeners ==> q.listeners[id].latMs == p.listeners[id].latMs))
            && (id !in q.listeners ==>
                  && id !in p.listeners && |p.listeners| >= 2048 && |q.listeners| >= 2048
                  && forall other :: other in q.listeners ==> now - q.listeners[other].lastSeen <= 12_000)
  {
  }

  /** It removes nobody but, in a full room, those silent for more than twelve seconds. */
  lemma BeatKeepsOthers(p: Plane, guest: Guest, latMs: real, hasLat: bool, now: int, other: string)
    requires other != guest.id
    ensures var q := BeatSpec(p, guest, latMs, hasLat, now);
            && (other in q.listeners ==> other in p.listeners && q.listeners[other] == p.listeners[other])
            && (other in p.listeners && other !in q.listeners ==>
                  |p.listeners| >= 2048 && now - p.listeners[other].lastSeen > 12_000)
            && q.snapshots == p.snapshots && q.versions == p.versions && q.writes == p.writes
            && q.wake == p.wake && q.verCounter == p.verCounter && q.delaySec == p.delaySec
  {
  }

  /** A nameless beat changes nothing. */
  lemma NamelessBeat(p: Plane, guest: Guest, latMs: real, hasLat: bool, now: int)
    requires guest.id == ""
    ensures BeatSpec(p, guest, latMs, hasLat, now) == p
  {
  }

  /** A drain takes the whole queue and forgets exactly the listeners silent for more than
      twelve seconds. */
  lemma DrainEffect(p: Plane, now: int, id: string)
    ensures var q := DrainSpec(p, now);
            && q.writes == []
            && (id in q.listeners <==> id in p.listeners && now - p.listeners[id].lastSeen <= 12_000)
            && (id in q.listeners ==> q.listeners[id] == p.listeners[id])
            && q.snapshots == p.snapshots && q.versions == p.versions && q.verCounter == p.verCounter
            && q.wake == p.wake && q.delaySec == p.delaySec
  {
  }

  /** A reset leaves the room as new, but for the version counter and a wake-up. */
  lemma ResetEffect(p: Plane)
    ensures ResetSpec(p) == Plane(0.0, map[], map[], p.verCounter, p.wake + 1, map[], [])
  {
  }

  // ---------------------------------------------------------------- the queue over a run

  /** The writes taken since the last drain or reset, told by the events alone: each with a path,
      in order, while there are fewer than 512. */
  function Taken(es: seq<Event>): seq<Write> {
    if es == [] then []
    else
      var before := Taken(es[..|es| - 1]);
      match es[|es| - 1]
      case Enqueue(write) => if write.path != "" && |before| < 512 then before + [write] else before
      case Drain(_) => []
      case Reset => []
      case _ => before
  }

  /** In every run the queue holds exactly the writes taken since it was last emptied: none lost,
      repeated or out of order, and a drain hands over just these. */
  lemma {:induction false} QueueIsTaken(ps: seq<Plane>, es: seq<Event>, i: nat)
    requires Run(ps, es) && i <= |es|
    ensures ps[i].writes == Taken(es[..i])
  {
    if i > 0 {
      var n := i - 1;
      QueueIsTaken(ps, es, n);
      assert ps[n + 1] == Step(ps[n], es[n]);
      assert es[..i][..n] == es[..n] && es[..i][n] == es[n];
    }
  }

  // ---------------------------------------------------------------- the digest in other words

  /** Half of the sorted values lie at or below the median and half at or above. */
  lemma MedianIsMiddle(sorted: seq<real>, i: nat)
    requires Ordered(AtMost, sorted) && i < |sorted|
    ensures 2 * i < |sorted| ==> sorted[i] <= Median(sorted)
    ensures 2 * i >= |sorted| - 1 ==> sorted[i] >= Median(sorted)
  {
    var n := |sorted|;
    if n % 2 == 1 {
      MidOrder(sorted, i, n / 2);
      MidOrder(sorted, n / 2, i);
    } else {
      MidOrder(sorted, i, n / 2 - 1);
      MidOrder(sorted, n / 2, i);
      MidOrder(sorted, n / 2 - 1, n / 2);
    }
  }

  lemma MidOrder(sorted: seq<real>, i: nat, j: nat)
    requires Ordered(AtMost, sorted) && i < |sorted| && j < |sorted|
    ensures i <= j ==> sorted[i] <= sorted[j]
  {
    if i < j {
      assert AtMost(sorted[i], sorted[j]);
    }
  }

  lemma {:induction false} GuestListed(listeners: map<string, Listener>, ids: seq<string>, g: Guest)
    requires forall id :: id in ids ==> id in listeners
    ensures g in GuestsOf(listeners, ids) <==> exists id :: id in ids && listeners[id].guest == g
    ensures |GuestsOf(listeners, ids)| == |ids|
  {
    if ids != [] {
      var n := |ids| - 1;
      GuestListed(listeners, ids[..n], g);
      assert ids == ids[..n] + [ids[n]];
    }
  }

  /** The roster names exactly the guests present. */
  lemma RosterIsPresence(d: Digest, listeners: map<string, Listener>, delaySec: real, g: Guest)
    requires Reports(d, listeners, delaySec)
    ensures d.present == |listeners|
    ensures g in d.roster <==> exists id :: id in listeners && listeners[id].guest == g
  {
    var ids, lats :| Summarises(d, listeners, delaySec, ids, lats);
    GuestListed(listeners, ids, g);
    assert g in multiset(d.roster) <==> g in multiset(GuestsOf(listeners, ids));
  }
}

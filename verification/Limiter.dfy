/** The guest write limiter: at most 4096 entries, and a full table evicts its oldest entry
instead of refusing strangers. */
module Limiter {
  import opened Text

  const LIMIT: nat := 4096
  const TTL := 60_000

  /** Milliseconds between two accepted writes of one kind; other kinds are not limited. */
  function Interval(kind: string): int {
    if kind == "post" then 5_000
    else if kind == "comment" then 2_000
    else if kind == "reaction" then 1_000
    else if kind == "track-id" then 3_000
    else if kind == "profile" then 2_000
    else 0
  }

  /** One guest's budget for one kind of write. */
  datatype Slot = Slot(kind: string, key: string)

  function SlotOf(key: string, kind: string): Slot {
    Slot(kind, if Trim(key) == "" then "unknown" else Trim(key))
  }

  datatype Table = Table(last: map<Slot, int>, lastCleanup: int)

  function Swept(t: Table, now: int): Table {
    if now - t.lastCleanup > TTL
    then Table(map s | s in t.last && now - t.last[s] <= TTL :: t.last[s], now)
    else t
  }

  predicate TooSoon(t: Table, s: Slot, now: int) {
    s in t.last && now - t.last[s] < Interval(s.kind)
  }

  /** An entry no other is older than. */
  ghost predicate Oldest(last: map<Slot, int>, s: Slot) {
    s in last && forall o :: o in last ==> last[s] <= last[o]
  }

  /** One limited write; which of several oldest entries goes is left open. */
  ghost predicate Allowed(t: Table, s: Slot, now: int, accepted: bool, next: Table) {
    var swept := Swept(t, now);
    if TooSoon(swept, s, now) then !accepted && next == swept
    else
      && accepted && next.lastCleanup == swept.lastCleanup
      && if s !in swept.last && |swept.last| >= LIMIT
         then exists gone :: Oldest(swept.last, gone) && next.last == (swept.last - {gone})[s := now]
         else next.last == swept.last[s := now]
  }

  class RateLimiter {
    var last: map<Slot, int>
    var lastCleanup: int

    ghost function Value(): Table
      reads this
    {
      Table(last, lastCleanup)
    }

    constructor ()
      ensures Value() == Table(map[], 0)
    {
      last, lastCleanup := map[], 0;
    }

    method Allow(key: string, kind: string, now: int) returns (ok: bool)
      modifies this
      ensures Interval(kind) <= 0 ==> ok && Value() == old(Value())
      ensures Interval(kind) > 0 ==> Allowed(old(Value()), SlotOf(key, kind), now, ok, Value())
    {
      if Interval(kind) <= 0 {
        return true;
      }
      var s := SlotOf(key, kind);
      if now - lastCleanup > TTL {
        Sweep(now);
      }
      if s in last && now - last[s] < Interval(kind) {
        return false;
      }
      if s !in last && |last| >= LIMIT {
        EvictOldest();
      }
      last := last[s := now];
      ok := true;
    }

    method Sweep(now: int)
      requires now - lastCleanup > TTL
      modifies this
      ensures Value() == Swept(old(Value()), now)
    {
      var left := last.Keys;
      while left != {}
        invariant left <= old(last).Keys
        invariant last == map s | s in old(last) && (s in left || now - old(last)[s] <= TTL) :: old(last)[s]
        decreases |left|
      {
        var s :| s in left;
        if now - last[s] > TTL {
          last := last - {s};
        }
        left := left - {s};
      }
      lastCleanup := now;
    }

    method EvictOldest()
      requires last != map[]
      modifies this`last
      ensures exists s :: Oldest(old(last), s) && last == old(last) - {s}
    {
      var left := last.Keys;
      var oldest :| oldest in left;
      while left != {}
        invariant left <= last.Keys && oldest in last
        invariant forall o :: o in last && o !in left ==> last[oldest] <= last[o]
        decreases |left|
      {
        var s :| s in left;
        if last[s] < last[oldest] {
          oldest := s;
        }
        left := left - {s};
      }
      last := last - {oldest};
    }
  }

  // ---------------------------------------------------------------- runs

  /** A limited write and the verdict it got. */
  datatype Write = Write(slot: Slot, now: int, accepted: bool)

  ghost predicate Step(t: Table, w: Write, next: Table) {
    Allowed(t, w.slot, w.now, w.accepted, next)
  }

  ghost predicate Run(ts: seq<Table>, ws: seq<Write>) {
    && |ts| == |ws| + 1 && ts[0] == Table(map[], 0)
    && (forall i :: 0 <= i < |ws| ==> Interval(ws[i].slot.kind) > 0)
    && (forall i, j :: 0 <= i < j < |ws| ==> ws[i].now <= ws[j].now)
    && forall i {:trigger Step(ts[i], ws[i], ts[i + 1])} :: 0 <= i < |ws| ==> Step(ts[i], ws[i], ts[i + 1])
  }

  lemma StepAt(ts: seq<Table>, ws: seq<Write>, n: nat)
    requires Run(ts, ws) && n < |ws|
    ensures Step(ts[n], ws[n], ts[n + 1])
  {
  }

  lemma SweptIsSmaller(t: Table, now: int)
    ensures Swept(t, now).last.Keys <= t.last.Keys && |Swept(t, now).last| <= |t.last|
  {
    CardinalitySubset(Swept(t, now).last.Keys, t.last.Keys);
    assert |t.last.Keys| == |t.last| && |Swept(t, now).last.Keys| == |Swept(t, now).last|;
  }

  lemma {:induction false} CardinalitySubset<T>(a: set<T>, b: set<T>)
    requires a <= b
    ensures |a| <= |b|
  {
    assert b == a + (b - a);
  }

  /** The table never holds more than 4096 entries. */
  lemma {:induction false} NeverOverfull(ts: seq<Table>, ws: seq<Write>, i: nat)
    requires Run(ts, ws) && i <= |ws|
    ensures |ts[i].last| <= 4096
  {
    if i > 0 {
      NeverOverfull(ts, ws, i - 1);
      StepAt(ts, ws, i - 1);
      StepKeepsBound(ts[i - 1], ws[i - 1], ts[i]);
    }
  }

  lemma StepKeepsBound(t: Table, w: Write, next: Table)
    requires |t.last| <= LIMIT && Step(t, w, next)
    ensures |next.last| <= LIMIT
  {
    var swept := Swept(t, w.now);
    SweptIsSmaller(t, w.now);
    assert |next.last| == |next.last.Keys| && |swept.last| == |swept.last.Keys|;
    if !TooSoon(swept, w.slot, w.now) {
      if w.slot !in swept.last && |swept.last| >= LIMIT {
        var gone :| Oldest(swept.last, gone) && next.last == (swept.last - {gone})[w.slot := w.now];
        assert next.last.Keys == swept.last.Keys - {gone} + {w.slot};
      } else {
        assert next.last.Keys == swept.last.Keys + {w.slot};
      }
    }
  }

  /** A slot without an entry is never refused, however full the table is. */
  lemma StrangerIsNeverDenied(t: Table, w: Write, next: Table)
    requires Step(t, w, next) && w.slot !in t.last
    ensures w.accepted && next.last[w.slot] == w.now
  {
  }

  /** Write k is the latest accepted one of slot `s` before write i. */
  ghost predicate Latest(ws: seq<Write>, i: nat, s: Slot, k: int)
    requires i <= |ws|
  {
    0 <= k < i && ws[k].slot == s && ws[k].accepted && forall j :: k < j < i ==> !(ws[j].slot == s && ws[j].accepted)
  }

  ghost predicate LatestAt(ws: seq<Write>, i: nat, s: Slot, now: int)
    requires i <= |ws|
  {
    exists k :: Latest(ws, i, s, k) && ws[k].now == now
  }

  /** The entry of a slot is the time of its latest accepted write. */
  ghost predicate TellsTheTruth(t: Table, ws: seq<Write>, i: nat)
    requires i <= |ws|
  {
    forall s :: s in t.last ==> LatestAt(ws, i, s, t.last[s])
  }

  /** The entry a slot has after a write. */
  lemma EntryAfter(t: Table, w: Write, next: Table, s: Slot)
    requires Step(t, w, next) && s in next.last
    ensures next.last[s] == if w.accepted && w.slot == s then w.now else if s in t.last then t.last[s] else w.now
    ensures (w.accepted && w.slot == s) || s in t.last
  {
  }

  lemma StillLatest(ws: seq<Write>, n: nat, s: Slot, now: int)
    requires n < |ws| && LatestAt(ws, n, s, now) && !(ws[n].accepted && ws[n].slot == s)
    ensures LatestAt(ws, n + 1, s, now)
  {
    var k :| Latest(ws, n, s, k) && ws[k].now == now;
    assert Latest(ws, n + 1, s, k);
  }

  lemma {:induction false} EntriesAreLatest(ts: seq<Table>, ws: seq<Write>, i: nat)
    requires Run(ts, ws) && i <= |ws|
    ensures TellsTheTruth(ts[i], ws, i)
  {
    if i > 0 {
      var n := i - 1;
      EntriesAreLatest(ts, ws, n);
      StepAt(ts, ws, n);
      forall s | s in ts[i].last ensures LatestAt(ws, i, s, ts[i].last[s]) {
        EntryAfter(ts[n], ws[n], ts[n + 1], s);
        if !(ws[n].accepted && ws[n].slot == s) {
          assert LatestAt(ws, n, s, ts[n].last[s]);
          StillLatest(ws, n, s, ts[n].last[s]);
        } else {
          assert Latest(ws, i, s, n);
        }
      }
    }
  }

  /** In any run, a write of a slot that has not been accepted before is accepted, however full
      the table is and whoever filled it. */
  lemma UnseenIsNeverDenied(ts: seq<Table>, ws: seq<Write>, i: nat)
    requires Run(ts, ws) && i < |ws|
    requires forall k :: 0 <= k < i ==> !(ws[k].slot == ws[i].slot && ws[k].accepted)
    ensures ws[i].accepted
  {
    EntriesAreLatest(ts, ws, i);
    StepAt(ts, ws, i);
    if ws[i].slot in ts[i].last {
      EntryHasAWrite(ts[i], ws, i, ws[i].slot);
    }
    StrangerIsNeverDenied(ts[i], ws[i], ts[i + 1]);
  }

  lemma EntryHasAWrite(t: Table, ws: seq<Write>, i: nat, s: Slot)
    requires i <= |ws| && TellsTheTruth(t, ws, i) && s in t.last
    ensures exists k :: 0 <= k < i && ws[k].slot == s && ws[k].accepted
  {
    assert LatestAt(ws, i, s, t.last[s]);
    var k :| Latest(ws, i, s, k) && ws[k].now == t.last[s];
  }

  // ---------------------------------------------------------------- how an interval can be undercut

  /** The other slots that had a write accepted before write m, no earlier on the clock than write i. */
  function OthersSince(ws: seq<Write>, i: nat, m: nat): set<Slot>
    requires i < m <= |ws|
  {
    set j | 0 <= j < m && ws[j].accepted && ws[j].now >= ws[i].now && ws[j].slot != ws[i].slot :: ws[j].slot
  }

  predicate Flooded(ws: seq<Write>, i: nat, m: nat)
    requires i < m <= |ws|
  {
    |OthersSince(ws, i, m)| >= LIMIT
  }

  ghost predicate Held(ts: seq<Table>, ws: seq<Write>, i: nat, m: nat)
    requires |ts| == |ws| + 1 && i < m <= |ws|
  {
    ws[i].slot in ts[m].last && ts[m].last[ws[i].slot] >= ws[i].now
  }

  lemma FloodStays(ws: seq<Write>, i: nat, m: nat)
    requires i < m < |ws| && Flooded(ws, i, m)
    ensures Flooded(ws, i, m + 1)
  {
    CardinalitySubset(OthersSince(ws, i, m), OthersSince(ws, i, m + 1));
  }

  /** The one way an entry no older than a sweep's reach is lost: evicted as the oldest of a
      full table, to make room for a newcomer. */
  ghost predicate EvictedBy(t: Table, w: Write, s: Slot) {
    var swept := Swept(t, w.now).last;
    w.accepted && w.slot !in swept && |swept| >= LIMIT && Oldest(swept, s)
  }

  lemma EntryStays(t: Table, w: Write, next: Table, s: Slot)
    requires Step(t, w, next)
    requires s in t.last && t.last[s] <= w.now <= t.last[s] + TTL
    ensures (s in next.last && next.last[s] >= t.last[s]) || EvictedBy(t, w, s)
  {
    var swept := Swept(t, w.now);
    assert s in swept.last && swept.last[s] == t.last[s];
    if !TooSoon(swept, w.slot, w.now) && w.slot !in swept.last && |swept.last| >= LIMIT {
      var gone :| Oldest(swept.last, gone) && next.last == (swept.last - {gone})[w.slot := w.now];
    }
  }

  /** Evicting an entry takes 4095 others no older, and the newcomer. */
  lemma EvictionIsAFlood(t: Table, ws: seq<Write>, i: nat, m: nat)
    requires i < m < |ws| && TellsTheTruth(t, ws, m) && ws[m].now >= ws[i].now
    requires EvictedBy(t, ws[m], ws[i].slot) && t.last[ws[i].slot] >= ws[i].now
    ensures Flooded(ws, i, m + 1)
  {
    var swept := Swept(t, ws[m].now).last;
    var others := swept.Keys - {ws[i].slot} + {ws[m].slot};
    assert |swept| == |swept.Keys| && |others| == |swept.Keys|;
    forall o | o in others ensures o in OthersSince(ws, i, m + 1) {
      if o != ws[m].slot {
        assert swept[o] >= swept[ws[i].slot];
        assert LatestAt(ws, m, o, t.last[o]);
      }
    }
    CardinalitySubset(others, OthersSince(ws, i, m + 1));
  }

  lemma IntervalsAreShort(kind: string)
    ensures Interval(kind) <= TTL
  {
  }

  lemma StepHolds(ts: seq<Table>, ws: seq<Write>, i: nat, m: nat)
    requires Run(ts, ws) && i < m < |ws| && Held(ts, ws, i, m)
    requires ws[m].now - ws[i].now <= TTL
    ensures Held(ts, ws, i, m + 1) || Flooded(ws, i, m + 1)
  {
    var s := ws[i].slot;
    EntriesAreLatest(ts, ws, m);
    assert LatestAt(ws, m, s, ts[m].last[s]);
    StepAt(ts, ws, m);
    EntryStays(ts[m], ws[m], ts[m + 1], s);
    if EvictedBy(ts[m], ws[m], s) {
      EvictionIsAFlood(ts[m], ws, i, m);
    }
  }

  lemma AcceptedIsEntered(t: Table, w: Write, next: Table)
    requires Step(t, w, next) && w.accepted
    ensures w.slot in next.last && next.last[w.slot] == w.now
  {
  }

  lemma {:induction false} HeldUntilFlooded(ts: seq<Table>, ws: seq<Write>, i: nat, n: nat)
    requires Run(ts, ws) && i <= n < |ws| && ws[i].accepted
    requires ws[n].now - ws[i].now <= TTL
    ensures Held(ts, ws, i, n + 1) || Flooded(ws, i, n + 1)
  {
    if n == i {
      StepAt(ts, ws, i);
      AcceptedIsEntered(ts[i], ws[i], ts[i + 1]);
    } else {
      assert ws[n - 1].now <= ws[n].now;
      HeldUntilFlooded(ts, ws, i, n - 1);
      if Flooded(ws, i, n) {
        FloodStays(ws, i, n);
      } else {
        StepHolds(ts, ws, i, n);
      }
    }
  }

  /** A slot whose entry is too new is refused. */
  lemma AcceptedMeansOld(t: Table, w: Write, next: Table)
    requires Step(t, w, next) && w.accepted && w.slot in t.last
    requires Interval(w.slot.kind) <= TTL
    ensures w.now - t.last[w.slot] >= Interval(w.slot.kind)
  {
  }

  /** Two accepted writes of one slot closer than its interval mean that at least 4096 other
      slots had a write accepted at or after the first. */
  lemma OnlyAFloodUndercuts(ts: seq<Table>, ws: seq<Write>, i: nat, j: nat)
    requires Run(ts, ws) && i < j < |ws| && ws[i].accepted && ws[j].accepted
    requires ws[i].slot == ws[j].slot && ws[j].now - ws[i].now < Interval(ws[i].slot.kind)
    ensures |OthersSince(ws, i, j)| >= 4096
  {
    IntervalsAreShort(ws[i].slot.kind);
    assert ws[j - 1].now <= ws[j].now;
    HeldUntilFlooded(ts, ws, i, j - 1);
    if Held(ts, ws, i, j) {
      StepAt(ts, ws, j);
      AcceptedMeansOld(ts[j], ws[j], ts[j + 1]);
    }
  }

  /** A write is refused only because one of the same slot was accepted less than its interval
      before: past the interval every write is accepted. */
  lemma RefusalHasACause(ts: seq<Table>, ws: seq<Write>, i: nat) returns (k: nat)
    requires Run(ts, ws) && i < |ws| && !ws[i].accepted
    ensures k < i && ws[k].slot == ws[i].slot && ws[k].accepted
    ensures ws[i].now - ws[k].now < Interval(ws[i].slot.kind)
    ensures forall j :: k < j < i ==> !(ws[j].slot == ws[i].slot && ws[j].accepted)
  {
    EntriesAreLatest(ts, ws, i);
    StepAt(ts, ws, i);
    RefusedIsTooSoon(ts[i], ws[i], ts[i + 1]);
    assert LatestAt(ws, i, ws[i].slot, ts[i].last[ws[i].slot]);
    k :| Latest(ws, i, ws[i].slot, k) && ws[k].now == ts[i].last[ws[i].slot];
  }

  lemma RefusedIsTooSoon(t: Table, w: Write, next: Table)
    requires Step(t, w, next) && !w.accepted
    ensures w.slot in t.last && w.now - t.last[w.slot] < Interval(w.slot.kind)
  {
  }

  /** The kinds that are limited, and how far apart their writes have to be. */
  lemma IntervalsAre(kind: string)
    ensures var spacing := map["post" := 5_000, "comment" := 2_000, "reaction" := 1_000, "track-id" := 3_000,
                               "profile" := 2_000];
            Interval(kind) == if kind in spacing then spacing[kind] else 0
  {
  }
}

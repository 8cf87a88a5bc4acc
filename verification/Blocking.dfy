/** Blocking playlist reloads: when a playlist answers a request, and that no publish
leaves a satisfied reader parked (section 6.2.5.2 of draft-pantos-hls-rfc8216bis). */
module Blocking {
  import opened Text
  import opened Readers

  // ---------------------------------------------------------------- availability

  /** The sequence events of a playlist with MEDIA-SEQUENCE b, one closed segment per
      entry of `closed` (its part count), and `open` parts of the next segment. */
  function Shape(b: int, closed: seq<nat>, open: nat): seq<SeqEvent> {
    [Base(b)] + Body(closed, open)
  }

  function Body(closed: seq<nat>, open: nat): seq<SeqEvent> {
    if closed == [] then PartMarks(open)
    else PartMarks(closed[0]) + [Closed] + Body(closed[1..], open)
  }

  function PartMarks(n: nat): seq<SeqEvent> {
    if n == 0 then [] else [PartMark] + PartMarks(n - 1)
  }

  /** The request is for something published: a closed segment, or a part of the open one. */
  predicate Available(b: int, k: nat, p: nat, m: int, q: int) {
    m < b + k || (m == b + k && 0 <= q < p)
  }

  lemma {:induction false} SkipParts(n: nat, rest: seq<SeqEvent>, msn: int, parts: nat, saw: bool, m: int, q: int)
    ensures HasFrom(PartMarks(n) + rest, msn, parts, saw, m, q) == HasFrom(rest, msn, parts + n, saw, m, q)
    decreases n
  {
    if n == 0 {
      assert PartMarks(0) + rest == rest;
    } else {
      var events := PartMarks(n) + rest;
      assert events[0] == PartMark && events[1..] == PartMarks(n - 1) + rest;
      SkipParts(n - 1, rest, msn, parts + 1, saw, m, q);
    }
  }

  lemma {:induction false} HasBody(closed: seq<nat>, open: nat, msn: int, m: int, q: int)
    ensures HasFrom(Body(closed, open), msn, 0, true, m, q) <==> Available(msn, |closed|, open, m, q)
    decreases |closed|
  {
    if closed == [] {
      SkipParts(open, [], msn, 0, true, m, q);
      assert PartMarks(open) + [] == PartMarks(open);
    } else {
      var rest := Body(closed[1..], open);
      SkipParts(closed[0], [Closed] + rest, msn, 0, true, m, q);
      assert Body(closed, open) == PartMarks(closed[0]) + ([Closed] + rest);
      assert ([Closed] + rest)[1..] == rest;
      HasBody(closed[1..], open, msn + 1, m, q);
    }
  }

  ghost predicate Reads(text: string, b: int, closed: seq<nat>, open: nat) {
    View(SeqView, Split(text, '\n')) == Shape(b, closed, open)
  }

  /** playlistHas answers yes exactly for what has been published. */
  lemma HasExactlyAvailable(text: string, b: int, closed: seq<nat>, open: nat, m: int, q: int)
    requires Reads(text, b, closed, open)
    ensures Has(text, m, q) <==> Available(b, |closed|, open, m, q)
  {
    var events := Shape(b, closed, open);
    assert events[0] == Base(b) && events[1..] == Body(closed, open);
    HasBody(closed, open, b, m, q);
  }

  /** Without a MEDIA-SEQUENCE line the open segment answers only as number zero. */
  lemma {:induction false} HasUnnumbered(closed: seq<nat>, open: nat, msn: nat, m: int, q: int)
    requires msn == 0 || m >= msn
    ensures HasFrom(Body(closed, open), msn, 0, false, m, q)
            <==> m < msn + |closed| || (m <= 0 && Available(msn, |closed|, open, m, q))
    decreases |closed|
  {
    if closed == [] {
      SkipParts(open, [], msn, 0, false, m, q);
      assert PartMarks(open) + [] == PartMarks(open);
    } else {
      var rest := Body(closed[1..], open);
      SkipParts(closed[0], [Closed] + rest, msn, 0, false, m, q);
      assert Body(closed, open) == PartMarks(closed[0]) + ([Closed] + rest);
      assert ([Closed] + rest)[1..] == rest;
      if m > msn {
        HasUnnumbered(closed[1..], open, msn + 1, m, q);
      }
    }
  }

  datatype Growth = AddPart | CloseSegment | Slide

  /** One step of a live playlist: a part, a closed segment, or the oldest segment leaving. */
  ghost predicate Grows(g: Growth, b: int, closed: seq<nat>, open: nat, b': int, closed': seq<nat>, open': nat) {
    match g
    case AddPart => b' == b && closed' == closed && open' == open + 1
    case CloseSegment => b' == b && closed' == closed + [open] && open' == 0
    case Slide => closed != [] && b' == b + 1 && closed' == closed[1..] && open' == open
  }

  /** Once available, always available: live growth never takes an answer back. */
  lemma AvailabilityIsStable(text: string, text': string, g: Growth, b: int, closed: seq<nat>, open: nat,
                             b': int, closed': seq<nat>, open': nat, m: int, q: int)
    requires Reads(text, b, closed, open) && Reads(text', b', closed', open')
    requires Grows(g, b, closed, open, b', closed', open')
    requires Has(text, m, q)
    ensures Has(text', m, q)
  {
    HasExactlyAvailable(text, b, closed, open, m, q);
    HasExactlyAvailable(text', b', closed', open', m, q);
  }

  // ---------------------------------------------------------------- parked readers

  datatype Want = Want(msn: int, part: int)

  datatype Reader = Parked(want: Want) | Awake(want: Want) | Answered(want: Want, answer: Answer)

  /** What a reader got, with the deadline test it made last. */
  datatype Answer = NotReady | Served(text: string, late: bool)

  /** The room's monitor: `due` counts publishes that have not broadcast yet. */
  datatype Monitor = Monitor(playlist: string, due: nat, readers: map<nat, Reader>)

  datatype Event =
    | Publish(text: string)       // the critical section of PutPlaylist
    | Broadcast                   // its wake-up, after the lock is released
    | TimerBroadcast              // a reader's own deadline timer
    | Arrive(id: nat, want: Want)
    | Check(id: nat, late: bool)  // one turn of the wait loop, under the lock

  predicate Satisfies(text: string, want: Want) {
    text != "" && (want.msn < 0 || Has(text, want.msn, want.part))
  }

  function Woken(readers: map<nat, Reader>): map<nat, Reader> {
    map id | id in readers :: if readers[id].Parked? then Awake(readers[id].want) else readers[id]
  }

  /** The wait loop's decision: an error while there is no playlist, the playlist once it
      satisfies or the deadline has passed, otherwise park. */
  function Decide(text: string, want: Want, late: bool): Reader {
    if text == "" then Answered(want, NotReady)
    else if want.msn < 0 || Has(text, want.msn, want.part) then Answered(want, Served(text, late))
    else if late then Answered(want, Served(text, late))
    else Parked(want)
  }

  predicate Enabled(m: Monitor, e: Event) {
    match e
    case Broadcast => m.due > 0
    case Arrive(id, _) => id !in m.readers
    case Check(id, _) => id in m.readers && m.readers[id].Awake?
    case _ => true
  }

  function Step(m: Monitor, e: Event): Monitor
    requires Enabled(m, e)
  {
    match e
    case Publish(text) => m.(playlist := text, due := m.due + 1)
    case Broadcast => m.(due := m.due - 1, readers := Woken(m.readers))
    case TimerBroadcast => m.(readers := Woken(m.readers))
    case Arrive(id, want) => m.(readers := m.readers[id := Awake(want)])
    case Check(id, late) => m.(readers := m.readers[id := Decide(m.playlist, m.readers[id].want, late)])
  }

  /** A parked reader is one the current playlist does not satisfy, unless a wake-up is due. */
  predicate NoLostWake(m: Monitor) {
    forall id :: id in m.readers && m.readers[id].Parked? ==>
                   m.due > 0 || (m.playlist != "" && !Satisfies(m.playlist, m.readers[id].want))
  }

  /** Every answer satisfies its request, or came after the deadline, or found no playlist. */
  predicate AnswersJustified(m: Monitor) {
    forall id :: id in m.readers && m.readers[id].Answered? ==>
                   match m.readers[id].answer
                   case NotReady => true
                   case Served(text, late) => text != "" && (Satisfies(text, m.readers[id].want) || late)
  }

  ghost predicate Run(ms: seq<Monitor>, es: seq<Event>) {
    && |ms| == |es| + 1
    && ms[0] == Monitor("", 0, map[])
    && forall i {:trigger es[i]} :: 0 <= i < |es| ==> Enabled(ms[i], es[i]) && ms[i + 1] == Step(ms[i], es[i])
  }

  lemma StepKeeps(m: Monitor, e: Event)
    requires Enabled(m, e) && NoLostWake(m) && AnswersJustified(m)
    ensures NoLostWake(Step(m, e)) && AnswersJustified(Step(m, e))
  {
  }

  /** In every run no wake-up is lost and every answer is justified. */
  lemma {:induction false} RunKeeps(ms: seq<Monitor>, es: seq<Event>)
    requires Run(ms, es)
    ensures forall i :: 0 <= i < |ms| ==> NoLostWake(ms[i]) && AnswersJustified(ms[i])
    decreases |es|
  {
    if es != [] {
      var n := |es| - 1;
      var init := ms[..n + 1];
      assert init[0] == ms[0];
      RunKeeps(init, es[..n]);
      assert init[n] == ms[n];
      StepKeeps(ms[n], es[n]);
      forall i | 0 <= i < |ms| ensures NoLostWake(ms[i]) && AnswersJustified(ms[i]) {
        if i <= n { assert init[i] == ms[i]; }
      }
    }
  }

  /** A wake-up followed by the reader's own turn delivers whatever has been published:
      from any reachable state, a parked reader whose request the playlist satisfies has a
      broadcast due, and that broadcast and one turn answer it with that playlist. */
  lemma SatisfiedReaderIsServed(ms: seq<Monitor>, es: seq<Event>, id: nat, late: bool)
    requires Run(ms, es)
    requires var m := ms[|es|]; id in m.readers && m.readers[id].Parked? && Satisfies(m.playlist, m.readers[id].want)
    ensures Enabled(ms[|es|], Broadcast)
    ensures Enabled(Step(ms[|es|], Broadcast), Check(id, late))
    ensures Step(Step(ms[|es|], Broadcast), Check(id, late)).readers[id]
         == Answered(ms[|es|].readers[id].want, Served(ms[|es|].playlist, late))
  {
    RunKeeps(ms, es);
  }

  // ---------------------------------------------------------------- what an answer was based on

  /** The playlist published last. */
  function Latest(es: seq<Event>): string {
    if es == [] then ""
    else
      var last := es[|es| - 1];
      if last.Publish? then last.text else Latest(es[..|es| - 1])
  }

  lemma TurnAt(ms: seq<Monitor>, es: seq<Event>, n: nat)
    requires Run(ms, es) && n < |es|
    ensures Enabled(ms[n], es[n]) && ms[n + 1] == Step(ms[n], es[n])
  {
  }

  lemma {:induction false} PlaylistIsLatest(ms: seq<Monitor>, es: seq<Event>, i: nat)
    requires Run(ms, es) && i <= |es|
    ensures ms[i].playlist == Latest(es[..i])
  {
    if i > 0 {
      PlaylistIsLatest(ms, es, i - 1);
      TurnAt(ms, es, i - 1);
      assert es[..i][..i - 1] == es[..i - 1];
    }
  }

  /** An answer: an error exactly when nothing was published yet, else the playlist published
      last, which names what was asked for or came after the deadline. */
  ghost predicate AnswersRight(text: string, want: Want, late: bool, a: Answer) {
    if text == "" then a == NotReady
    else a == Served(text, late) && (late || want.msn < 0 || Has(text, want.msn, want.part))
  }

  /** A reader parks exactly when there is a playlist, it does not name what was asked for and
      the deadline has not passed; otherwise it is answered. */
  ghost predicate TurnsRight(text: string, want: Want, late: bool, r: Reader) {
    if text != "" && !late && want.msn >= 0 && !Has(text, want.msn, want.part) then r == Parked(want)
    else r.Answered? && r.want == want && AnswersRight(text, want, late, r.answer)
  }

  lemma TurnIsRight(ms: seq<Monitor>, es: seq<Event>, i: nat)
    requires Run(ms, es) && i < |es| && es[i].Check?
    ensures var id := es[i].id;
            && id in ms[i].readers && id in ms[i + 1].readers
            && TurnsRight(Latest(es[..i]), ms[i].readers[id].want, es[i].late, ms[i + 1].readers[id])
  {
    PlaylistIsLatest(ms, es, i);
    TurnAt(ms, es, i);
  }

  /** Only a reader's own turn answers it, and its request is the one it came with. */
  lemma OthersTurns(m: Monitor, e: Event, id: nat)
    requires Enabled(m, e) && id in Step(m, e).readers && !(e.Check? && e.id == id)
    ensures if id in m.readers then
              && Step(m, e).readers[id].want == m.readers[id].want
              && (Step(m, e).readers[id].Answered? <==> m.readers[id].Answered?)
              && (m.readers[id].Answered? ==> Step(m, e).readers[id] == m.readers[id])
            else e.Arrive? && e.id == id && Step(m, e).readers[id] == Awake(e.want)
  {
  }

  /** In every run an answered reader got its answer at one turn of its own, from the playlist
      published last by then. */
  lemma {:induction false} AnswerCameFrom(ms: seq<Monitor>, es: seq<Event>, i: nat, id: nat) returns (k: nat)
    requires Run(ms, es) && i <= |es| && id in ms[i].readers && ms[i].readers[id].Answered?
    ensures k < i && es[k].Check? && es[k].id == id
    ensures AnswersRight(Latest(es[..k]), ms[i].readers[id].want, es[k].late, ms[i].readers[id].answer)
  {
    assert i > 0;
    var n := i - 1;
    TurnAt(ms, es, n);
    if es[n].Check? && es[n].id == id {
      TurnIsRight(ms, es, n);
      k := n;
    } else {
      OthersTurns(ms[n], es[n], id);
      k := AnswerCameFrom(ms, es, n, id);
    }
  }
}

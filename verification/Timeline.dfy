/** What the attach gate's single pass measures, against an independent reading of the
playlist as segments: every piece of media counts once, and the history is the longest
gap-free stretch at the live edge. */
module Timeline {
  import opened Text
  import opened Readers

  // ---------------------------------------------------------------- the reference reading

  /** The last EXTINF duration, -1 when there is none. */
  function LastInf(events: seq<TimeEvent>): real {
    if events == [] then -1.0
    else
      var last := events[|events| - 1];
      if last.ExtInf? then last.seconds else LastInf(events[..|events| - 1])
  }

  /** The parts that stand for media: those of positive duration. */
  function PartsIn(events: seq<TimeEvent>): seq<Unit> {
    if events == [] then []
    else
      var last := events[|events| - 1];
      PartsIn(events[..|events| - 1])
      + if last.Part? && last.duration > 0.0 then [Unit(last.duration, last.gap)] else []
  }

  predicate HasGapTag(events: seq<TimeEvent>) {
    events != [] && (events[|events| - 1].GapTag? || HasGapTag(events[..|events| - 1]))
  }

  /** A stretch in which no segment closes: a URI line counts only after an EXTINF. */
  predicate Unclosed(events: seq<TimeEvent>) {
    forall i :: 0 <= i < |events| && events[i].UriLine? ==> LastInf(events[..i]) < 0.0
  }

  /** The events of one closed segment up to its URI line. */
  predicate IsSegment(body: seq<TimeEvent>) {
    Unclosed(body) && LastInf(body) >= 0.0
  }

  /** One unit per closed segment: its EXTINF duration, a gap if its tag or any part says so. */
  function SegmentUnit(body: seq<TimeEvent>): Unit {
    Unit(LastInf(body), HasGapTag(body) || AnyGap(PartsIn(body)))
  }

  function SegmentUnits(bodies: seq<seq<TimeEvent>>): seq<Unit> {
    if bodies == [] then [] else [SegmentUnit(bodies[0])] + SegmentUnits(bodies[1..])
  }

  function Written(bodies: seq<seq<TimeEvent>>, tail: seq<TimeEvent>): seq<TimeEvent> {
    if bodies == [] then tail else bodies[0] + [UriLine] + Written(bodies[1..], tail)
  }

  // ---------------------------------------------------------------- the pass agrees

  lemma {:induction false} AbsorbedSnoc(s: Scan, a: seq<TimeEvent>, e: TimeEvent)
    requires OpenFits(s)
    ensures Absorbed(s, a + [e]) == Absorb(Absorbed(s, a), e)
    decreases |a|
  {
    if a == [] {
      assert ([] + [e])[1..] == [] && ([] + [e])[0] == e;
    } else {
      assert (a + [e])[0] == a[0] && (a + [e])[1..] == a[1..] + [e];
      AbsorbedSnoc(Absorb(s, a[0]), a[1..], e);
    }
  }

  lemma {:induction false} AbsorbedConcat(s: Scan, a: seq<TimeEvent>, b: seq<TimeEvent>)
    requires OpenFits(s)
    ensures Absorbed(s, a + b) == Absorbed(Absorbed(s, a), b)
    decreases |a|
  {
    if a == [] {
      assert a + b == b;
    } else {
      assert (a + b)[0] == a[0] && (a + b)[1..] == a[1..] + b;
      AbsorbedConcat(Absorb(s, a[0]), a[1..], b);
    }
  }

  /** Between closings the pass holds the closed units, then the open parts. */
  predicate Holds(s: Scan, done: seq<Unit>, events: seq<TimeEvent>) {
    && s.units == done + PartsIn(events) && s.openParts == |PartsIn(events)|
    && s.pending == LastInf(events) && s.pendingGap == HasGapTag(events)
  }

  lemma HoldsOneMore(s: Scan, done: seq<Unit>, events: seq<TimeEvent>, e: TimeEvent)
    requires Holds(s, done, events)
    requires e.UriLine? ==> LastInf(events) < 0.0
    ensures Holds(Absorb(s, e), done, events + [e])
  {
    assert (events + [e])[..|events|] == events && (events + [e])[|events|] == e;
    if e.Part? && e.duration > 0.0 {
      var u := Unit(e.duration, e.gap);
      assert (done + PartsIn(events)) + [u] == done + (PartsIn(events) + [u]);
    } else {
      assert PartsIn(events) + [] == PartsIn(events);
    }
  }

  lemma {:induction false} AbsorbUnclosed(done: seq<Unit>, target: real, events: seq<TimeEvent>)
    requires Unclosed(events)
    ensures Holds(Absorbed(Scan(done, -1.0, false, 0, target), events), done, events)
    decreases |events|
  {
    if events == [] {
      assert done + [] == done;
    } else {
      var n := |events| - 1;
      var init := events[..n];
      assert events == init + [events[n]];
      assert forall i :: 0 <= i < n ==> init[..i] == events[..i];
      AbsorbUnclosed(done, target, init);
      AbsorbedSnoc(Scan(done, -1.0, false, 0, target), init, events[n]);
      HoldsOneMore(Absorbed(Scan(done, -1.0, false, 0, target), init), done, init, events[n]);
    }
  }

  lemma CloseSegment(done: seq<Unit>, target: real, body: seq<TimeEvent>)
    requires IsSegment(body)
    ensures var s := Absorbed(Scan(done, -1.0, false, 0, target), body + [UriLine]);
            s == Scan(done + [SegmentUnit(body)], -1.0, false, 0, s.partTarget)
  {
    AbsorbUnclosed(done, target, body);
    AbsorbedSnoc(Scan(done, -1.0, false, 0, target), body, UriLine);
    var s := Absorbed(Scan(done, -1.0, false, 0, target), body);
    assert s.units[..|done|] == done && s.units[|done|..] == PartsIn(body);
  }

  /** The pass builds exactly the closed segments' units and then the trailing open parts. */
  lemma {:induction false} PassIsTimeline(done: seq<Unit>, target: real,
                                          bodies: seq<seq<TimeEvent>>, tail: seq<TimeEvent>)
    requires forall b :: b in bodies ==> IsSegment(b)
    requires Unclosed(tail)
    ensures Absorbed(Scan(done, -1.0, false, 0, target), Written(bodies, tail)).units
         == done + SegmentUnits(bodies) + PartsIn(tail)
    decreases |bodies|
  {
    var s := Scan(done, -1.0, false, 0, target);
    if bodies == [] {
      AbsorbUnclosed(done, target, tail);
      assert done + [] == done;
    } else {
      var rest := bodies[1..];
      assert bodies[0] in bodies && forall b :: b in rest ==> b in bodies;
      CloseSegment(done, target, bodies[0]);
      AbsorbedConcat(s, bodies[0] + [UriLine], Written(rest, tail));
      var s1 := Absorbed(s, bodies[0] + [UriLine]);
      PassIsTimeline(done + [SegmentUnit(bodies[0])], s1.partTarget, rest, tail);
      Regroup(done, [SegmentUnit(bodies[0])], SegmentUnits(rest));
    }
  }

  /** Every playlist reads as closed segments and an unclosed tail. */
  lemma {:induction false} EveryPlaylistSplits(events: seq<TimeEvent>)
    returns (bodies: seq<seq<TimeEvent>>, tail: seq<TimeEvent>)
    ensures forall b :: b in bodies ==> IsSegment(b)
    ensures Unclosed(tail)
    ensures events == Written(bodies, tail)
    decreases |events|
  {
    if Unclosed(events) {
      bodies, tail := [], events;
    } else {
      var j :| 0 <= j < |events| && events[j].UriLine? && LastInf(events[..j]) >= 0.0;
      assert Closing(events, j);
      var i := FirstClosing(events, |events|);
      var rest := events[i + 1..];
      var more;
      more, tail := EveryPlaylistSplits(rest);
      bodies := [events[..i]] + more;
      assert bodies[1..] == more;
      assert events == events[..i] + [UriLine] + rest;
    }
  }

  predicate Closing(events: seq<TimeEvent>, i: nat)
    requires i < |events|
  {
    events[i].UriLine? && LastInf(events[..i]) >= 0.0
  }

  /** The first URI line, of the first `n` events, that closes a segment. */
  lemma {:induction false} FirstClosing(events: seq<TimeEvent>, n: nat) returns (i: nat)
    requires n <= |events| && exists j :: 0 <= j < n && Closing(events, j)
    ensures i < n && events[i].UriLine? && IsSegment(events[..i])
  {
    if exists j :: 0 <= j < n - 1 && Closing(events, j) {
      i := FirstClosing(events, n - 1);
    } else {
      i := n - 1;
      var k :| 0 <= k < n && Closing(events, k);
      assert k == i;
      forall j | 0 <= j < i && events[..i][j].UriLine? ensures LastInf(events[..i][..j]) < 0.0 {
        assert events[..i][..j] == events[..j] && !Closing(events, j);
      }
    }
  }

  // ---------------------------------------------------------------- the history

  function Total(units: seq<Unit>): real {
    if units == [] then 0.0 else Total(units[..|units| - 1]) + units[|units| - 1].duration
  }

  /** `k` starts the longest gap-free stretch at the end. */
  predicate LiveFrom(units: seq<Unit>, k: nat) {
    k <= |units| && (forall i :: k <= i < |units| ==> !units[i].gap) && (k > 0 ==> units[k - 1].gap)
  }

  lemma {:induction false} RealSuffixIsLongest(units: seq<Unit>) returns (k: nat)
    ensures LiveFrom(units, k)
    ensures RealSuffix(units) == Total(units[k..])
    ensures forall j :: LiveFrom(units, j) ==> j == k
  {
    if units == [] || units[|units| - 1].gap {
      k := |units|;
    } else {
      var n := |units| - 1;
      k := RealSuffixIsLongest(units[..n]);
      assert units[k..][..n - k] == units[..n][k..];
      forall j | LiveFrom(units, j) ensures j == k {
        assert LiveFrom(units[..n], j);
      }
    }
  }

  /** RealHistory is the duration of the longest gap-free suffix of the closed segments
      followed by the open parts, each piece of media counted once. */
  lemma HistoryIsLongestRealSuffix(env: Env, text: string)
    returns (bodies: seq<seq<TimeEvent>>, tail: seq<TimeEvent>, k: nat)
    ensures View(line => TimeView(env, line), Split(text, '\n')) == Written(bodies, tail)
    ensures (forall b :: b in bodies ==> IsSegment(b)) && Unclosed(tail)
    ensures LiveFrom(SegmentUnits(bodies) + PartsIn(tail), k)
    ensures MeasureOf(env, text).realHistory == Total((SegmentUnits(bodies) + PartsIn(tail))[k..])
    ensures MeasureOf(env, text).gapHistory == GapTotal(SegmentUnits(bodies) + PartsIn(tail))
  {
    var events := View(line => TimeView(env, line), Split(text, '\n'));
    bodies, tail := EveryPlaylistSplits(events);
    PassIsTimeline([], 0.0, bodies, tail);
    var units := SegmentUnits(bodies) + PartsIn(tail);
    assert [] + SegmentUnits(bodies) + PartsIn(tail) == units;
    k := RealSuffixIsLongest(units);
  }

  // ---------------------------------------------------------------- gaps and the part target

  function OnlyGaps(units: seq<Unit>): seq<Unit> {
    if units == [] then []
    else OnlyGaps(units[..|units| - 1]) + if units[|units| - 1].gap then [units[|units| - 1]] else []
  }

  /** GapHistory is the duration of the gaps, wherever they stand. */
  lemma {:induction false} GapTotalIsOfGaps(units: seq<Unit>)
    ensures GapTotal(units) == Total(OnlyGaps(units))
  {
    if units != [] {
      var init, last := OnlyGaps(units[..|units| - 1]), units[|units| - 1];
      GapTotalIsOfGaps(units[..|units| - 1]);
      assert (init + [last])[..|init|] == init;
      assert init + [] == init;
    }
  }

  /** The part target declared last, zero without any. */
  function LastTarget(events: seq<TimeEvent>): real {
    if events == [] then 0.0
    else
      var last := events[|events| - 1];
      if last.PartTarget? then last.seconds else LastTarget(events[..|events| - 1])
  }

  lemma {:induction false} TargetIsLast(events: seq<TimeEvent>)
    ensures Absorbed(START, events).partTarget == LastTarget(events)
  {
    if events != [] {
      var init, last := events[..|events| - 1], events[|events| - 1];
      TargetIsLast(init);
      AbsorbedSnoc(START, init, last);
      assert events == init + [last];
    }
  }

  lemma MeasuredTarget(env: Env, text: string)
    ensures MeasureOf(env, text).partTarget == LastTarget(View(line => TimeView(env, line), Split(text, '\n')))
  {
    TargetIsLast(View(line => TimeView(env, line), Split(text, '\n')));
  }
}

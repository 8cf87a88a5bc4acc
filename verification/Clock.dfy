/** The clock bridge: the four-timestamp offset estimate (section 8 of RFC 5905) and the
source time the origin serves from it, in milliseconds over the reals. `Millis` is what a
wall clock puts on the wire: whole milliseconds, rounded down. */
module Clock {
  import opened Text

  function Millis(t: real): real {
    t.Floor as real
  }

  function Max0(x: real): real {
    if x > 0.0 then x else 0.0
  }

  function Abs(x: real): real {
    if x < 0.0 then -x else x
  }

  /** What the Mac publishes. */
  datatype Sample = Sample(offset: real, uncertainty: real, sampled: real)

  /** calibrateClockTo: `start` and `end` are source wall clock readings around the exchange,
      `elapsed` its monotonic duration, `received` and `sent` the origin's answer. */
  function Calibrate(start: real, end: real, elapsed: real, received: real, sent: real): Option<Sample> {
    var wallElapsed := Millis(end) - Millis(start);
    var rtt := elapsed - (sent - received);
    if received <= 0.0 || sent < received || rtt < -2.0 || rtt > 500.0 || Abs(elapsed - wallElapsed) > 10.0 then None
    else
      Some(Sample(((received - Millis(start)) + (sent - Millis(end))) / 2.0, Max0(rtt) / 2.0 + 1.0, sent))
  }

  /** The true course of one exchange: source and origin clocks run at one rate, `theta`
      apart, and both network delays are non-negative. */
  datatype Exchange = Exchange(start: real, there: real, serving: real, back: real, theta: real)

  predicate Physical(x: Exchange) {
    x.there >= 0.0 && x.serving >= 0.0 && x.back >= 0.0
  }

  function Received(x: Exchange): real {
    Millis(x.start + x.there + x.theta)
  }

  function Sent(x: Exchange): real {
    Millis(x.start + x.there + x.serving + x.theta)
  }

  function End(x: Exchange): real {
    x.start + x.there + x.serving + x.back
  }

  function Measured(x: Exchange): Option<Sample> {
    Calibrate(x.start, End(x), End(x) - x.start, Received(x), Sent(x))
  }

  lemma MillisBounds(t: real)
    ensures Millis(t) <= t < Millis(t) + 1.0
  {
  }

  lemma MillisMonotone(s: real, t: real)
    requires s <= t
    ensures Millis(s) <= Millis(t)
  {
    var a, b := s.Floor, t.Floor;
    MillisBounds(s);
    MillisBounds(t);
    assert a as real < (b + 1) as real;
    assert a < b + 1;
  }

  /** The published uncertainty covers the offset error, all four roundings included. */
  lemma OffsetWithinUncertainty(x: Exchange)
    requires Physical(x) && Measured(x).Some?
    ensures Abs(Measured(x).value.offset - x.theta) < Measured(x).value.uncertainty
  {
    MillisBounds(x.start);
    MillisBounds(x.start + x.there + x.theta);
    MillisBounds(x.start + x.there + x.serving + x.theta);
    MillisBounds(End(x));
    var s := Measured(x).value;
    var rtt := End(x) - x.start - (Sent(x) - Received(x));
    var twice := (Received(x) - Millis(x.start)) + (Sent(x) - Millis(End(x)));
    assert s.offset == twice / 2.0;
    assert twice - 2.0 * x.theta < rtt + 2.0;
    assert twice - 2.0 * x.theta > -rtt - 2.0;
  }

  // ---------------------------------------------------------------- the origin's anchor

  datatype Anchor = Anchor(at: real, sourceMs: real, uncertainty: real)

  /** publishClock: a stale sample is refused, however recently it arrived. */
  function Anchored(s: Sample, now: real): Option<Anchor> {
    var age := Millis(now) - s.sampled;
    if s.uncertainty < 0.0 || s.uncertainty > 1000.0 || age < -2.0 || age > 10000.0 then None
    else Some(Anchor(now, Millis(now) - s.offset, s.uncertainty + Max0(age) * 0.0001))
  }

  datatype SourceReading = Reading(ms: real, uncertainty: real) | Unavailable

  /** SourceTime: `now` and `wallNow` are the monotonic and the wall clock. */
  function SourceTime(clock: Option<Anchor>, now: real, wallNow: real): SourceReading {
    match clock
    case None => Unavailable
    case Some(a) =>
      var age := now - a.at;
      if age < 0.0 || age > 15000.0 || Abs(Millis(wallNow) - Millis(a.at) - age) > 100.0 then Unavailable
      else Reading(a.sourceMs + age, a.uncertainty + age * 0.0001)
  }

  /** What the origin reports is within its reported uncertainty plus one millisecond of the
      true source time, for as long as it reports anything. */
  lemma SourceTimeWithinUncertainty(x: Exchange, published: real, now: real)
    requires Physical(x) && Measured(x).Some?
    requires Anchored(Measured(x).value, published).Some?
    requires SourceTime(Anchored(Measured(x).value, published), now, now).Reading?
    ensures var r := SourceTime(Anchored(Measured(x).value, published), now, now);
            Abs(r.ms - (now - x.theta)) < r.uncertainty + 1.0
  {
    OffsetWithinUncertainty(x);
    MillisBounds(published);
    var s := Measured(x).value;
    var a := Anchored(s, published).value;
    assert a.uncertainty >= s.uncertainty;
    assert a.sourceMs + (now - published) - (now - x.theta) == (Millis(published) - published) + (x.theta - s.offset);
  }

  /** A refused exchange: the origin never left its clock behind, the round trip was too
      slow, or one of the source's two clocks stepped. Otherwise the sample is usable. */
  lemma CalibrateAcceptsExactly(x: Exchange)
    requires Physical(x)
    ensures Measured(x).Some? <==>
            Received(x) > 0.0 && x.there + x.serving + x.back - (Sent(x) - Received(x)) <= 500.0
  {
    var there := x.start + x.there + x.theta;
    MillisMonotone(there, there + x.serving);
    MillisBounds(there);
    MillisBounds(there + x.serving);
    assert Sent(x) == Millis(there + x.serving);
    assert Received(x) <= Sent(x) < Received(x) + x.serving + 1.0;
    MillisBounds(x.start);
    MillisBounds(End(x));
    assert Abs(End(x) - x.start - (Millis(End(x)) - Millis(x.start))) <= 10.0;
  }

  /** When the origin serves the source time: from a sample no older than ten seconds at its
      arrival, and for fifteen seconds after; both clocks of the origin running evenly. */
  lemma ServedExactly(x: Exchange, published: real, now: real)
    requires Physical(x) && Measured(x).Some?
    ensures var anchor := Anchored(Measured(x).value, published);
            && (anchor.Some? <==> -2.0 <= Millis(published) - Sent(x) <= 10000.0)
            && (SourceTime(anchor, now, now).Reading? <==> anchor.Some? && 0.0 <= now - published <= 15000.0)
  {
    MillisBounds(published);
    MillisBounds(now);
  }

  /** A clock that stepped by more than a tenth of a second since the sample arrived serves
      nothing, and neither does a room without a sample. */
  lemma SteppedServesNothing(anchor: Option<Anchor>, now: real, wallNow: real)
    ensures anchor.None? ==> SourceTime(anchor, now, wallNow).Unavailable?
    ensures anchor.Some? && Abs((Millis(wallNow) - Millis(anchor.value.at)) - (now - anchor.value.at)) > 100.0
            ==> SourceTime(anchor, now, wallNow).Unavailable?
  {
  }
}

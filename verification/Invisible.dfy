/** The schedule rewrite is invisible: every reader of a playlist gives the same answer
before and after, and rewriting twice is rewriting once. */
module Invisible {
  import opened Text
  import opened Readers
  import opened Schedule

  function Lines(text: string): seq<string> {
    Split(text, '\n')
  }

  predicate Authored(line: string) {
    IsPin(line) || IsClock(line) || IsControl(line)
  }

  /** A reader that takes nothing from the lines the schedule authors. */
  ghost predicate Blind<E(!new)>(v: string -> Option<E>) {
    v("").None? && forall l :: Authored(l) ==> v(l).None?
  }

  // ---------------------------------------------------------------- per transformation

  lemma {:induction false} DroppingUnseen<E>(v: string -> Option<E>, p: string -> bool, lines: seq<string>)
    requires forall l :: p(l) ==> v(l).None?
    ensures View(v, Dropping(p, lines)) == View(v, lines)
  {
    if lines != [] {
      DroppingUnseen(v, p, lines[1..]);
      var rest := Dropping(p, lines[1..]);
      assert ([lines[0]] + rest)[1..] == rest;
    }
  }

  lemma {:induction false} MapUnseen<E>(v: string -> Option<E>, f: string -> string, lines: seq<string>)
    requires forall l :: v(f(l)) == v(l)
    ensures View(v, Map(f, lines)) == View(v, lines)
  {
    if lines != [] {
      MapUnseen(v, f, lines[1..]);
      assert Map(f, lines)[1..] == Map(f, lines[1..]);
    }
  }

  lemma EmittedUnseen<E>(v: string -> Option<E>, env: Env, line: string, bucket: Option<int>)
    requires forall l :: IsClock(l) ==> v(l).None?
    ensures View(v, Emitted(env, line, bucket).0) == View(v, [line])
  {
    var e := Emitted(env, line, bucket).0;
    if |e| == 2 {
      ClockLineIsClock(StampOf(env, line).value, DateOf(line));
      assert e == [line] + [e[1]];
      ViewConcat(v, [line], [e[1]]);
    }
  }

  lemma {:induction false} ClockedUnseen<E>(v: string -> Option<E>, env: Env, lines: seq<string>, bucket: Option<int>)
    requires forall l :: IsClock(l) ==> v(l).None?
    ensures View(v, Clocked(env, lines, bucket)) == View(v, lines)
  {
    if lines != [] {
      var e := Emitted(env, lines[0], bucket);
      ClockedStep(env, lines, bucket);
      EmittedUnseen(v, env, lines[0], bucket);
      ClockedUnseen(v, env, lines[1..], e.1);
      ViewConcat(v, e.0, Clocked(env, lines[1..], e.1));
      ViewConcat(v, [lines[0]], lines[1..]);
      assert [lines[0]] + lines[1..] == lines;
    }
  }

  lemma ClockLineIsClock(millis: int, date: string)
    ensures IsClock(ClockLine(millis, date))
  {
  }

  lemma HoldUnseen<E(!new)>(v: string -> Option<E>, env: Env)
    requires Blind(v)
    ensures forall l :: v(Holder(env)(l)) == v(l)
  {
    forall l ensures v(HoldLine(env, l)) == v(l) {
      if IsControl(l) && !AnyDemands(env, Attrs(l)) {
        HoldLineAttrs(env, l);
      }
    }
  }

  lemma InsertedUnseen<E>(v: string -> Option<E>, head: seq<string>, line: string, tail: seq<string>)
    requires v(line).None?
    ensures View(v, head + [line] + tail) == View(v, head + tail)
  {
    ViewConcat(v, head + [line], tail);
    ViewConcat(v, head, [line]);
    ViewConcat(v, head, tail);
    assert View(v, [line]) == [];
  }

  lemma PinnedUnseen<E(!new)>(v: string -> Option<E>, lines: seq<string>)
    requires Blind(v)
    ensures View(v, Pinned(lines)) == View(v, lines)
  {
    var kept := Dropping(IsPin, lines);
    var head, tail := kept[..PinAfter(kept)], kept[PinAfter(kept)..];
    DroppingUnseen(v, IsPin, lines);
    PinLineIsPin();
    InsertedUnseen(v, head, PIN_LINE, tail);
    assert head + tail == kept;
  }

  // ---------------------------------------------------------------- lines stay lines

  lemma {:induction false} JoinLacks(parts: seq<string>, sep: char, c: char)
    requires Clean(parts, c) && sep != c
    ensures c !in Join(parts, sep)
  {
    if |parts| > 0 {
      assert parts[0] in parts;
      if |parts| > 1 {
        assert forall p :: p in parts[1..] ==> p in parts;
        JoinLacks(parts[1..], sep, c);
      }
    }
  }

  lemma HoldLineClean(env: Env, line: string)
    requires '\n' !in line
    ensures '\n' !in HoldLine(env, line)
  {
    if IsControl(line) && !AnyDemands(env, Attrs(line)) {
      var attrs := Attrs(line);
      SplitLacks(line[|CONTROL|..], ',', '\n');
      FlooredIsClean(attrs, '\n');
      JoinLacks(Map(Floored, attrs), ',', '\n');
    }
  }

  lemma {:induction false} SplitLacks(s: string, sep: char, c: char)
    requires c !in s
    ensures Clean(Split(s, sep), c)
  {
    if s != "" {
      SplitLacks(s[1..], sep, c);
      var r := Split(s[1..], sep);
      assert r[0] in r && s[0] in s;
    }
  }

  /** A clock line the rewrite itself wrote. */
  ghost predicate FreshClock(line: string) {
    IsClock(line) && '\n' !in line && OnlyFirst(line, '#')
  }

  lemma ClassPlain()
    ensures '#' !in CLASS && '\n' !in CLASS
  {
    assert forall i :: 0 <= i < |CLASS| ==> CLASS[i] != '#' && CLASS[i] != '\n';
  }

  lemma DurationPlain()
    ensures '#' !in DURATION && '\n' !in DURATION
  {
    assert forall i :: 0 <= i < |DURATION| ==> DURATION[i] != '#' && DURATION[i] != '\n';
  }

  lemma AllLack(a: string, b: string, c: string, d: string, e: string, f: string, x: char)
    requires x !in a && x !in b && x !in c && x !in d && x !in e && x !in f
    ensures x !in a + b + c + d + e + f
  {
  }

  lemma ClockValuePlain(millis: int, date: string)
    requires '#' !in date && '\n' !in date
    ensures '#' !in ClockValue(millis, date) && '\n' !in ClockValue(millis, date)
  {
    DecimalIsPlain(millis);
    var n := Decimal(millis);
    ClassPlain();
    DurationPlain();
    AllLack(n, CLASS, date, DURATION, n, "\"", '#');
    AllLack(n, CLASS, date, DURATION, n, "\"", '\n');
  }

  lemma ClockOnlyFirst()
    ensures CLOCK != "" && OnlyFirst(CLOCK, '#') && '\n' !in CLOCK
  {
  }

  lemma ClockLineFresh(env: Env, millis: int, date: string)
    requires '#' !in date && '\n' !in date
    ensures FreshClock(ClockLine(millis, date))
  {
    ClockValuePlain(millis, date);
    ClockOnlyFirst();
    OnlyFirstConcat(CLOCK, ClockValue(millis, date), '#');
  }

  lemma EmittedOrigin(env: Env, line: string, bucket: Option<int>)
    requires Sound(env)
    ensures var e := Emitted(env, line, bucket).0;
            e == [] || e == [line] || (|e| == 2 && e[0] == line && FreshClock(e[1]))
  {
    if !IsClock(line) && StampOf(env, line).Some? {
      ClockLineFresh(env, StampOf(env, line).value, DateOf(line));
    }
  }

  /** Every line the clock pass emits was there already or is a clock line. */
  lemma {:induction false} ClockedOrigin(env: Env, lines: seq<string>, bucket: Option<int>)
    requires Sound(env)
    ensures forall l :: l in Clocked(env, lines, bucket) ==> l in lines || FreshClock(l)
  {
    if lines != [] {
      var next := Emitted(env, lines[0], bucket).1;
      ClockedStep(env, lines, bucket);
      EmittedOrigin(env, lines[0], bucket);
      ClockedOrigin(env, lines[1..], next);
      forall l | l in Clocked(env, lines, bucket) ensures l in lines || FreshClock(l) {
        if l !in Emitted(env, lines[0], bucket).0 {
          assert l in Clocked(env, lines[1..], next) && forall x :: x in lines[1..] ==> x in lines;
        }
      }
    }
  }

  lemma MapHeldClean(env: Env, lines: seq<string>)
    requires Clean(lines, '\n')
    ensures Clean(Map(Holder(env), lines), '\n')
  {
    forall p | p in Map(Holder(env), lines) ensures '\n' !in p {
      var i :| 0 <= i < |lines| && Map(Holder(env), lines)[i] == p;
      assert lines[i] in lines;
      HoldLineClean(env, lines[i]);
    }
  }

  lemma PinnedClean(lines: seq<string>)
    requires Clean(lines, '\n')
    ensures Clean(Pinned(lines), '\n')
  {
    DroppingMembers(IsPin, lines);
    var kept := Dropping(IsPin, lines);
    assert Pinned(lines) == kept[..PinAfter(kept)] + [PIN_LINE] + kept[PinAfter(kept)..];
    PinLinePlain();
  }

  lemma PinLinePlain()
    ensures '\n' !in PIN_LINE
  {
    assert forall i :: 0 <= i < |PIN_LINE| ==> PIN_LINE[i] != '\n';
  }

  /** Joining and splitting again is unseen even when no line is left. */
  lemma RejoinUnseen<E>(v: string -> Option<E>, lines: seq<string>)
    requires Clean(lines, '\n') && v("").None?
    ensures View(v, Lines(Join(lines, '\n'))) == View(v, lines)
  {
    if lines == [] {
      assert Lines("") == [""];
      assert [""][1..] == [];
    } else {
      SplitJoin(lines, '\n');
    }
  }

  lemma ClockTextUnseen<E(!new)>(v: string -> Option<E>, env: Env, text: string)
    requires Blind(v) && Sound(env)
    ensures View(v, Lines(ClockText(env, text))) == View(v, Lines(text))
  {
    if Contains(text, STAMP) {
      var c := Clocked(env, Lines(text), None);
      SplitClean(text, '\n');
      ClockedOrigin(env, Lines(text), None);
      RejoinUnseen(v, c);
      ClockedUnseen(v, env, Lines(text), None);
    }
  }

  /** The rewrite is unseen by every reader that ignores authored lines. */
  lemma RewriteUnseen<E(!new)>(v: string -> Option<E>, env: Env, text: string)
    requires Blind(v) && Sound(env)
    ensures View(v, Lines(Rewrite(env, text))) == View(v, Lines(text))
  {
    SplitClean(text, '\n');
    if Contains(text, STREAM) {
      PinnedClean(Lines(text));
      RejoinUnseen(v, Pinned(Lines(text)));
      PinnedUnseen(v, Lines(text));
    } else if Contains(text, CONTROL) {
      var held := Map(Holder(env), Lines(text));
      MapHeldClean(env, Lines(text));
      RejoinUnseen(v, held);
      HoldUnseen(v, env);
      MapUnseen(v, Holder(env), Lines(text));
      ClockTextUnseen(v, env, Join(held, '\n'));
    }
  }

  // ---------------------------------------------------------------- the readers are blind

  /** What every authored line looks like to a reader: a tag none of them asks for. */
  predicate OtherTag(t: string) {
    && IsComment(t) && t != "#EXT-X-GAP"
    && !("#EXT-X-STREAM-INF:" <= t) && !("#EXT-X-MAP:" <= t) && !("#EXT-X-PART:" <= t)
    && !("#EXT-X-PRELOAD-HINT:" <= t) && !("#EXT-X-MEDIA-SEQUENCE:" <= t) && !("#EXTINF:" <= t)
    && !("#EXT-X-PART-INF:" <= t)
  }

  lemma PinIsOther(line: string)
    requires IsPin(line)
    ensures OtherTag(Trim(line))
  {
    TrimKeepsPrefix(line, PIN);
    var t := Trim(line);
    assert t[4] == '-' && t[7] == 'S' && t[8] == 'T' && t[9] == 'A';
  }

  lemma ClockIsOther(line: string)
    requires IsClock(line)
    ensures OtherTag(Trim(line))
  {
    TrimKeepsPrefix(line, CLOCK);
    var t := Trim(line);
    assert t[4] == '-' && t[7] == 'D';
  }

  lemma ControlIsOther(line: string)
    requires IsControl(line)
    ensures OtherTag(Trim(line)) && CONTROL <= Trim(line)
  {
    TrimKeepsPrefix(line, CONTROL);
    var t := Trim(line);
    assert t[4] == '-' && t[7] == 'S' && t[8] == 'E';
  }

  lemma AuthoredIsOther(line: string)
    requires Authored(line)
    ensures OtherTag(Trim(line))
  {
    if IsPin(line) { PinIsOther(line); }
    else if IsClock(line) { ClockIsOther(line); }
    else { ControlIsOther(line); }
  }

  lemma VariantBlind()
    ensures Blind(VariantView)
  {
    forall l | Authored(l) ensures VariantView(l).None? { AuthoredIsOther(l); }
  }

  lemma RefBlind()
    ensures Blind(RefView)
  {
    forall l | Authored(l) ensures RefView(l).None? { AuthoredIsOther(l); }
  }

  lemma MapBlind()
    ensures Blind(MapView)
  {
    forall l | Authored(l) ensures MapView(l).None? { AuthoredIsOther(l); }
  }

  lemma SeqBlind()
    ensures Blind(SeqView)
  {
    forall l | Authored(l) ensures SeqView(l).None? { AuthoredIsOther(l); }
  }

  lemma TimeBlind(env: Env)
    ensures Blind(line => TimeView(env, line))
  {
    forall l | Authored(l) ensures TimeView(env, l).None? { AuthoredIsOther(l); }
  }

  // ---------------------------------------------------------------- invisibility, reader by reader

  lemma SameFirstVariant(env: Env, text: string)
    requires Sound(env)
    ensures FirstVariantOf(Rewrite(env, text)) == FirstVariantOf(text)
  {
    VariantBlind();
    RewriteUnseen(VariantView, env, text);
  }

  lemma SameMediaNames(env: Env, text: string)
    requires Sound(env)
    ensures MediaNamesOf(Lines(Rewrite(env, text))) == MediaNamesOf(Lines(text))
  {
    RefBlind();
    RewriteUnseen(RefView, env, text);
  }

  lemma SameMapUris(env: Env, text: string)
    requires Sound(env)
    ensures MapUrisOf(Rewrite(env, text)) == MapUrisOf(text)
  {
    MapBlind();
    RewriteUnseen(MapView, env, text);
  }

  lemma SameAvailability(env: Env, text: string, msn: int, part: int)
    requires Sound(env)
    ensures Has(Rewrite(env, text), msn, part) == Has(text, msn, part)
  {
    SeqBlind();
    RewriteUnseen(SeqView, env, text);
  }

  lemma SameMeasure(env: Env, text: string)
    requires Sound(env)
    ensures MeasureOf(env, Rewrite(env, text)) == MeasureOf(env, text)
  {
    TimeBlind(env);
    RewriteUnseen(line => TimeView(env, line), env, text);
  }

  // ---------------------------------------------------------------- rewriting twice

  /** The stream tag occurs, but only inside attachment pins, which the rewrite drops. */
  predicate Disguised(text: string) {
    Contains(text, STREAM) && forall l :: l in Lines(text) && !IsPin(l) ==> !Contains(l, STREAM)
  }

  lemma PinLineHasNoStream()
    ensures !Contains(PIN_LINE, STREAM)
  {
    assert PIN_LINE[9] == 'A' && STREAM[9] == 'R';
    assert OnlyFirst(PIN_LINE, '#');
    ContainsAfter(PIN_LINE, "", STREAM, '#', 9);
    ContainsNeeds("", STREAM, '#');
    assert PIN_LINE + "" == PIN_LINE;
  }

  lemma ClockHasNoStream(line: string)
    requires FreshClock(line)
    ensures !Contains(line, STREAM)
  {
    assert line[7] == CLOCK[7] == 'D' && STREAM[7] == 'S';
    ContainsAfter(line, "", STREAM, '#', 7);
    ContainsNeeds("", STREAM, '#');
    assert line + "" == line;
  }

  lemma FlooredAddsNoStream(attrs: seq<string>)
    ensures AnyContains(Map(Floored, attrs), STREAM) ==> AnyContains(attrs, STREAM)
  {
    FloorPlain();
    ContainsNeeds(Floor(), STREAM, '#');
    var m := Map(Floored, attrs);
    if AnyContains(m, STREAM) {
      var a :| a in m && Contains(a, STREAM);
      var i :| 0 <= i < |attrs| && m[i] == a;
      assert attrs[i] in attrs && a == attrs[i];
    }
  }

  lemma ControlThenStream(tail: string)
    ensures Contains(CONTROL + tail, STREAM) ==> Contains(tail, STREAM)
  {
    assert CONTROL[8] == 'E' && STREAM[8] == 'T';
    assert OnlyFirst(CONTROL, '#');
    ContainsAfter(CONTROL, tail, STREAM, '#', 8);
  }

  lemma HoldAddsNoStream(env: Env, line: string)
    ensures Contains(HoldLine(env, line), STREAM) ==> Contains(line, STREAM)
  {
    if IsControl(line) && !AnyDemands(env, Attrs(line)) {
      var attrs := Attrs(line);
      var tail := line[|CONTROL|..];
      assert ',' !in STREAM;
      ControlThenStream(Join(Map(Floored, attrs), ','));
      ContainsJoin(Map(Floored, attrs), ',', STREAM);
      FlooredAddsNoStream(attrs);
      ContainsSplit(tail, ',', STREAM);
      assert line[|CONTROL|..|line|] == tail;
      if Contains(tail, STREAM) { ContainsSub(line, |CONTROL|, |line|, STREAM); }
    }
  }

  lemma PinnedHasStream(lines: seq<string>)
    ensures AnyContains(Pinned(lines), STREAM) <==> exists l :: l in lines && !IsPin(l) && Contains(l, STREAM)
  {
    var kept := Dropping(IsPin, lines);
    DroppingMembers(IsPin, lines);
    PinLineHasNoStream();
    assert Pinned(lines) == kept[..PinAfter(kept)] + [PIN_LINE] + kept[PinAfter(kept)..];
    assert kept == kept[..PinAfter(kept)] + kept[PinAfter(kept)..];
    assert forall l :: l in Pinned(lines) <==> l in kept || l == PIN_LINE;
  }

  lemma HeldTwice(env: Env, lines: seq<string>)
    requires Sound(env)
    ensures Map(Holder(env), Map(Holder(env), lines)) == Map(Holder(env), lines)
  {
    var m := Map(Holder(env), lines);
    forall i | 0 <= i < |lines| ensures Map(Holder(env), m)[i] == m[i] {
      HoldLineIdempotent(env, lines[i]);
    }
  }

  /** Clock lines and held lines are left alone by the hold-back pass. */
  lemma ClockedStaysHeld(env: Env, held: seq<string>)
    requires Sound(env) && Map(Holder(env), held) == held
    ensures var c := Clocked(env, held, None); Map(Holder(env), c) == c
  {
    var c := Clocked(env, held, None);
    ClockedOrigin(env, held, None);
    forall i | 0 <= i < |c| ensures HoldLine(env, c[i]) == c[i] {
      assert c[i] in c;
      if c[i] in held {
        var j :| 0 <= j < |held| && held[j] == c[i];
        assert Map(Holder(env), held)[j] == HoldLine(env, held[j]);
      } else {
        ClockIsNotControl(c[i]);
      }
    }
  }

  lemma ClockIsNotControl(line: string)
    requires IsClock(line)
    ensures !IsControl(line)
  {
    assert line[7] == CLOCK[7] && CONTROL[7] != CLOCK[7];
  }

  lemma MediaRewriteTwice(env: Env, text: string)
    requires Sound(env)
    ensures MediaRewrite(env, MediaRewrite(env, text)) == MediaRewrite(env, text)
  {
    if Contains(text, CONTROL) {
      var held := Map(Holder(env), Lines(text));
      var joined := Join(held, '\n');
      SplitClean(text, '\n');
      MapHeldClean(env, Lines(text));
      SplitJoin(held, '\n');
      HeldTwice(env, Lines(text));
      if Contains(joined, STAMP) {
        var c := Clocked(env, held, None);
        ClockedOrigin(env, held, None);
        ClockedStaysHeld(env, held);
        ClockedIdempotent(env, held, None);
        if c == [] {
          ContainsNeeds("", CONTROL, '#');
        } else {
          SplitJoin(c, '\n');
        }
      }
    }
  }

  lemma HeldHasNoStream(env: Env, lines: seq<string>)
    requires !AnyContains(lines, STREAM)
    ensures !AnyContains(Map(Holder(env), lines), STREAM)
  {
    var held := Map(Holder(env), lines);
    forall l | l in held ensures !Contains(l, STREAM) {
      var i :| 0 <= i < |lines| && held[i] == l;
      assert lines[i] in lines;
      HoldAddsNoStream(env, lines[i]);
    }
  }

  lemma ClockedHasNoStream(env: Env, lines: seq<string>)
    requires Sound(env) && !AnyContains(lines, STREAM)
    ensures !AnyContains(Clocked(env, lines, None), STREAM)
  {
    ClockedOrigin(env, lines, None);
    forall l | l in Clocked(env, lines, None) ensures !Contains(l, STREAM) {
      if l !in lines { ClockHasNoStream(l); }
    }
  }

  lemma MediaRewriteAddsNoStream(env: Env, text: string)
    requires Sound(env) && !Contains(text, STREAM)
    ensures !Contains(MediaRewrite(env, text), STREAM)
  {
    if Contains(text, CONTROL) {
      var held := Map(Holder(env), Lines(text));
      SplitClean(text, '\n');
      MapHeldClean(env, Lines(text));
      SplitJoin(held, '\n');
      assert '\n' !in STREAM;
      ContainsSplit(text, '\n', STREAM);
      HeldHasNoStream(env, Lines(text));
      ContainsJoin(held, '\n', STREAM);
      ClockedHasNoStream(env, held);
      ContainsJoin(Clocked(env, held, None), '\n', STREAM);
    }
  }

  /** Rewriting twice is rewriting once, with one exception that a caller can see: a text
      whose stream tag hides in an attachment pin is a media playlist the second time. */
  lemma RewriteTwice(env: Env, text: string)
    requires Sound(env)
    ensures Rewrite(env, Rewrite(env, text))
         == if Disguised(text) then MediaRewrite(env, Rewrite(env, text)) else Rewrite(env, text)
  {
    if Contains(text, STREAM) {
      var lines := Lines(text);
      SplitClean(text, '\n');
      PinnedClean(lines);
      SplitJoin(Pinned(lines), '\n');
      ContainsJoin(Pinned(lines), '\n', STREAM);
      PinnedHasStream(lines);
      PinnedIdempotent(lines);
    } else {
      MediaRewriteAddsNoStream(env, text);
      MediaRewriteTwice(env, text);
    }
  }
}

/** When rewriting a playlist twice is rewriting it once: exactly when the text is not
disguised, or what its first rewrite leaves is a media playlist already in order. */
module Settled {
  import opened Text
  import opened Readers
  import opened Schedule
  import opened Invisible

  // ---------------------------------------------------------------- lines the passes leave alone

  /** A server-control line already demands more than the floor, or carries the floor itself
      wherever it carries a hold-back. */
  predicate HoldSettled(env: Env, line: string) {
    IsControl(line) && !AnyDemands(env, Attrs(line)) ==>
      forall a :: a in Attrs(line) && HoldValue(a).Some? ==> a == Floor()
  }

  lemma MapIdentityIff(f: string -> string, s: seq<string>)
    ensures Map(f, s) == s <==> forall a :: a in s ==> f(a) == a
  {
    if Map(f, s) == s {
      forall a | a in s ensures f(a) == a {
        var i :| 0 <= i < |s| && s[i] == a;
        assert Map(f, s)[i] == f(s[i]);
      }
    }
  }

  lemma HoldSettledIff(env: Env, line: string)
    ensures HoldLine(env, line) == line <==> HoldSettled(env, line)
  {
    if IsControl(line) && !AnyDemands(env, Attrs(line)) {
      HoldLineAttrs(env, line);
      Reassembled(line);
      MapIdentityIff(Floored, Attrs(line));
    }
  }

  predicate HoldsSettled(env: Env, lines: seq<string>) {
    forall l :: l in lines ==> HoldSettled(env, l)
  }

  lemma HoldsSettledIff(env: Env, lines: seq<string>)
    ensures Map(Holder(env), lines) == lines <==> HoldsSettled(env, lines)
  {
    MapIdentityIff(Holder(env), lines);
    forall l | l in lines ensures Holder(env)(l) == l <==> HoldSettled(env, l) {
      HoldSettledIff(env, l);
    }
  }

  /** Each stamp that opens a two-second bucket is followed by its clock line, and no other
      clock line stands anywhere. */
  predicate ClocksStand(env: Env, lines: seq<string>, bucket: Option<int>)
    decreases |lines|
  {
    lines == [] ||
    (!IsClock(lines[0]) &&
     match StampOf(env, lines[0])
     case None => ClocksStand(env, lines[1..], bucket)
     case Some(millis) =>
       var next := Some(TruncDiv(millis, 2000));
       if next == bucket then ClocksStand(env, lines[1..], bucket)
       else |lines| > 1 && lines[1] == ClockLine(millis, DateOf(lines[0])) && ClocksStand(env, lines[2..], next))
  }

  /** The clock pass never starts with a clock line of its own. */
  lemma {:induction false} ClockedStartsPlain(env: Env, lines: seq<string>, bucket: Option<int>)
    ensures var c := Clocked(env, lines, bucket); c == [] || !IsClock(c[0])
  {
    if lines != [] {
      ClockedStep(env, lines, bucket);
      ClockedStartsPlain(env, lines[1..], Emitted(env, lines[0], bucket).1);
    }
  }

  lemma ConsIff(x: string, rest: seq<string>, lines: seq<string>)
    requires lines != []
    ensures [x] + rest == lines <==> x == lines[0] && rest == lines[1..]
  {
  }

  lemma PairIff(x: string, y: string, rest: seq<string>, lines: seq<string>)
    requires lines != []
    ensures [x, y] + rest == lines <==> x == lines[0] && |lines| > 1 && y == lines[1] && rest == lines[2..]
  {
    if |lines| > 1 {
      assert lines == [lines[0], lines[1]] + lines[2..];
    }
  }

  lemma {:induction false} ClocksStandIff(env: Env, lines: seq<string>, bucket: Option<int>)
    ensures Clocked(env, lines, bucket) == lines <==> ClocksStand(env, lines, bucket)
    decreases |lines|
  {
    if lines != [] {
      var e := Emitted(env, lines[0], bucket);
      ClockedStep(env, lines, bucket);
      if IsClock(lines[0]) {
        ClockedStartsPlain(env, lines, bucket);
      } else if e.0 == [lines[0]] {
        ConsIff(lines[0], Clocked(env, lines[1..], e.1), lines);
        ClocksStandIff(env, lines[1..], e.1);
      } else {
        var clock := e.0[1];
        PairIff(lines[0], clock, Clocked(env, lines[1..], e.1), lines);
        if |lines| > 1 && lines[1] == clock {
          EmittedIsClock(env, lines[0], bucket);
          ClockedStep(env, lines[1..], e.1);
          assert lines[1..][1..] == lines[2..];
          ClocksStandIff(env, lines[2..], e.1);
        }
      }
    }
  }

  lemma EmittedIsClock(env: Env, line: string, bucket: Option<int>)
    requires |Emitted(env, line, bucket).0| == 2
    ensures IsClock(Emitted(env, line, bucket).0[1])
  {
    ClockLineIsClock(StampOf(env, line).value, DateOf(line));
  }

  // ---------------------------------------------------------------- both passes at once

  lemma {:induction false} ClockedKeepsRest(env: Env, lines: seq<string>, bucket: Option<int>)
    ensures Dropping(IsClock, Clocked(env, lines, bucket)) == Dropping(IsClock, lines)
  {
    if lines != [] {
      var e := Emitted(env, lines[0], bucket);
      ClockedStep(env, lines, bucket);
      ClockedKeepsRest(env, lines[1..], e.1);
      DroppingConcat(IsClock, e.0, Clocked(env, lines[1..], e.1));
      if |e.0| == 2 {
        EmittedIsClock(env, lines[0], bucket);
        assert e.0[1..] == [e.0[1]] && e.0[1..][1..] == [];
      } else if |e.0| == 1 {
        assert e.0[1..] == [];
      }
    }
  }

  lemma HoldKeepsKind(env: Env, line: string)
    ensures IsClock(HoldLine(env, line)) == IsClock(line)
    ensures IsClock(line) ==> HoldLine(env, line) == line
  {
    if IsClock(line) {
      ClockIsNotControl(line);
    } else if IsClock(HoldLine(env, line)) {
      ClockIsNotControl(HoldLine(env, line));
    }
  }

  /** The hold-back pass cannot hide behind the clock pass: equal apart from clock lines is equal. */
  lemma {:induction false} RestDecides(env: Env, lines: seq<string>)
    requires Dropping(IsClock, Map(Holder(env), lines)) == Dropping(IsClock, lines)
    ensures Map(Holder(env), lines) == lines
  {
    if lines != [] {
      var held := Map(Holder(env), lines);
      HoldKeepsKind(env, lines[0]);
      assert held[0] == HoldLine(env, lines[0]) && held[1..] == Map(Holder(env), lines[1..]);
      if !IsClock(lines[0]) {
        var a, b := Dropping(IsClock, held[1..]), Dropping(IsClock, lines[1..]);
        ConsIff(held[0], a, [lines[0]] + b);
        assert ([lines[0]] + b)[1..] == b;
      }
      RestDecides(env, lines[1..]);
      assert lines == [lines[0]] + lines[1..];
    }
  }

  lemma PassesFixIff(env: Env, lines: seq<string>)
    ensures Clocked(env, Map(Holder(env), lines), None) == lines
            <==> HoldsSettled(env, lines) && ClocksStand(env, lines, None)
  {
    var held := Map(Holder(env), lines);
    HoldsSettledIff(env, lines);
    ClocksStandIff(env, lines, None);
    if Clocked(env, held, None) == lines {
      ClockedKeepsRest(env, held, None);
      RestDecides(env, lines);
    }
  }

  // ---------------------------------------------------------------- the exact case

  /** A media playlist the rewrite leaves as it is. */
  ghost predicate InOrder(env: Env, lines: seq<string>) {
    AnyContains(lines, CONTROL) ==>
      HoldsSettled(env, lines) && (AnyContains(lines, STAMP) ==> ClocksStand(env, lines, None))
  }

  lemma SameJoin(a: seq<string>, b: seq<string>)
    requires Clean(a, '\n') && Clean(b, '\n') && b != [] && b != [""]
    ensures Join(a, '\n') == Join(b, '\n') <==> a == b
  {
    SplitJoin(b, '\n');
    if a != [] {
      SplitJoin(a, '\n');
    } else {
      assert Split("", '\n') == [""];
    }
  }

  lemma TagsArePlain()
    ensures '\n' !in CONTROL && '\n' !in STAMP && CONTROL != "" && STAMP != ""
  {
    assert forall i :: 0 <= i < |CONTROL| ==> CONTROL[i] != '\n';
    assert forall i :: 0 <= i < |STAMP| ==> STAMP[i] != '\n';
  }

  lemma ClockedClean(env: Env, lines: seq<string>)
    requires Sound(env) && Clean(lines, '\n')
    ensures Clean(Clocked(env, lines, None), '\n')
  {
    ClockedOrigin(env, lines, None);
  }

  lemma MediaRewriteFixedIff(env: Env, lines: seq<string>)
    requires Sound(env) && Clean(lines, '\n') && lines != [] && lines != [""]
    ensures MediaRewrite(env, Join(lines, '\n')) == Join(lines, '\n') <==> InOrder(env, lines)
  {
    var held := Map(Holder(env), lines);
    TagsArePlain();
    SplitJoin(lines, '\n');
    ContainsJoin(lines, '\n', CONTROL);
    if AnyContains(lines, CONTROL) {
      MapHeldClean(env, lines);
      SplitJoin(held, '\n');
      ContainsJoin(held, '\n', STAMP);
      HoldsSettledIff(env, lines);
      PassesFixIff(env, lines);
      ClockedClean(env, held);
      SameJoin(held, lines);
      SameJoin(Clocked(env, held, None), lines);
    }
  }

  lemma PinnedIsSomething(lines: seq<string>)
    ensures Pinned(lines) != [] && Pinned(lines) != [""]
  {
    var kept := Dropping(IsPin, lines);
    assert Pinned(lines)[PinAfter(kept)] == PIN_LINE != "";
  }

  /** Rewriting twice is rewriting once exactly when the stream tag does not hide in pins, or
      the lines the first rewrite leaves are already in order: every control line demands more
      or carries the floor, and the clock lines stand where they belong. */
  lemma RewriteTwiceIff(env: Env, text: string)
    requires Sound(env)
    ensures Rewrite(env, Rewrite(env, text)) == Rewrite(env, text)
            <==> !Disguised(text) || InOrder(env, Pinned(Lines(text)))
  {
    RewriteTwice(env, text);
    if Disguised(text) {
      SplitClean(text, '\n');
      PinnedClean(Lines(text));
      PinnedIsSomething(Lines(text));
      MediaRewriteFixedIff(env, Pinned(Lines(text)));
    }
  }

  // ---------------------------------------------------------------- a text that fails

  function HiddenStream(): string {
    PIN + STREAM
  }

  function HoldAttr(number: string): string {
    HOLD + "=" + number
  }

  function LowHold(number: string): string {
    CONTROL + HoldAttr(number)
  }

  /** A number text below the floor. */
  ghost predicate LowNumber(env: Env, number: string) {
    && number != "" && !IsSpace(number[0]) && !IsSpace(number[|number| - 1])
    && ',' !in number && '#' !in number && '\n' !in number
    && number != FLOOR_NUMBER && !Exceeds(env.parseFloat(number))
  }

  lemma HoldAttrFacts(env: Env, number: string)
    requires LowNumber(env, number)
    ensures ',' !in HoldAttr(number) && '#' !in HoldAttr(number) && '\n' !in HoldAttr(number)
    ensures HoldValue(HoldAttr(number)) == Some(number) && HoldAttr(number) != Floor()
  {
    HoldPlain();
    NamedValue(HOLD, number);
    assert HoldAttr(number)[|HOLD| + 1..] == number && Floor()[|HOLD| + 1..] == FLOOR_NUMBER;
  }

  lemma HoldPlain()
    ensures ',' !in HOLD && '#' !in HOLD && '\n' !in HOLD && '=' !in HOLD
    ensures HOLD != "" && !IsSpace(HOLD[0]) && !IsSpace(HOLD[|HOLD| - 1])
  {
  }

  lemma LowHoldIsUnsettled(env: Env, number: string)
    requires LowNumber(env, number)
    ensures IsControl(LowHold(number)) && !HoldSettled(env, LowHold(number))
  {
    HoldAttrFacts(env, number);
    assert LowHold(number)[|CONTROL|..] == HoldAttr(number);
    SplitWhole(HoldAttr(number), ',');
    assert HoldAttr(number) in Attrs(LowHold(number));
  }

  lemma ControlLineFacts(attr: string)
    requires '#' !in attr && '\n' !in attr
    ensures '\n' !in CONTROL + attr && Contains(CONTROL + attr, CONTROL) && !Contains(CONTROL + attr, STREAM)
    ensures !IsPin(CONTROL + attr) && !IsAnchor(CONTROL + attr, true) && !IsAnchor(CONTROL + attr, false)
  {
    var line := CONTROL + attr;
    assert line[7] == CONTROL[7] == 'S' && line[8] == CONTROL[8] == 'E';
    assert PIN[8] == 'T';
    TagsArePlain();
    assert At(line, 0, CONTROL);
    ControlThenStream(attr);
    ContainsNeeds(attr, STREAM, '#');
  }

  lemma HiddenStreamFacts()
    ensures IsPin(HiddenStream()) && Contains(HiddenStream(), STREAM) && '\n' !in HiddenStream()
  {
    assert At(HiddenStream(), |PIN|, STREAM);
    assert '\n' !in PIN && '\n' !in STREAM;
  }

  lemma PinnedExample(hidden: string, low: string)
    requires IsPin(hidden) && !IsPin(low) && !IsAnchor(low, true) && !IsAnchor(low, false)
    ensures Pinned([hidden, low]) == [PIN_LINE, low]
  {
    var kept := [low];
    assert kept[1..] == [];
    assert Dropping(IsPin, kept) == kept;
    assert [hidden, low][1..] == kept;
    assert PinAfter(kept) == 0;
  }

  lemma DisguisedPair(hidden: string, low: string)
    requires IsPin(hidden) && Contains(hidden, STREAM) && '\n' !in hidden
    requires !IsPin(low) && !Contains(low, STREAM) && '\n' !in low
    ensures Disguised(Join([hidden, low], '\n')) && Lines(Join([hidden, low], '\n')) == [hidden, low]
  {
    var lines := [hidden, low];
    SplitJoin(lines, '\n');
    assert lines[0] in lines;
    assert '\n' !in STREAM;
    ContainsJoin(lines, '\n', STREAM);
  }

  /** A disguised text whose second rewrite floors a hold-back the first one left. */
  lemma DisguisedExample(env: Env, number: string)
    requires Sound(env) && LowNumber(env, number)
    ensures var text := Join([HiddenStream(), LowHold(number)], '\n');
            Disguised(text) && Rewrite(env, Rewrite(env, text)) != Rewrite(env, text)
  {
    var hidden, low := HiddenStream(), LowHold(number);
    HoldAttrFacts(env, number);
    ControlLineFacts(HoldAttr(number));
    HiddenStreamFacts();
    DisguisedPair(hidden, low);
    PinnedExample(hidden, low);
    LowHoldIsUnsettled(env, number);
    assert low in [PIN_LINE, low];
    RewriteTwiceIff(env, Join([hidden, low], '\n'));
  }

  /** For instance with a hold-back of 0.1 seconds. */
  lemma DisguisedConcrete(env: Env)
    requires Sound(env) && env.parseFloat("0.1") == Num(0.1)
    ensures exists text :: Disguised(text) && Rewrite(env, Rewrite(env, text)) != Rewrite(env, text)
  {
    assert LowNumber(env, "0.1");
    DisguisedExample(env, "0.1");
  }
}

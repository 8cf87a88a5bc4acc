/** What the schedule rewrite authors, read back from its lines: the values of a clock line,
where the clock lines and the attachment pin stand, and that everything else is as it was. */
module Authored {
  import opened Text
  import opened Readers
  import opened Schedule
  import opened Invisible
  import opened Settled
  import opened Rendered

  // ---------------------------------------------------------------- clock lines

  const RANGE := "#EXT-X-DATERANGE"
  const ID_HEAD := "ID=\""
  const ID_START := "pp-clock-"
  const CLASS_HEAD := "CLASS=\""
  const CLASS_NAME := "fm.partyparty.clock"
  const DATE_HEAD := "START-DATE=\""
  const LENGTH_PIECE := "DURATION=0.050"
  const TIME_HEAD := "X-PP-TIME=\""

  function ClockAttrs(millis: int, date: string): seq<Attr> {
    [Attr("ID", ID_START + Decimal(millis), true), Attr("CLASS", CLASS_NAME, true),
     Attr("START-DATE", date, true), Attr("DURATION", "0.050", false), Attr("X-PP-TIME", Decimal(millis), true)]
  }

  lemma ClockHead()
    ensures CLOCK == RANGE + (":" + (ID_HEAD + ID_START))
  {
    assert "#EXT-X-DATERANGE:" == RANGE + ":";
    assert "ID=\"pp-clock-" == ID_HEAD + ID_START;
    assert CLOCK == "#EXT-X-DATERANGE:" + "ID=\"pp-clock-";
  }

  lemma ClassStart()
    ensures "\",CLASS=\"" == "\"," + CLASS_HEAD
  {
  }

  lemma ClassRest()
    ensures "fm.partyparty.clock\",START-DATE=\"" == CLASS_NAME + "\",START-DATE=\""
  {
  }

  lemma DateStart()
    ensures "\",START-DATE=\"" == "\"," + DATE_HEAD
  {
  }

  lemma ClassHalves()
    ensures CLASS == "\",CLASS=\"" + "fm.partyparty.clock\",START-DATE=\""
  {
  }

  lemma ClassHead()
    ensures CLASS == ("\"," + CLASS_HEAD) + (CLASS_NAME + ("\"," + DATE_HEAD))
  {
    ClassHalves();
    ClassStart();
    ClassRest();
    DateStart();
  }

  lemma DurationHead()
    ensures DURATION == "\"," + (LENGTH_PIECE + ("," + TIME_HEAD))
  {
  }

  lemma QuoteComma()
    ensures "\"," == [QUOTE] + [COMMA] && "," == [COMMA] && "\"" == [QUOTE]
  {
  }

  lemma Assemble(range: string, id: string, d: string, q: string, c: string, k: string, date: string, when: string,
                 length: string, time: string, n: string, kind: string)
    ensures (range + (":" + (id + d))) + (n + (((q + c) + kind) + (k + ((q + c) + date))) + when
                                              + ((q + c) + (length + (c + time))) + n + q)
         == range + ":" + ((id + (d + n) + q) + c + ((kind + k + q) + c
                                                     + ((date + when + q) + c + (length + c + (time + n + q)))))
  {
  }

  lemma JoinCons(a: string, rest: seq<string>)
    requires rest != []
    ensures Join([a] + rest, COMMA) == a + [COMMA] + Join(rest, COMMA)
  {
    assert ([a] + rest)[1..] == rest;
  }

  lemma JoinFive(a: string, b: string, c: string, d: string, e: string)
    ensures Join([a, b, c, d, e], COMMA) == a + [COMMA] + (b + [COMMA] + (c + [COMMA] + (d + [COMMA] + e)))
  {
    JoinCons(a, [b, c, d, e]);
    JoinCons(b, [c, d, e]);
    JoinCons(c, [d, e]);
    JoinCons(d, [e]);
    assert [a, b, c, d, e] == [a] + [b, c, d, e] && [b, c, d, e] == [b] + [c, d, e];
    assert [c, d, e] == [c] + [d, e] && [d, e] == [d] + [e];
  }

  lemma QuotedPieceIs(name: string, head: string, value: string)
    requires name + "=\"" == head
    ensures Written(Attr(name, value, true)) == head + value + [QUOTE]
  {
    assert "=\"" == "=" + [QUOTE];
    assert Written(Attr(name, value, true)) == name + ("=" + [QUOTE]) + value + [QUOTE];
  }

  lemma PieceHeads()
    ensures "ID" + "=\"" == ID_HEAD && "CLASS" + "=\"" == CLASS_HEAD
    ensures "START-DATE" + "=\"" == DATE_HEAD && "X-PP-TIME" + "=\"" == TIME_HEAD
  {
  }

  lemma LengthPiece()
    ensures Written(Attr("DURATION", "0.050", false)) == LENGTH_PIECE
  {
  }

  lemma ClockPieces(millis: int, date: string)
    ensures var n := Decimal(millis);
            WrittenAll(ClockAttrs(millis, date)) ==
            [ID_HEAD + (ID_START + n) + [QUOTE], CLASS_HEAD + CLASS_NAME + [QUOTE], DATE_HEAD + date + [QUOTE],
             LENGTH_PIECE, TIME_HEAD + n + [QUOTE]]
  {
    PieceHeads();
    QuotedPieceIs("ID", ID_HEAD, ID_START + Decimal(millis));
    QuotedPieceIs("CLASS", CLASS_HEAD, CLASS_NAME);
    QuotedPieceIs("START-DATE", DATE_HEAD, date);
    LengthPiece();
    QuotedPieceIs("X-PP-TIME", TIME_HEAD, Decimal(millis));
  }

  /** A clock line is a date range with these attributes. */
  lemma ClockLineIsRange(millis: int, date: string)
    ensures ClockLine(millis, date) == TagLine(RANGE, ClockAttrs(millis, date))
  {
    ClockPieces(millis, date);
    var n := Decimal(millis);
    JoinFive(ID_HEAD + (ID_START + n) + [QUOTE], CLASS_HEAD + CLASS_NAME + [QUOTE], DATE_HEAD + date + [QUOTE],
             LENGTH_PIECE, TIME_HEAD + n + [QUOTE]);
    ClockHead();
    ClassHead();
    DurationHead();
    QuoteComma();
    Assemble(RANGE, ID_HEAD, ID_START, [QUOTE], [COMMA], CLASS_NAME, DATE_HEAD, date, LENGTH_PIECE, TIME_HEAD, n,
             CLASS_HEAD);
  }

  predicate Plain(name: string) {
    name != "" && NoSpace(name) && '=' !in name && QUOTE !in name && COMMA !in name
  }

  lemma ShortNames()
    ensures Plain("ID") && Plain("CLASS")
  {
  }

  lemma DateName()
    ensures Plain("START-DATE")
  {
  }

  lemma LengthName()
    ensures Plain("DURATION")
  {
  }

  lemma TimeName()
    ensures Plain("X-PP-TIME")
  {
  }

  lemma ValuesPlain()
    ensures QUOTE !in ID_START && QUOTE !in CLASS_NAME && Plain("0.050")
  {
  }

  lemma ClockAttrsProper(millis: int, date: string)
    requires QUOTE !in date
    ensures AllProper(ClockAttrs(millis, date))
  {
    ShortNames();
    DateName();
    LengthName();
    TimeName();
    ValuesPlain();
    DecimalIsPlain(millis);
    LacksConcat(ID_START, Decimal(millis), QUOTE);
  }

  lemma ClockLookups(millis: int, date: string)
    ensures var attrs := ClockAttrs(millis, date);
            && Lookup(attrs, "ID") == Some(ID_START + Decimal(millis)) && Lookup(attrs, "CLASS") == Some(CLASS_NAME)
            && Lookup(attrs, "START-DATE") == Some(date) && Lookup(attrs, "DURATION") == Some("0.050")
            && Lookup(attrs, "X-PP-TIME") == Some(Decimal(millis))
  {
    var attrs := ClockAttrs(millis, date);
    LookupAt(attrs, 0, "ID");
    LookupAt(attrs, 1, "CLASS");
    LookupAt(attrs, 2, "START-DATE");
    LookupAt(attrs, 3, "DURATION");
    LookupAt(attrs, 4, "X-PP-TIME");
  }

  lemma {:induction false} LookupAt(attrs: seq<Attr>, k: nat, want: string)
    requires k < |attrs| && attrs[k].name == want && forall j :: 0 <= j < k ==> |attrs[j].name| != |want|
    ensures Lookup(attrs, want) == Some(attrs[k].value)
  {
    if k > 0 {
      LookupAt(attrs[1..], k - 1, want);
    }
  }

  lemma RangeHasNoColon()
    ensures ':' !in RANGE
  {
  }

  lemma RangeReads(line: string, millis: int, date: string, want: string)
    requires line == TagLine(RANGE, ClockAttrs(millis, date)) && AllProper(ClockAttrs(millis, date))
    ensures AttrValue(line, want) == Lookup(ClockAttrs(millis, date), want)
  {
    RangeHasNoColon();
    AttrReadsBack(RANGE, ClockAttrs(millis, date), want);
  }

  lemma AttrOfClock(millis: int, date: string, want: string)
    requires QUOTE !in date
    ensures AttrValue(ClockLine(millis, date), want) == Lookup(ClockAttrs(millis, date), want)
  {
    ClockLineIsRange(millis, date);
    ClockAttrsProper(millis, date);
    RangeReads(ClockLine(millis, date), millis, date, want);
  }

  /** A clock line names its time, twice, as the stamp and as the room's milliseconds, and is
      told from other date ranges by its id and class. */
  lemma ClockLineReads(clock: string, millis: int, date: string)
    requires clock == ClockLine(millis, date) && QUOTE !in date
    ensures AttrValue(clock, "START-DATE") == Some(date) && AttrValue(clock, "X-PP-TIME") == Some(Decimal(millis))
    ensures AttrValue(clock, "ID") == Some("pp-clock-" + Decimal(millis))
    ensures AttrValue(clock, "CLASS") == Some("fm.partyparty.clock") && AttrValue(clock, "DURATION") == Some("0.050")
    ensures ParseInt64(Decimal(millis)) == Within64(millis)
  {
    ClockLookups(millis, date);
    AttrOfClock(millis, date, "ID");
    AttrOfClock(millis, date, "CLASS");
    AttrOfClock(millis, date, "START-DATE");
    AttrOfClock(millis, date, "DURATION");
    AttrOfClock(millis, date, "X-PP-TIME");
    DecimalReadsBack(millis);
  }

  /** And the stamp lines it is written behind have no quote in their time. */
  lemma StampHasNoQuote(env: Env, line: string)
    requires Sound(env) && StampOf(env, line).Some?
    ensures QUOTE !in DateOf(line)
  {
  }

  /** The two-second bucket of a time: whole buckets from zero, toward zero for negative times. */
  lemma BucketOf(millis: int)
    ensures millis >= 0 ==> 0 <= millis - 2000 * TruncDiv(millis, 2000) < 2000
    ensures millis <= 0 ==> -2000 < millis - 2000 * TruncDiv(millis, 2000) <= 0
  {
  }

  /** The clock pass keeps every line but clock lines, and puts a clock line behind each stamp
      that opens a bucket and nowhere else. */
  lemma ClockedStands(env: Env, lines: seq<string>, bucket: Option<int>)
    ensures Dropping(IsClock, Clocked(env, lines, bucket)) == Dropping(IsClock, lines)
    ensures ClocksStand(env, Clocked(env, lines, bucket), bucket)
  {
    ClockedKeepsRest(env, lines, bucket);
    ClockedIdempotent(env, lines, bucket);
    ClocksStandIff(env, Clocked(env, lines, bucket), bucket);
  }

  // ---------------------------------------------------------------- the attachment pin

  predicate IsVersion(line: string) {
    "#EXT-X-VERSION:" <= line
  }

  /** Line k is the pin, the only one: behind the first version line, in a playlist that has
      none behind the first header line, and at the top of one that has neither. */
  ghost predicate PinStands(lines: seq<string>, k: nat) {
    && k < |lines| && lines[k] == PIN_LINE && (forall i :: 0 <= i < |lines| && i != k ==> !IsPin(lines[i]))
    && (if exists i :: 0 <= i < |lines| && IsVersion(lines[i]) then
          k > 0 && IsVersion(lines[k - 1]) && forall i :: 0 <= i < k - 1 ==> !IsVersion(lines[i])
        else if "#EXTM3U" in lines then k > 0 && lines[k - 1] == "#EXTM3U" && "#EXTM3U" !in lines[..k - 1]
        else k == 0)
  }

  lemma PinIsNoAnchor()
    ensures !IsVersion(PIN_LINE) && PIN_LINE != "#EXTM3U"
  {
    assert PIN_LINE[7] == 'S' && "#EXT-X-VERSION:"[7] == 'V';
  }

  lemma InsertedAt(kept: seq<string>, k: nat, x: string)
    requires k <= |kept|
    ensures var out := kept[..k] + [x] + kept[k..];
            && |out| == |kept| + 1 && out[k] == x && out[..k] == kept[..k]
            && (forall i :: 0 <= i < k ==> out[i] == kept[i])
            && (forall i :: k < i < |out| ==> out[i] == kept[i - 1])
            && (forall i :: k <= i < |kept| ==> out[i + 1] == kept[i])
  {
  }

  lemma KeptHasNoPin(lines: seq<string>)
    ensures forall i :: 0 <= i < |Dropping(IsPin, lines)| ==> !IsPin(Dropping(IsPin, lines)[i])
  {
    DroppingMembers(IsPin, lines);
    forall i | 0 <= i < |Dropping(IsPin, lines)| ensures !IsPin(Dropping(IsPin, lines)[i]) {
      assert Dropping(IsPin, lines)[i] in Dropping(IsPin, lines);
    }
  }

  /** The pin goes where it belongs, and every other line stays in its order. */
  lemma PinnedStands(lines: seq<string>)
    ensures PinStands(Pinned(lines), PinAfter(Dropping(IsPin, lines)))
    ensures Dropping(IsPin, Pinned(lines)) == Dropping(IsPin, lines)
  {
    var kept := Dropping(IsPin, lines);
    var k := PinAfter(kept);
    PinnedIdempotent(lines);
    KeptHasNoPin(lines);
    PinIsNoAnchor();
    InsertedAt(kept, k, PIN_LINE);
    AnchorStands(kept, k, Pinned(lines));
  }

  lemma AnchorStands(kept: seq<string>, k: nat, out: seq<string>)
    requires k == PinAfter(kept) && |out| == |kept| + 1 && out[k] == PIN_LINE && out[..k] == kept[..k]
    requires !IsVersion(PIN_LINE) && PIN_LINE != "#EXTM3U"
    requires forall i :: 0 <= i < |kept| ==> !IsPin(kept[i])
    requires forall i :: 0 <= i < k ==> out[i] == kept[i]
    requires forall i :: k < i < |out| ==> out[i] == kept[i - 1]
    requires forall i :: k <= i < |kept| ==> out[i + 1] == kept[i]
    ensures PinStands(out, k)
  {
    if AnchorAt(kept, true) >= 0 {
      assert IsVersion(out[k - 1]);
    } else if AnchorAt(kept, false) >= 0 {
      assert out[k - 1] == "#EXTM3U";
      assert forall i :: 0 <= i < k - 1 ==> out[..k - 1][i] == kept[i];
    }
  }

  // ---------------------------------------------------------------- the floor

  /** Flooring a control line touches nothing but its hold-backs, which then all carry the floor. */
  lemma FloorTouchesOnlyHolds(env: Env, line: string)
    requires IsControl(line) && !AnyDemands(env, Attrs(line))
    ensures var was, now := Attrs(line), Attrs(HoldLine(env, line));
            && IsControl(HoldLine(env, line)) && |now| == |was|
            && forall i :: 0 <= i < |was| ==>
                             now[i] == if HoldValue(was[i]).Some? then "PART-HOLD-BACK=0.60000" else was[i]
  {
    HoldLineAttrs(env, line);
    FloorText();
  }

  lemma FloorText()
    ensures Floor() == "PART-HOLD-BACK=0.60000"
  {
  }
}

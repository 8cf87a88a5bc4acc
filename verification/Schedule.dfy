/** The schedule rewrite: a hold-back floor, an attachment pin and clock-reference date
ranges are authored into a playlist, and no reader can tell. */
module Schedule {
  import opened Text
  import opened Readers

  const STREAM := "#EXT-X-STREAM-INF"
  const CONTROL := "#EXT-X-SERVER-CONTROL:"
  const PIN := "#EXT-X-START:"
  const PIN_LINE := "#EXT-X-START:TIME-OFFSET=-2.000,PRECISE=YES"
  const STAMP := "#EXT-X-PROGRAM-DATE-TIME:"
  const CLOCK := "#EXT-X-DATERANGE:ID=\"pp-clock-"
  const CLASS := "\",CLASS=\"fm.partyparty.clock\",START-DATE=\""
  const DURATION := "\",DURATION=0.050,X-PP-TIME=\""
  const HOLD := "PART-HOLD-BACK"
  const FLOOR_NUMBER := "0.60000"
  const WANT := 0.6

  /** What the rewrite relies on in the library parsers: its own number reads back, and
      a time stamp has neither a tag mark nor a quote nor a line break in it. */
  ghost predicate Sound(env: Env) {
    && env.parseFloat(FLOOR_NUMBER) == Num(WANT)
    && forall s :: env.parseStamp(s).Some? ==> '#' !in s && QUOTE !in s && '\n' !in s
  }

  // ---------------------------------------------------------------- the hold-back floor

  /** The value text of a PART-HOLD-BACK attribute. */
  function HoldValue(attr: string): Option<string> {
    match Cut(attr)
    case Some((name, value)) => if Trim(name) == HOLD then Some(Trim(value)) else None
    case None => None
  }

  predicate Exceeds(x: Float) {
    match x case Num(v) => v > WANT case Infinite => true case NotANumber => false
  }

  predicate Demands(env: Env, attr: string) {
    match HoldValue(attr)
    case Some(v) => Exceeds(env.parseFloat(v))
    case None => false
  }

  predicate AnyDemands(env: Env, attrs: seq<string>) {
    exists a :: a in attrs && Demands(env, a)
  }

  function Floor(): string {
    HOLD + "=" + FLOOR_NUMBER
  }

  function Floored(attr: string): string {
    if HoldValue(attr).Some? then Floor() else attr
  }

  predicate IsControl(line: string) {
    CONTROL <= line
  }

  function Attrs(line: string): seq<string>
    requires IsControl(line)
  {
    Split(line[|CONTROL|..], ',')
  }

  /** setPartHoldBack with its "changed" flag dropped: upstream's own larger demand wins. */
  function HoldLine(env: Env, line: string): string {
    if !IsControl(line) || AnyDemands(env, Attrs(line)) then line
    else CONTROL + Join(Map(Floored, Attrs(line)), ',')
  }

  lemma Reassembled(line: string)
    requires IsControl(line)
    ensures CONTROL + Join(Attrs(line), ',') == line
  {
    JoinSplit(line[|CONTROL|..], ',');
  }

  method FloorAttr(env: Env, attr: string) returns (r: string, found: bool, demanded: bool)
    ensures demanded == Demands(env, attr)
    ensures !demanded ==> r == Floored(attr)
    ensures !found ==> r == attr && !demanded
  {
    match HoldValue(attr)
    case None => return attr, false, false;
    case Some(value) =>
      if Exceeds(env.parseFloat(value)) {
        return attr, true, true;
      }
      return Floor(), true, false;
  }

  /** The attribute loop: it stops at the first value that already demands more room. */
  method FloorAttrs(env: Env, was: seq<string>) returns (attrs: seq<string>, found: bool, demanded: bool)
    ensures demanded == AnyDemands(env, was)
    ensures !demanded ==> attrs == Map(Floored, was)
    ensures !found ==> attrs == was
  {
    attrs, found, demanded := was, false, false;
    ghost var floored := Map(Floored, was);
    for i := 0 to |attrs|
      invariant |attrs| == |was|
      invariant forall j :: 0 <= j < i ==> attrs[j] == floored[j]
      invariant forall j :: i <= j < |was| ==> attrs[j] == was[j]
      invariant forall j :: 0 <= j < i ==> !Demands(env, was[j])
      invariant !found ==> attrs == was
    {
      var attr, holds, demands := FloorAttr(env, attrs[i]);
      if demands {
        assert was[i] in was;
        return attrs, true, true;
      }
      if holds {
        found := true;
        attrs := attrs[i := attr];
      }
    }
  }

  method SetPartHoldBack(env: Env, line: string) returns (r: string, changed: bool)
    requires IsControl(line)
    ensures r == HoldLine(env, line)
    ensures !changed ==> r == line
  {
    var attrs, found, demanded := FloorAttrs(env, Attrs(line));
    if demanded || !found {
      Reassembled(line);
      return line, false;
    }
    return CONTROL + Join(attrs, ','), true;
  }

  lemma CutAt(name: string, value: string)
    requires '=' !in name
    ensures Cut(name + "=" + value) == Some((name, value))
  {
    var s := name + "=" + value;
    assert s[..|name|] == name;
    IndexIs(s, '=', |name|);
    assert s[|name| + 1..] == value;
  }

  lemma FloorValue()
    ensures HoldValue(Floor()) == Some(FLOOR_NUMBER)
  {
    NamedValue(HOLD, FLOOR_NUMBER);
  }

  lemma NamedValue(name: string, value: string)
    requires '=' !in name && name == HOLD && value != ""
    requires !IsSpace(name[0]) && !IsSpace(name[|name| - 1]) && !IsSpace(value[0]) && !IsSpace(value[|value| - 1])
    ensures HoldValue(name + "=" + value) == Some(value)
  {
    CutAt(name, value);
    TrimIdentity(name);
    TrimIdentity(value);
  }

  lemma FloorPlain()
    ensures ',' !in Floor() && '\n' !in Floor() && '#' !in Floor()
  {
  }

  lemma FlooredIsClean(attrs: seq<string>, c: char)
    requires Clean(attrs, c) && (c == ',' || c == '\n' || c == '#')
    ensures Clean(Map(Floored, attrs), c)
  {
    FloorPlain();
    forall p | p in Map(Floored, attrs) ensures c !in p {
      var i :| 0 <= i < |attrs| && Map(Floored, attrs)[i] == p;
      assert attrs[i] in attrs;
    }
  }

  /** The attributes of the rewritten line are the floored attributes. */
  lemma HoldLineAttrs(env: Env, line: string)
    requires IsControl(line) && !AnyDemands(env, Attrs(line))
    ensures IsControl(HoldLine(env, line))
    ensures Attrs(HoldLine(env, line)) == Map(Floored, Attrs(line))
  {
    var attrs := Attrs(line);
    SplitClean(line[|CONTROL|..], ',');
    FlooredIsClean(attrs, ',');
    SplitJoin(Map(Floored, attrs), ',');
    assert HoldLine(env, line)[|CONTROL|..] == Join(Map(Floored, attrs), ',');
  }

  /** A floored attribute declares the floor exactly when the attribute declared something. */
  lemma FlooredValue(attr: string)
    ensures HoldValue(Floored(attr)) == if HoldValue(attr).Some? then Some(FLOOR_NUMBER) else None
  {
    FloorValue();
  }

  lemma FlooredTwice(env: Env, attr: string)
    requires Sound(env)
    ensures Floored(Floored(attr)) == Floored(attr)
    ensures !Demands(env, attr) ==> !Demands(env, Floored(attr))
  {
    FloorValue();
  }

  lemma FlooredDemandNothing(env: Env, attrs: seq<string>)
    requires Sound(env) && !AnyDemands(env, attrs)
    ensures !AnyDemands(env, Map(Floored, attrs)) && Map(Floored, Map(Floored, attrs)) == Map(Floored, attrs)
  {
    var m := Map(Floored, attrs);
    forall i | 0 <= i < |attrs| ensures !Demands(env, m[i]) && Map(Floored, m)[i] == m[i] {
      assert attrs[i] in attrs;
      FlooredTwice(env, attrs[i]);
    }
  }

  lemma HoldLineIdempotent(env: Env, line: string)
    requires Sound(env)
    ensures HoldLine(env, HoldLine(env, line)) == HoldLine(env, line)
  {
    if IsControl(line) && !AnyDemands(env, Attrs(line)) {
      HoldLineAttrs(env, line);
      FlooredDemandNothing(env, Attrs(line));
    }
  }

  /** The numbers a server-control line declares as its part hold-back. */
  function HoldsIn(env: Env, attrs: seq<string>): seq<Float> {
    if attrs == [] then []
    else
      match HoldValue(attrs[0])
      case Some(v) => [env.parseFloat(v)] + HoldsIn(env, attrs[1..])
      case None => HoldsIn(env, attrs[1..])
  }

  lemma {:induction false} FlooredHolds(env: Env, attrs: seq<string>)
    requires Sound(env)
    ensures |HoldsIn(env, Map(Floored, attrs))| == |HoldsIn(env, attrs)|
    ensures forall x :: x in HoldsIn(env, Map(Floored, attrs)) ==> x == Num(WANT)
  {
    if attrs != [] {
      FlooredHolds(env, attrs[1..]);
      assert Map(Floored, attrs)[1..] == Map(Floored, attrs[1..]) && Map(Floored, attrs)[0] == Floored(attrs[0]);
      FlooredValue(attrs[0]);
    }
  }

  lemma {:induction false} DemandIsHeld(env: Env, attrs: seq<string>)
    ensures AnyDemands(env, attrs) <==> exists x :: x in HoldsIn(env, attrs) && Exceeds(x)
  {
    if attrs != [] {
      DemandIsHeld(env, attrs[1..]);
      assert attrs == [attrs[0]] + attrs[1..];
      var h := HoldsIn(env, attrs);
      if HoldValue(attrs[0]).Some? {
        assert h[0] in h;
        assert forall x :: x in h <==> x == h[0] || x in h[1..];
        assert Demands(env, attrs[0]) <==> Exceeds(h[0]);
      }
    }
  }

  /** A single declared hold-back becomes the larger of itself and 0.6: never lowered. */
  lemma SingleHoldBecomesMax(env: Env, line: string, x: real)
    requires Sound(env) && IsControl(line)
    requires HoldsIn(env, Attrs(line)) == [Num(x)]
    ensures IsControl(HoldLine(env, line))
    ensures HoldsIn(env, Attrs(HoldLine(env, line))) == [Num(if x > 0.6 then x else 0.6)]
  {
    var attrs := Attrs(line);
    DemandIsHeld(env, attrs);
    var was := HoldsIn(env, attrs);
    assert was[0] == Num(x) && was[0] in was;
    if !AnyDemands(env, attrs) {
      HoldLineAttrs(env, line);
      FlooredHolds(env, attrs);
      var h := HoldsIn(env, Map(Floored, attrs));
      assert h[0] in h;
      assert h == [Num(WANT)];
    }
  }

  // ---------------------------------------------------------------- clock references

  predicate IsClock(line: string) {
    CLOCK <= line
  }

  /** The text of a stamp line's time. */
  function DateOf(line: string): string
    requires STAMP <= line
  {
    Trim(line[|STAMP|..])
  }

  function StampOf(env: Env, line: string): Option<int> {
    if STAMP <= line then env.parseStamp(DateOf(line)) else None
  }

  /** Go's integer division, which truncates toward zero. */
  function TruncDiv(a: int, b: int): int
    requires b > 0
  {
    if a >= 0 then a / b else -(-a / b)
  }

  function ClockValue(millis: int, date: string): string {
    Decimal(millis) + CLASS + date + DURATION + Decimal(millis) + "\""
  }

  function ClockLine(millis: int, date: string): string {
    CLOCK + ClockValue(millis, date)
  }

  /** One clock line per two-second bucket; clock lines already present are dropped. */
  function Clocked(env: Env, lines: seq<string>, bucket: Option<int>): seq<string> {
    if lines == [] then []
    else if IsClock(lines[0]) then Clocked(env, lines[1..], bucket)
    else
      match StampOf(env, lines[0])
      case None => [lines[0]] + Clocked(env, lines[1..], bucket)
      case Some(millis) =>
        var next := Some(TruncDiv(millis, 2000));
        if next == bucket then [lines[0]] + Clocked(env, lines[1..], bucket)
        else [lines[0], ClockLine(millis, DateOf(lines[0]))] + Clocked(env, lines[1..], next)
  }

  function ClockText(env: Env, text: string): string {
    if !Contains(text, STAMP) then text
    else Join(Clocked(env, Split(text, '\n'), None), '\n')
  }

  /** What one line emits, and the bucket it leaves. */
  function Emitted(env: Env, line: string, bucket: Option<int>): (seq<string>, Option<int>) {
    if IsClock(line) then ([], bucket)
    else
      match StampOf(env, line)
      case None => ([line], bucket)
      case Some(millis) =>
        var next := Some(TruncDiv(millis, 2000));
        if next == bucket then ([line], bucket) else ([line, ClockLine(millis, DateOf(line))], next)
  }

  lemma ClockedStep(env: Env, lines: seq<string>, bucket: Option<int>)
    requires lines != []
    ensures Clocked(env, lines, bucket)
            == Emitted(env, lines[0], bucket).0 + Clocked(env, lines[1..], Emitted(env, lines[0], bucket).1)
  {
  }

  method EmitLine(env: Env, line: string, bucket: Option<int>) returns (emitted: seq<string>, next: Option<int>)
    ensures (emitted, next) == Emitted(env, line, bucket)
  {
    if CLOCK <= line {
      return [], bucket;
    }
    emitted, next := [line], bucket;
    if !(STAMP <= line) {
      return;
    }
    var date := Trim(line[|STAMP|..]);
    var stamp := env.parseStamp(date);
    if stamp.None? || bucket == Some(TruncDiv(stamp.value, 2000)) {
      return;
    }
    next := Some(TruncDiv(stamp.value, 2000));
    emitted := [line, ClockLine(stamp.value, date)];
  }

  method ClockRanges(env: Env, body: string) returns (r: string)
    ensures r == ClockText(env, body)
  {
    if !Contains(body, STAMP) {
      return body;
    }
    var lines := Split(body, '\n');
    var out: seq<string> := [];
    var bucket: Option<int> := None;
    ghost var all := Clocked(env, lines, None);
    assert lines[0..] == lines;
    for i := 0 to |lines|
      invariant out + Clocked(env, lines[i..], bucket) == all
    {
      assert lines[i..][0] == lines[i] && lines[i..][1..] == lines[i + 1..];
      ClockedStep(env, lines[i..], bucket);
      var emitted, next := EmitLine(env, lines[i], bucket);
      Regroup(out, emitted, Clocked(env, lines[i + 1..], next));
      out, bucket := out + emitted, next;
    }
    assert out + [] == out;
    return Join(out, '\n');
  }

  lemma {:induction false} ClockedIdempotent(env: Env, lines: seq<string>, bucket: Option<int>)
    ensures Clocked(env, Clocked(env, lines, bucket), bucket) == Clocked(env, lines, bucket)
  {
    if lines == [] {
    } else if IsClock(lines[0]) {
      ClockedIdempotent(env, lines[1..], bucket);
    } else {
      match StampOf(env, lines[0])
      case None =>
        ClockedIdempotent(env, lines[1..], bucket);
        assert ([lines[0]] + Clocked(env, lines[1..], bucket))[1..] == Clocked(env, lines[1..], bucket);
      case Some(millis) =>
        var next := Some(TruncDiv(millis, 2000));
        if next == bucket {
          ClockedIdempotent(env, lines[1..], bucket);
          assert ([lines[0]] + Clocked(env, lines[1..], bucket))[1..] == Clocked(env, lines[1..], bucket);
        } else {
          ClockedIdempotent(env, lines[1..], next);
          var clock := ClockLine(millis, DateOf(lines[0]));
          var rest := Clocked(env, lines[1..], next);
          assert IsClock(clock);
          var out := [lines[0], clock] + rest;
          assert out[1..] == [clock] + rest && out[1..][1..] == rest;
        }
    }
  }

  // ---------------------------------------------------------------- the attachment pin

  predicate IsPin(line: string) {
    PIN <= line
  }

  /** The index of the first line that satisfies `version` (EXT-X-VERSION, or EXTM3U). */
  predicate IsAnchor(line: string, version: bool) {
    if version then "#EXT-X-VERSION:" <= line else line == "#EXTM3U"
  }

  function AnchorAt(lines: seq<string>, version: bool): (i: int)
    ensures -1 <= i < |lines|
    ensures i >= 0 ==> IsAnchor(lines[i], version)
    ensures forall j :: 0 <= j < (if i < 0 then |lines| else i) ==> !IsAnchor(lines[j], version)
  {
    if lines == [] then -1
    else if IsAnchor(lines[0], version) then 0
    else var k := AnchorAt(lines[1..], version); if k < 0 then -1 else k + 1
  }

  function PinAfter(lines: seq<string>): (i: nat)
    ensures i <= |lines|
  {
    if AnchorAt(lines, true) >= 0 then AnchorAt(lines, true) + 1
    else AnchorAt(lines, false) + 1
  }

  function Pinned(lines: seq<string>): seq<string> {
    var kept := Dropping(IsPin, lines);
    kept[..PinAfter(kept)] + [PIN_LINE] + kept[PinAfter(kept)..]
  }

  method DropPins(lines: seq<string>) returns (kept: seq<string>)
    ensures kept == Dropping(IsPin, lines)
  {
    kept := [];
    for i := 0 to |lines|
      invariant kept + Dropping(IsPin, lines[i..]) == Dropping(IsPin, lines)
    {
      assert lines[i..][0] == lines[i] && lines[i..][1..] == lines[i + 1..];
      if IsPin(lines[i]) {
        continue;
      }
      kept := kept + [lines[i]];
    }
  }

  method FindAnchor(lines: seq<string>, version: bool) returns (at: int)
    ensures at == AnchorAt(lines, version)
  {
    for i := 0 to |lines|
      invariant forall j :: 0 <= j < i ==> !IsAnchor(lines[j], version)
    {
      if IsAnchor(lines[i], version) {
        return i;
      }
    }
    return -1;
  }

  method RewriteMultivariant(text: string) returns (r: string)
    ensures r == Join(Pinned(Split(text, '\n')), '\n')
  {
    var lines := DropPins(Split(text, '\n'));
    var at := FindAnchor(lines, true);
    if at < 0 {
      at := FindAnchor(lines, false);
    }
    var out := lines[..at + 1] + [PIN_LINE] + lines[at + 1..];
    return Join(out, '\n');
  }

  lemma PinLineIsPin()
    ensures IsPin(PIN_LINE)
  {
  }

  lemma PinnedIdempotent(lines: seq<string>)
    ensures Dropping(IsPin, Pinned(lines)) == Dropping(IsPin, lines)
    ensures Pinned(Pinned(lines)) == Pinned(lines)
  {
    var kept := Dropping(IsPin, lines);
    DroppingMembers(IsPin, lines);
    PinLineIsPin();
    DroppingInserted(IsPin, kept, PinAfter(kept), PIN_LINE);
  }

  // ---------------------------------------------------------------- the rewrite

  function Holder(env: Env): string -> string {
    line => HoldLine(env, line)
  }

  function MediaRewrite(env: Env, text: string): string {
    if !Contains(text, CONTROL) then text
    else ClockText(env, Join(Map(Holder(env), Split(text, '\n')), '\n'))
  }

  function Rewrite(env: Env, text: string): string {
    if Contains(text, STREAM) then Join(Pinned(Split(text, '\n')), '\n') else MediaRewrite(env, text)
  }

  method RewritePlaylist(env: Env, body: string) returns (r: string)
    ensures r == Rewrite(env, body)
  {
    if Contains(body, STREAM) {
      r := RewriteMultivariant(body);
      return;
    }
    if !Contains(body, CONTROL) {
      return body;
    }
    var lines := Split(body, '\n');
    ghost var was := lines;
    var changed := false;
    for i := 0 to |lines|
      invariant |lines| == |was|
      invariant forall j :: 0 <= j < i ==> lines[j] == HoldLine(env, was[j])
      invariant forall j :: i <= j < |was| ==> lines[j] == was[j]
      invariant !changed ==> lines == was
    {
      if !IsControl(lines[i]) {
        continue;
      }
      var rewritten, ok := SetPartHoldBack(env, lines[i]);
      if ok {
        lines := lines[i := rewritten];
        changed := true;
      }
    }
    assert lines == Map(Holder(env), was);
    if !changed {
      JoinSplit(body, '\n');
      r := ClockRanges(env, body);
      return;
    }
    r := ClockRanges(env, Join(lines, '\n'));
  }
}

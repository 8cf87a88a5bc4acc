/** The five independent readers of a playlist: the contribution client's variant and
media-name parsers, the origin's init-segment and blocking-reload parsers, and the
attach gate's timeline measurement. Each reads line by line; a reader's `view` is what
it takes from one line, and the reader is a function of the views in order. */
module Readers {
  import opened Text

  const QUOTE := '\U{22}'
  const COMMA := ','

  datatype Float = NotANumber | Num(v: real) | Infinite

  /** Library parsers whose grammar is not modelled. */
  datatype Env = Env(parseFloat: string -> Float, parseStamp: string -> Option<int>)

  function View<E>(v: string -> Option<E>, lines: seq<string>): seq<E> {
    if lines == [] then []
    else match v(lines[0]) case Some(e) => [e] + View(v, lines[1..]) case None => View(v, lines[1..])
  }

  /** One turn of a reader's loop over `lines`. */
  lemma ViewStep<E>(v: string -> Option<E>, lines: seq<string>, i: nat)
    requires i < |lines|
    ensures v(lines[i]).None? ==> View(v, lines[i..]) == View(v, lines[i + 1..])
    ensures v(lines[i]).Some? ==> View(v, lines[i..]) != []
                                  && View(v, lines[i..])[0] == v(lines[i]).value
                                  && View(v, lines[i..])[1..] == View(v, lines[i + 1..])
  {
    assert lines[i..][1..] == lines[i + 1..];
  }

  function Seen<E>(e: Option<E>): seq<E> {
    match e case Some(x) => [x] case None => []
  }

  lemma ViewCons<E>(v: string -> Option<E>, line: string, rest: seq<string>)
    ensures View(v, [line] + rest) == Seen(v(line)) + View(v, rest)
  {
    assert ([line] + rest)[1..] == rest;
  }

  lemma {:induction false} ViewConcat<E>(v: string -> Option<E>, a: seq<string>, b: seq<string>)
    ensures View(v, a + b) == View(v, a) + View(v, b)
  {
    if a == [] {
      assert a + b == b;
    } else {
      ViewConcat(v, a[1..], b);
      ViewCons(v, a[0], a[1..]);
      ViewCons(v, a[0], a[1..] + b);
      assert a == [a[0]] + a[1..];
      Regroup([a[0]], a[1..], b);
      Regroup(Seen(v(a[0])), View(v, a[1..]), View(v, b));
    }
  }

  predicate IsComment(t: string) {
    "#" <= t
  }

  // ---------------------------------------------------------------- attributes

  /** The two sides of the first `=`. */
  function Cut(attr: string): Option<(string, string)> {
    var i := IndexOf(attr, '=');
    if i < 0 then None else Some((attr[..i], attr[i + 1..]))
  }

  function TrimQuotesLeft(s: string): string {
    if s != "" && s[0] == QUOTE then TrimQuotesLeft(s[1..]) else s
  }

  function TrimQuotes(s: string): string
    decreases |s|
  {
    if s != "" && s[0] == QUOTE then TrimQuotes(s[1..])
    else if s != "" && s[|s| - 1] == QUOTE then TrimQuotes(s[..|s| - 1])
    else s
  }

  /** Simple case folding on the letters the attribute names use. */
  function Fold(c: char): char {
    if 'a' <= c <= 'z' then c - 'a' + 'A'
    else if c == '\U{017F}' then 'S'
    else if c == '\U{212A}' then 'K'
    else c
  }

  predicate EqualFold(a: string, b: string) {
    |a| == |b| && forall i :: 0 <= i < |a| ==> Fold(a[i]) == Fold(b[i])
  }

  /** Splitting on commas outside quotes; a trailing empty piece is dropped. */
  function AttrsFrom(s: string, inQuotes: bool, cur: string): seq<string> {
    if s == "" then if cur == "" then [] else [cur]
    else if s[0] == QUOTE then AttrsFrom(s[1..], !inQuotes, cur + [s[0]])
    else if s[0] == ',' && !inQuotes then [cur] + AttrsFrom(s[1..], inQuotes, "")
    else AttrsFrom(s[1..], inQuotes, cur + [s[0]])
  }

  /** The text leaves a quote open. */
  predicate Open(s: string) {
    s != "" && Open(s[..|s| - 1]) != (s[|s| - 1] == QUOTE)
  }

  /** Every comma stands inside quotes. */
  predicate NoOpenComma(s: string) {
    forall i :: 0 <= i < |s| && s[i] == COMMA ==> Open(s[..i])
  }

  /** The text cut at its commas outside quotes, a last empty piece left off. */
  predicate CutAtOpenCommas(text: string, pieces: seq<string>)
    decreases |pieces|
  {
    if pieces == [] then text == ""
    else
      var p := pieces[0];
      NoOpenComma(p) &&
      ((|pieces| == 1 && text == p != "")
       || (!Open(p) && p + [COMMA] <= text && CutAtOpenCommas(text[|p| + 1..], pieces[1..])))
  }

  lemma OpenSnoc(s: string, c: char)
    ensures Open(s + [c]) <==> Open(s) != (c == QUOTE)
    ensures NoOpenComma(s) && (c == COMMA ==> Open(s)) ==> NoOpenComma(s + [c])
  {
    var t := s + [c];
    assert t[..|s|] == s;
    if NoOpenComma(s) && (c == COMMA ==> Open(s)) {
      forall i | 0 <= i < |t| && t[i] == COMMA ensures Open(t[..i]) {
        assert i < |s| ==> t[..i] == s[..i];
      }
    }
  }

  lemma {:induction false} AttrsCut(s: string, cur: string)
    requires NoOpenComma(cur)
    ensures CutAtOpenCommas(cur + s, AttrsFrom(s, Open(cur), cur))
    decreases |s|
  {
    if s == "" {
      assert cur + s == cur;
    } else {
      assert cur + s == (cur + [s[0]]) + s[1..];
      OpenSnoc(cur, s[0]);
      if s[0] == COMMA && !Open(cur) {
        AttrsCut(s[1..], "");
        assert "" + s[1..] == s[1..];
        var pieces := [cur] + AttrsFrom(s[1..], false, "");
        assert pieces[1..] == AttrsFrom(s[1..], false, "");
        assert (cur + s)[|cur| + 1..] == s[1..];
      } else {
        AttrsCut(s[1..], cur + [s[0]]);
      }
    }
  }

  /** There is only one way to cut a text so. */
  lemma {:induction false} OneCut(text: string, a: seq<string>, b: seq<string>)
    requires CutAtOpenCommas(text, a) && CutAtOpenCommas(text, b)
    ensures a == b
    decreases |a|
  {
    if a != [] && b != [] {
      FirstPieceIs(text, a, b);
      FirstPieceIs(text, b, a);
      assert a[0] == text[..|a[0]|] && b[0] == text[..|b[0]|];
      if text != a[0] {
        OneCut(text[|a[0]| + 1..], a[1..], b[1..]);
      }
      assert a == [a[0]] + a[1..] && b == [b[0]] + b[1..];
    }
  }

  /** The first piece ends with the text or before a comma outside quotes, ... */
  lemma FirstPieceEnds(text: string, a: seq<string>)
    requires a != [] && CutAtOpenCommas(text, a)
    ensures a[0] <= text
    ensures |a[0]| < |text| ==> text[|a[0]|] == COMMA && !Open(text[..|a[0]|])
  {
    var p := a[0];
    if p + [COMMA] <= text {
      assert text[..|p|] == p && (p + [COMMA])[|p|] == COMMA;
    }
  }

  /** ... and has no such comma in it. */
  lemma FirstPieceHasNoCut(text: string, a: seq<string>, n: nat)
    requires a != [] && CutAtOpenCommas(text, a) && n < |a[0]| <= |text|
    ensures text[n] == COMMA ==> Open(text[..n])
  {
    FirstPieceEnds(text, a);
    assert text[n] == a[0][n] && text[..n] == a[0][..n];
  }

  lemma FirstPieceIs(text: string, a: seq<string>, b: seq<string>)
    requires a != [] && b != [] && CutAtOpenCommas(text, a) && CutAtOpenCommas(text, b)
    ensures |a[0]| <= |b[0]| && a[0] <= text
  {
    FirstPieceEnds(text, a);
    FirstPieceEnds(text, b);
    if |b[0]| < |a[0]| {
      FirstPieceHasNoCut(text, a, |b[0]|);
    }
  }

  method SplitAttrs(s: string) returns (out: seq<string>)
    ensures out == AttrsFrom(s, false, "") && CutAtOpenCommas(s, out)
  {
    AttrsCut(s, "");
    assert "" + s == s;
    out := [];
    var cur, inQuotes := "", false;
    for i := 0 to |s|
      invariant out + AttrsFrom(s[i..], inQuotes, cur) == AttrsFrom(s, false, "")
    {
      assert s[i..][1..] == s[i + 1..];
      if s[i] == QUOTE {
        inQuotes := !inQuotes;
        cur := cur + [s[i]];
      } else if s[i] == ',' && !inQuotes {
        Regroup(out, [cur], AttrsFrom(s[i + 1..], inQuotes, ""));
        out := out + [cur];
        cur := "";
      } else {
        cur := cur + [s[i]];
      }
    }
    if |cur| > 0 {
      out := out + [cur];
    }
  }

  function AttrIn(attrs: seq<string>, want: string): Option<string> {
    if attrs == [] then None
    else
      match Cut(attrs[0])
      case Some((name, value)) =>
        if EqualFold(Trim(name), want) then Some(TrimQuotes(Trim(value))) else AttrIn(attrs[1..], want)
      case None => AttrIn(attrs[1..], want)
  }

  function AttrValue(line: string, want: string): Option<string> {
    var colon := IndexOf(line, ':');
    if colon < 0 then None else AttrIn(AttrsFrom(line[colon + 1..], false, ""), want)
  }

  /** The attach gate's own attribute lookup: split on every comma. */
  function PlainIn(fields: seq<string>, prefix: string): string {
    if fields == [] then ""
    else if prefix <= Trim(fields[0]) then TrimQuotes(Trim(fields[0])[|prefix|..])
    else PlainIn(fields[1..], prefix)
  }

  function PlainAttr(line: string, key: string): string {
    var colon := IndexOf(line, ':');
    if colon < 0 then "" else PlainIn(Split(line[colon + 1..], ','), key + "=")
  }

  /** ParseFloat with its error dropped: an unreadable number counts as zero. */
  function FloatOrZero(env: Env, s: string): real {
    match env.parseFloat(s)
    case Num(v) => v
    case _ => 0.0
  }

  // ---------------------------------------------------------------- firstVariant

  datatype VariantEvent = StreamInf | Uri(uri: string)

  function VariantView(line: string): Option<VariantEvent> {
    var t := Trim(line);
    if t == "" then None
    else if "#EXT-X-STREAM-INF:" <= t then Some(StreamInf)
    else if IsComment(t) then None
    else Some(Uri(t))
  }

  function VariantOf(events: seq<VariantEvent>, wantUri: bool): Option<string> {
    if events == [] then None
    else if events[0].StreamInf? then VariantOf(events[1..], true)
    else if wantUri then Some(events[0].uri)
    else VariantOf(events[1..], false)
  }

  function FirstVariantOf(text: string): Option<string> {
    VariantOf(View(VariantView, Split(text, '\n')), false)
  }

  method FirstVariant(master: string) returns (r: Option<string>)
    ensures r == FirstVariantOf(master)
  {
    var lines := Split(master, '\n');
    var wantUri := false;
    for i := 0 to |lines|
      invariant VariantOf(View(VariantView, lines[i..]), wantUri) == VariantOf(View(VariantView, lines), false)
    {
      ViewStep(VariantView, lines, i);
      match VariantView(lines[i])
      case None =>
      case Some(StreamInf) => wantUri := true;
      case Some(Uri(line)) =>
        if wantUri {
          return Some(line);
        }
    }
    return None;
  }

  // ---------------------------------------------------------------- mediaNames

  predicate CarriesUri(t: string) {
    "#EXT-X-MAP:" <= t || "#EXT-X-PART:" <= t || "#EXT-X-PRELOAD-HINT:" <= t
  }

  /** The reference a line makes: a segment line itself, or the URI of a MAP, PART or hint. */
  function RefView(line: string): Option<string> {
    var t := Trim(line);
    if t == "" then None
    else if !IsComment(t) then Some(t)
    else if CarriesUri(t) then AttrValue(t, "URI")
    else None
  }

  predicate Usable(raw: string) {
    Trim(raw) != "" && !Contains(Trim(raw), "://")
  }

  function Collect(raws: seq<string>, names: seq<string>): seq<string> {
    if raws == [] then names
    else if !Usable(raws[0]) || Trim(raws[0]) in names then Collect(raws[1..], names)
    else Collect(raws[1..], names + [Trim(raws[0])])
  }

  function MediaNamesOf(lines: seq<string>): seq<string> {
    Collect(View(RefView, lines), [])
  }

  method MediaNames(playlist: string) returns (names: seq<string>)
    ensures names == MediaNamesOf(Split(playlist, '\n'))
  {
    var lines := Split(playlist, '\n');
    names := [];
    var seen: set<string> := {};
    for i := 0 to |lines|
      invariant seen == set n | n in names
      invariant Collect(View(RefView, lines[i..]), names) == MediaNamesOf(lines)
    {
      ViewStep(RefView, lines, i);
      match RefView(lines[i])
      case None =>
      case Some(raw) => names, seen := Add(names, seen, raw);
    }
  }

  method Add(names: seq<string>, seen: set<string>, raw: string) returns (names': seq<string>, seen': set<string>)
    requires seen == set n | n in names
    ensures seen' == set n | n in names'
    ensures names' == if !Usable(raw) || Trim(raw) in names then names else names + [Trim(raw)]
  {
    names', seen' := names, seen;
    var name := Trim(raw);
    if name == "" || Contains(name, "://") || name in seen {
      return;
    }
    seen' := seen' + {name};
    names' := names' + [name];
  }

  ghost predicate Distinct(s: seq<string>) {
    forall i, j :: 0 <= i < j < |s| ==> s[i] != s[j]
  }

  /** A name is collected exactly when some line refers to it usably, and only once. */
  lemma {:induction false} CollectMembers(raws: seq<string>, names: seq<string>)
    requires Distinct(names)
    ensures forall n :: n in Collect(raws, names) <==>
                          n in names || exists r :: r in raws && Usable(r) && Trim(r) == n
    ensures Distinct(Collect(raws, names))
  {
    if raws != [] {
      assert raws == [raws[0]] + raws[1..];
      var next := if !Usable(raws[0]) || Trim(raws[0]) in names then names else names + [Trim(raws[0])];
      CollectMembers(raws[1..], next);
    }
  }

  // ---------------------------------------------------------------- required names

  predicate IsHint(line: string) {
    "#EXT-X-PRELOAD-HINT:" <= Trim(line)
  }

  function WithoutHints(lines: seq<string>): seq<string> {
    if lines == [] then []
    else if IsHint(lines[0]) then WithoutHints(lines[1..])
    else [lines[0]] + WithoutHints(lines[1..])
  }

  /** Everything the playlist names except preload hints, which may not exist yet. */
  function RequiredNames(lines: seq<string>): (r: set<string>) {
    set n | n in MediaNamesOf(WithoutHints(lines))
  }

  lemma {:induction false} HintsOnlyAdd(lines: seq<string>)
    ensures forall r :: r in View(RefView, WithoutHints(lines)) ==> r in View(RefView, lines)
  {
    if lines != [] {
      HintsOnlyAdd(lines[1..]);
    }
  }

  /** The upload loop covers every required name: it walks a superset of them. */
  lemma RequiredAreNamed(lines: seq<string>)
    ensures forall n :: n in RequiredNames(lines) ==> n in MediaNamesOf(lines)
  {
    HintsOnlyAdd(lines);
    CollectMembers(View(RefView, WithoutHints(lines)), []);
    CollectMembers(View(RefView, lines), []);
  }

  // ---------------------------------------------------------------- mapURIs

  function MapView(line: string): Option<string> {
    var t := Trim(line);
    if !("#EXT-X-MAP:" <= t) then None
    else
      var i := FindUri(t);
      if i < 0 then None
      else
        var rest := t[i + 5..];
        var j := IndexOf(rest, QUOTE);
        if j < 0 then None else Some(rest[..j])
  }

  /** strings.Index(t, `URI="`). */
  function FindUri(t: string): (i: int)
    ensures i < 0 || (0 <= i <= |t| - 5 && At(t, i, "URI=\""))
  {
    if |t| < 5 then -1
    else if t[..5] == "URI=\"" then 0
    else
      var k := FindUri(t[1..]);
      if k < 0 then -1 else assert t[1..][k..k + 5] == t[k + 1..k + 6]; k + 1
  }

  function MapUrisOf(text: string): seq<string> {
    View(MapView, Split(text, '\n'))
  }

  method MapUris(playlist: string) returns (names: seq<string>)
    ensures names == MapUrisOf(playlist)
  {
    var lines := Split(playlist, '\n');
    names := [];
    for i := 0 to |lines|
      invariant names + View(MapView, lines[i..]) == View(MapView, lines)
    {
      ViewStep(MapView, lines, i);
      match MapView(lines[i])
      case None =>
      case Some(uri) =>
        assert View(MapView, lines[i..]) == [uri] + View(MapView, lines[i + 1..]);
        names := names + [uri];
    }
  }

  // ---------------------------------------------------------------- playlistHas

  datatype SeqEvent = Base(msn: int) | PartMark | Closed

  function SeqView(line: string): Option<SeqEvent> {
    var t := Trim(line);
    if "#EXT-X-MEDIA-SEQUENCE:" <= t then
      match ParseInt64(t[|"#EXT-X-MEDIA-SEQUENCE:"|..]) case Some(v) => Some(Base(v)) case None => None
    else if "#EXT-X-PART:" <= t then Some(PartMark)
    else if "#EXTINF:" <= t then Some(Closed)
    else None
  }

  function HasFrom(events: seq<SeqEvent>, msn: int, parts: nat, sawBase: bool, wantMsn: int, wantPart: int): bool {
    if events == [] then
      if !sawBase && wantMsn > 0 then false
      else if wantMsn < msn then true
      else wantMsn == msn && 0 <= wantPart < parts
    else
      match events[0]
      case Base(v) => HasFrom(events[1..], v, parts, true, wantMsn, wantPart)
      case PartMark => HasFrom(events[1..], msn, parts + 1, sawBase, wantMsn, wantPart)
      case Closed => wantMsn <= msn || HasFrom(events[1..], msn + 1, 0, sawBase, wantMsn, wantPart)
  }

  function Has(text: string, wantMsn: int, wantPart: int): bool {
    HasFrom(View(SeqView, Split(text, '\n')), 0, 0, false, wantMsn, wantPart)
  }

  method PlaylistHas(playlist: string, wantMsn: int, wantPart: int) returns (r: bool)
    ensures r == Has(playlist, wantMsn, wantPart)
  {
    var msn, parts, sawBase := 0, 0, false;
    var lines := Split(playlist, '\n');
    ghost var goal := Has(playlist, wantMsn, wantPart);
    assert lines[0..] == lines;
    for i := 0 to |lines|
      invariant parts >= 0
      invariant HasFrom(View(SeqView, lines[i..]), msn, parts, sawBase, wantMsn, wantPart) == goal
    {
      ViewStep(SeqView, lines, i);
      match SeqView(lines[i])
      case None =>
      case Some(Base(v)) => msn, sawBase := v, true;
      case Some(PartMark) => parts := parts + 1;
      case Some(Closed) =>
        if wantMsn <= msn {
          return true;
        }
        msn, parts := msn + 1, 0;
    }
    if !sawBase && wantMsn > 0 {
      return false;
    }
    if wantMsn < msn {
      return true;
    }
    if wantMsn == msn {
      if wantPart < 0 {
        return false;
      }
      return wantPart < parts;
    }
    return false;
  }

  // ---------------------------------------------------------------- the attach gate's timeline

  datatype Unit = Unit(duration: real, gap: bool)

  datatype TimeEvent =
    | PartTarget(seconds: real)
    | GapTag
    | ExtInf(seconds: real)
    | Part(duration: real, gap: bool)
    | UriLine

  datatype Scan = Scan(units: seq<Unit>, pending: real, pendingGap: bool, openParts: nat, partTarget: real)

  const START: Scan := Scan([], -1.0, false, 0, 0.0)

  function BeforeComma(s: string): string {
    var i := IndexOf(s, ',');
    if i < 0 then s else s[..i]
  }

  function TimeView(env: Env, line: string): Option<TimeEvent> {
    var t := Trim(line);
    if "#EXT-X-SERVER-CONTROL:" <= t then None
    else if "#EXT-X-PART-INF:" <= t then Some(PartTarget(FloatOrZero(env, PlainAttr(t, "PART-TARGET"))))
    else if t == "#EXT-X-GAP" then Some(GapTag)
    else if "#EXTINF:" <= t then Some(ExtInf(FloatOrZero(env, BeforeComma(t[|"#EXTINF:"|..]))))
    else if "#EXT-X-PART:" <= t then
      Some(Part(FloatOrZero(env, PlainAttr(t, "DURATION")), EqualFold(PlainAttr(t, "GAP"), "YES")))
    else if t != "" && !IsComment(t) then Some(UriLine)
    else None
  }

  predicate AnyGap(units: seq<Unit>) {
    exists u :: u in units && u.gap
  }

  predicate OpenFits(s: Scan) {
    s.openParts <= |s.units|
  }

  function Absorb(s: Scan, e: TimeEvent): (r: Scan)
    requires OpenFits(s)
    ensures OpenFits(r)
  {
    match e
    case PartTarget(seconds) => s.(partTarget := seconds)
    case GapTag => s.(pendingGap := true)
    case ExtInf(seconds) => s.(pending := seconds)
    case Part(d, gap) =>
      if d > 0.0 then s.(units := s.units + [Unit(d, gap)], openParts := s.openParts + 1) else s
    case UriLine =>
      if s.pending < 0.0 then s
      else
        var closed := |s.units| - s.openParts;
        Scan(s.units[..closed] + [Unit(s.pending, s.pendingGap || AnyGap(s.units[closed..]))],
             -1.0, false, 0, s.partTarget)
  }

  function Absorbed(s: Scan, events: seq<TimeEvent>): (r: Scan)
    requires OpenFits(s)
    ensures OpenFits(r)
    decreases |events|
  {
    if events == [] then s else Absorbed(Absorb(s, events[0]), events[1..])
  }

  /** The duration of the gap-free stretch at the live edge. */
  function RealSuffix(units: seq<Unit>): real {
    if units == [] || units[|units| - 1].gap then 0.0
    else RealSuffix(units[..|units| - 1]) + units[|units| - 1].duration
  }

  function GapTotal(units: seq<Unit>): real {
    if units == [] then 0.0
    else GapTotal(units[..|units| - 1]) + if units[|units| - 1].gap then units[|units| - 1].duration else 0.0
  }

  datatype Readiness = Readiness(partTarget: real, realHistory: real, gapHistory: real)

  function MeasureOf(env: Env, text: string): Readiness {
    var s := Absorbed(START, View(line => TimeView(env, line), Split(text, '\n')));
    Readiness(s.partTarget, RealSuffix(s.units), GapTotal(s.units))
  }

  /** The single pass: parts stand for the open segment until its EXTINF supersedes them. */
  method ParseMedia(env: Env, body: string) returns (r: Readiness)
    ensures r == MeasureOf(env, body)
  {
    var units: seq<Unit>, pending, pendingGap, openParts := [], -1.0, false, 0;
    var partTarget := 0.0;
    var lines := Split(body, '\n');
    var v := line => TimeView(env, line);
    for i := 0 to |lines|
      invariant 0 <= openParts <= |units|
      invariant Absorbed(Scan(units, pending, pendingGap, openParts, partTarget), View(v, lines[i..]))
             == Absorbed(START, View(v, lines))
    {
      ViewStep(v, lines, i);
      ghost var s := Scan(units, pending, pendingGap, openParts, partTarget);
      match v(lines[i]) {
      case None =>
      case Some(PartTarget(seconds)) => partTarget := seconds;
      case Some(GapTag) => pendingGap := true;
      case Some(ExtInf(seconds)) => pending := seconds;
      case Some(Part(duration, gap)) =>
        if duration > 0.0 {
          units := units + [Unit(duration, gap)];
          openParts := openParts + 1;
        }
      case Some(UriLine) =>
        if pending >= 0.0 {
          var closed := |units| - openParts;
          var gap := CarryGap(units[closed..], pendingGap);
          units := units[..closed] + [Unit(pending, gap)];
          openParts := 0;
          pending := -1.0;
          pendingGap := false;
        }
      }
      assert v(lines[i]).Some? ==>
        Scan(units, pending, pendingGap, openParts, partTarget) == Absorb(s, v(lines[i]).value);
    }
    var history := SumRealSuffix(units);
    var gaps := 0.0;
    for i := 0 to |units|
      invariant gaps == GapTotal(units[..i])
    {
      assert units[..i + 1][..i] == units[..i];
      if units[i].gap {
        gaps := gaps + units[i].duration;
      }
    }
    assert units[..|units|] == units;
    r := Readiness(partTarget, history, gaps);
  }

  /** Superseded parts hand their gap flag to the segment that replaces them. */
  method CarryGap(parts: seq<Unit>, pendingGap: bool) returns (gap: bool)
    ensures gap == (pendingGap || AnyGap(parts))
  {
    gap := pendingGap;
    for k := 0 to |parts|
      invariant gap == (pendingGap || AnyGap(parts[..k]))
    {
      assert parts[..k + 1] == parts[..k] + [parts[k]];
      if parts[k].gap {
        assert parts[k] in parts[..k + 1];
        gap := true;
      }
    }
    assert parts[..|parts|] == parts;
  }

  method SumRealSuffix(units: seq<Unit>) returns (total: real)
    ensures total == RealSuffix(units)
  {
    total := 0.0;
    var i := |units|;
    assert units[..i] == units;
    while i > 0 && !units[i - 1].gap
      invariant 0 <= i <= |units|
      invariant total + RealSuffix(units[..i]) == RealSuffix(units)
    {
      assert units[..i][..i - 1] == units[..i - 1];
      i := i - 1;
      total := total + units[i].duration;
    }
  }
}

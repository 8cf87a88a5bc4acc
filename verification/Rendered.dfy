/** What the readers extract, told from the other side: a playlist written tag by tag reads
back, in every reader, as the values it was written with. */
module Rendered {
  import opened Text
  import opened Readers
  import opened Blocking

  // ---------------------------------------------------------------- attributes

  datatype Attr = Attr(name: string, value: string, quoted: bool)

  function Written(a: Attr): string {
    a.name + "=" + ValueText(a)
  }

  function ValueText(a: Attr): string {
    if a.quoted then [QUOTE] + a.value + [QUOTE] else a.value
  }

  predicate NoSpace(s: string) {
    forall i :: 0 <= i < |s| ==> !IsSpace(s[i])
  }

  /** A name is plain text; a value has no quote in it, and unless it is quoted neither comma
      nor space. */
  predicate Proper(a: Attr) {
    && a.name != "" && NoSpace(a.name) && '=' !in a.name && QUOTE !in a.name && COMMA !in a.name
    && QUOTE !in a.value && (!a.quoted ==> a.value != "" && NoSpace(a.value) && COMMA !in a.value)
  }

  function WrittenAll(attrs: seq<Attr>): (r: seq<string>)
    ensures |r| == |attrs| && forall i :: 0 <= i < |r| ==> r[i] == Written(attrs[i])
  {
    if attrs == [] then [] else [Written(attrs[0])] + WrittenAll(attrs[1..])
  }

  ghost predicate AllProper(attrs: seq<Attr>) {
    forall i :: 0 <= i < |attrs| ==> Proper(attrs[i])
  }

  lemma {:induction false} OpenPlain(s: string)
    requires QUOTE !in s
    ensures !Open(s)
  {
    if s != "" {
      OpenPlain(s[..|s| - 1]);
    }
  }

  lemma {:induction false} OpenConcat(s: string, t: string)
    ensures Open(s + t) <==> Open(s) != Open(t)
  {
    if t == "" {
      assert s + t == s;
    } else {
      OpenConcat(s, t[..|t| - 1]);
      assert (s + t)[..|s + t| - 1] == s + t[..|t| - 1];
    }
  }

  lemma PlainPiece(s: string)
    requires QUOTE !in s && COMMA !in s
    ensures !Open(s) && NoOpenComma(s)
  {
    OpenPlain(s);
  }

  lemma QuotedPiece(head: string, value: string)
    requires QUOTE !in head && COMMA !in head && QUOTE !in value
    ensures var s := head + [QUOTE] + value + [QUOTE]; !Open(s) && NoOpenComma(s)
  {
    var s := head + [QUOTE] + value + [QUOTE];
    OpenPlain(head);
    OpenSnoc(head, QUOTE);
    OpenPlain(value);
    OpenConcat(head + [QUOTE], value);
    OpenSnoc(head + [QUOTE] + value, QUOTE);
    forall i | 0 <= i < |s| && s[i] == COMMA ensures Open(s[..i]) {
      assert i > |head| && i < |s| - 1;
      var k := i - |head| - 1;
      assert s[..i] == head + [QUOTE] + value[..k];
      OpenPlain(value[..k]);
      OpenConcat(head + [QUOTE], value[..k]);
    }
  }

  lemma WrittenPiece(a: Attr)
    requires Proper(a)
    ensures !Open(Written(a)) && NoOpenComma(Written(a)) && Written(a) != ""
  {
    if a.quoted {
      assert Written(a) == (a.name + "=") + [QUOTE] + a.value + [QUOTE];
      QuotedPiece(a.name + "=", a.value);
    } else {
      PlainPiece(Written(a));
    }
  }

  lemma {:induction false} WrittenCut(attrs: seq<Attr>)
    requires AllProper(attrs)
    ensures CutAtOpenCommas(Join(WrittenAll(attrs), COMMA), WrittenAll(attrs))
  {
    if attrs != [] {
      var pieces, text := WrittenAll(attrs), Join(WrittenAll(attrs), COMMA);
      WrittenPiece(attrs[0]);
      if |attrs| > 1 {
        assert pieces[1..] == WrittenAll(attrs[1..]);
        WrittenCut(attrs[1..]);
        assert text == (pieces[0] + [COMMA]) + Join(pieces[1..], COMMA);
        assert text[|pieces[0]| + 1..] == Join(pieces[1..], COMMA);
      }
    }
  }

  /** Splitting gives back the attributes written. */
  lemma WrittenSplits(attrs: seq<Attr>)
    requires AllProper(attrs)
    ensures AttrsFrom(Join(WrittenAll(attrs), COMMA), false, "") == WrittenAll(attrs)
  {
    var text := Join(WrittenAll(attrs), COMMA);
    WrittenCut(attrs);
    AttrsCut(text, "");
    assert "" + text == text;
    OneCut(text, AttrsFrom(text, false, ""), WrittenAll(attrs));
  }

  lemma CutWritten(a: Attr)
    requires Proper(a)
    ensures Cut(Written(a)) == Some((a.name, ValueText(a)))
  {
    var s := Written(a);
    assert s[..|a.name|] == a.name;
    IndexIs(s, '=', |a.name|);
    assert s[|a.name| + 1..] == ValueText(a);
  }

  lemma Unquoted(value: string)
    requires QUOTE !in value
    ensures TrimQuotes(value) == value && TrimQuotes([QUOTE] + value + [QUOTE]) == value
  {
    var s := [QUOTE] + value + [QUOTE];
    assert s[1..] == value + [QUOTE];
    var t := value + [QUOTE];
    if value == "" {
      assert t[1..] == "";
    } else {
      assert t[..|t| - 1] == value && t[0] == value[0];
      assert value[0] in value && value[|value| - 1] in value;
    }
  }

  lemma ValueReads(a: Attr)
    requires Proper(a)
    ensures Trim(a.name) == a.name && TrimQuotes(Trim(ValueText(a))) == a.value
  {
    TrimIdentity(a.name);
    TrimIdentity(ValueText(a));
    Unquoted(a.value);
  }

  /** The first attribute of this name, in any case of letters. */
  function Lookup(attrs: seq<Attr>, want: string): Option<string> {
    if attrs == [] then None
    else if EqualFold(attrs[0].name, want) then Some(attrs[0].value)
    else Lookup(attrs[1..], want)
  }

  lemma {:induction false} LookupReads(attrs: seq<Attr>, want: string)
    requires AllProper(attrs)
    ensures AttrIn(WrittenAll(attrs), want) == Lookup(attrs, want)
  {
    if attrs != [] {
      CutWritten(attrs[0]);
      ValueReads(attrs[0]);
      LookupReads(attrs[1..], want);
      assert WrittenAll(attrs)[1..] == WrittenAll(attrs[1..]);
    }
  }

  function TagLine(tag: string, attrs: seq<Attr>): string {
    tag + ":" + Join(WrittenAll(attrs), COMMA)
  }

  lemma AfterColon(tag: string, rest: string)
    requires ':' !in tag
    ensures IndexOf(tag + ":" + rest, ':') == |tag| && (tag + ":" + rest)[|tag| + 1..] == rest
  {
    var s := tag + ":" + rest;
    assert s[..|tag|] == tag;
    IndexIs(s, ':', |tag|);
  }

  /** An attribute is read back with the value it was written with, quoted or not, whatever
      stands before and behind it. */
  lemma AttrReadsBack(tag: string, attrs: seq<Attr>, want: string)
    requires ':' !in tag && AllProper(attrs)
    ensures AttrValue(TagLine(tag, attrs), want) == Lookup(attrs, want)
  {
    AfterColon(tag, Join(WrittenAll(attrs), COMMA));
    WrittenSplits(attrs);
    LookupReads(attrs, want);
  }

  // ---------------------------------------------------------------- the plain lookup

  /** The attach gate cuts at every comma and knows names by their exact letters. */
  function LookupExact(attrs: seq<Attr>, want: string): string {
    if attrs == [] then ""
    else if attrs[0].name == want then attrs[0].value
    else LookupExact(attrs[1..], want)
  }

  ghost predicate NoCommas(attrs: seq<Attr>) {
    forall i :: 0 <= i < |attrs| ==> COMMA !in attrs[i].value
  }

  lemma FieldTrims(a: Attr)
    requires Proper(a)
    ensures Trim(Written(a)) == Written(a)
  {
    var s := Written(a);
    assert s[0] == a.name[0];
    assert s[|s| - 1] == ValueText(a)[|ValueText(a)| - 1];
    TrimIdentity(s);
  }

  lemma NameEnds(name: string, rest: string, want: string)
    requires '=' !in name && '=' !in want && want + "=" <= name + "=" + rest
    ensures name == want
  {
    var s := name + "=" + rest;
    assert s[..|want|] == want && s[|want|] == (want + "=")[|want|];
    assert s[..|name|] == name;
    IndexIs(s, '=', |want|);
    IndexIs(s, '=', |name|);
  }

  lemma FieldReads(a: Attr, want: string)
    requires Proper(a) && '=' !in want
    ensures want + "=" <= Written(a) <==> a.name == want
    ensures a.name == want ==> TrimQuotes(Written(a)[|want| + 1..]) == a.value
  {
    assert Written(a)[|a.name| + 1..] == ValueText(a);
    Unquoted(a.value);
    if want + "=" <= Written(a) {
      NameEnds(a.name, ValueText(a), want);
    }
  }

  lemma {:induction false} LookupExactReads(attrs: seq<Attr>, want: string)
    requires AllProper(attrs) && '=' !in want
    ensures PlainIn(WrittenAll(attrs), want + "=") == LookupExact(attrs, want)
  {
    if attrs != [] {
      FieldTrims(attrs[0]);
      FieldReads(attrs[0], want);
      LookupExactReads(attrs[1..], want);
      assert WrittenAll(attrs)[1..] == WrittenAll(attrs[1..]);
    }
  }

  lemma LacksConcat(a: string, b: string, c: char)
    requires c !in a && c !in b
    ensures c !in a + b
  {
  }

  lemma WrittenLacks(a: Attr)
    requires Proper(a) && COMMA !in a.value
    ensures COMMA !in Written(a)
  {
    LacksConcat(a.name, "=", COMMA);
    LacksConcat([QUOTE], a.value, COMMA);
    LacksConcat([QUOTE] + a.value, [QUOTE], COMMA);
    LacksConcat(a.name + "=", ValueText(a), COMMA);
  }

  lemma WrittenClean(attrs: seq<Attr>)
    requires AllProper(attrs) && NoCommas(attrs)
    ensures Clean(WrittenAll(attrs), COMMA)
  {
    forall i | 0 <= i < |attrs| ensures COMMA !in WrittenAll(attrs)[i] {
      WrittenLacks(attrs[i]);
    }
  }

  lemma PlainReadsBack(tag: string, attrs: seq<Attr>, want: string)
    requires ':' !in tag && attrs != [] && AllProper(attrs) && NoCommas(attrs) && '=' !in want
    ensures PlainAttr(TagLine(tag, attrs), want) == LookupExact(attrs, want)
  {
    AfterColon(tag, Join(WrittenAll(attrs), COMMA));
    WrittenClean(attrs);
    SplitJoin(WrittenAll(attrs), COMMA);
    LookupExactReads(attrs, want);
  }

  // ---------------------------------------------------------------- numbers

  lemma {:induction false} DigitsReadBack(n: nat)
    ensures Digits(NatDigits(n)) == n && NatDigits(n) != ""
    ensures forall c :: c in NatDigits(n) ==> '0' <= c <= '9'
  {
    var s := NatDigits(n);
    if n < 10 {
      assert s[..0] == "";
    } else {
      DigitsReadBack(n / 10);
      assert s[..|s| - 1] == NatDigits(n / 10);
    }
  }

  function Within64(v: int): Option<int> {
    if -0x8000_0000_0000_0000 <= v <= 0x7FFF_FFFF_FFFF_FFFF then Some(v) else None
  }

  lemma PlainParses(d: string)
    requires d != "" && forall c :: c in d ==> '0' <= c <= '9'
    ensures ParseInt64(d) == Within64(Digits(d))
  {
    assert d[0] in d;
  }

  lemma NegativeParses(d: string)
    requires d != "" && forall c :: c in d ==> '0' <= c <= '9'
    ensures ParseInt64("-" + d) == Within64(-Digits(d))
  {
    assert ("-" + d)[1..] == d;
  }

  /** A decimal number reads back as itself while it fits 64 bits, and not at all beyond. */
  lemma DecimalReadsBack(n: int)
    ensures ParseInt64(Decimal(n)) == Within64(n)
  {
    if n < 0 {
      DigitsReadBack(-n);
      NegativeParses(NatDigits(-n));
    } else {
      DigitsReadBack(n);
      PlainParses(NatDigits(n));
    }
  }

  // ---------------------------------------------------------------- tag lines

  datatype Kind = Stream | Init | OnePart | Hint | Sequence | Inf | Control | PartInf

  function Head(k: Kind): string {
    match k
    case Stream => "#EXT-X-STREAM-INF"
    case Init => "#EXT-X-MAP"
    case OnePart => "#EXT-X-PART"
    case Hint => "#EXT-X-PRELOAD-HINT"
    case Sequence => "#EXT-X-MEDIA-SEQUENCE"
    case Inf => "#EXTINF"
    case Control => "#EXT-X-SERVER-CONTROL"
    case PartInf => "#EXT-X-PART-INF"
  }

  /** Where two tags first differ, with the colon behind a tag's name counted in. */
  function Differs(a: Kind, b: Kind): nat {
    var pair := {a, b};
    if Inf in pair then 4
    else if pair == {OnePart, PartInf} then 11
    else if pair == {Stream, Control} || pair == {Init, Sequence} then 8
    else if pair == {OnePart, Hint} || pair == {PartInf, Hint} then 8
    else 7
  }

  function Letter(k: Kind, i: nat): char {
    if i < |Head(k)| then Head(k)[i] else ':'
  }

  lemma DifferThere(a: Kind, b: Kind)
    requires a != b
    ensures Differs(a, b) <= |Head(a)| && Differs(a, b) <= |Head(b)|
    ensures Letter(a, Differs(a, b)) != Letter(b, Differs(a, b))
  {
  }

  lemma TagLetter(k: Kind, i: nat, line: string)
    requires Head(k) + ":" <= line && i <= |Head(k)|
    ensures i < |line| && line[i] == Letter(k, i)
  {
    assert (Head(k) + ":")[i] == line[i];
  }

  /** A line starts with the name of one tag only. */
  lemma OneTag(a: Kind, b: Kind, line: string)
    requires a != b && Head(a) + ":" <= line
    ensures !(Head(b) + ":" <= line)
  {
    DifferThere(a, b);
    TagLetter(a, Differs(a, b), line);
    if Head(b) + ":" <= line {
      TagLetter(b, Differs(a, b), line);
    }
  }

  lemma Headers()
    ensures Head(Stream) + ":" == "#EXT-X-STREAM-INF:"
    ensures Head(Init) + ":" == "#EXT-X-MAP:" && Head(OnePart) + ":" == "#EXT-X-PART:"
    ensures Head(Hint) + ":" == "#EXT-X-PRELOAD-HINT:" && Head(Sequence) + ":" == "#EXT-X-MEDIA-SEQUENCE:"
    ensures Head(Inf) + ":" == "#EXTINF:" && Head(Control) + ":" == "#EXT-X-SERVER-CONTROL:"
    ensures Head(PartInf) + ":" == "#EXT-X-PART-INF:"
  {
  }

  lemma HeadIsTag(k: Kind)
    ensures "#" <= Head(k) && ':' !in Head(k)
  {
  }

  // ---------------------------------------------------------------- what each reader takes from a tag

  /** The line of tag `k`, and what it says behind the colon. */
  ghost predicate IsLine(k: Kind, body: string, line: string) {
    line == Head(k) + ":" + body && Trim(line) == line
  }

  lemma TagStarts(k: Kind, body: string, line: string)
    requires IsLine(k, body, line)
    ensures Head(k) + ":" <= line && IsComment(line) && line != "" && line != "#EXT-X-GAP"
    ensures line[|Head(k)| + 1..] == body
    ensures forall b: Kind :: b != k ==> !(Head(b) + ":" <= line)
  {
    HeadIsTag(k);
    forall b: Kind | b != k ensures !(Head(b) + ":" <= line) {
      OneTag(k, b, line);
    }
    assert line[|Head(k)|] == ':';
  }

  lemma StreamIsSeen(k: Kind, body: string, line: string)
    requires IsLine(k, body, line)
    ensures VariantView(line) == if k == Stream then Some(StreamInf) else None
  {
    TagStarts(k, body, line);
    Headers();
  }

  lemma ReferenceIsSeen(k: Kind, body: string, line: string)
    requires IsLine(k, body, line)
    ensures RefView(line) == if k in {Init, OnePart, Hint} then AttrValue(line, "URI") else None
  {
    TagStarts(k, body, line);
    Headers();
  }

  lemma SequenceIsSeen(k: Kind, body: string, line: string)
    requires IsLine(k, body, line)
    ensures SeqView(line) == match k
                             case Sequence => (match ParseInt64(body) case Some(v) => Some(Base(v)) case None => None)
                             case OnePart => Some(PartMark)
                             case Inf => Some(Closed)
                             case _ => None
  {
    TagStarts(k, body, line);
    Headers();
  }

  lemma TimeIsSeen(env: Env, k: Kind, body: string, line: string)
    requires IsLine(k, body, line)
    ensures TimeView(env, line) ==
            match k
            case PartInf => Some(PartTarget(FloatOrZero(env, PlainAttr(line, "PART-TARGET"))))
            case Inf => Some(ExtInf(FloatOrZero(env, BeforeComma(body))))
            case OnePart =>
              Some(Part(FloatOrZero(env, PlainAttr(line, "DURATION")), EqualFold(PlainAttr(line, "GAP"), "YES")))
            case _ => None
  {
    TagStarts(k, body, line);
    Headers();
  }

  lemma OnlyInitHasMap(k: Kind, body: string, line: string)
    requires IsLine(k, body, line) && k != Init
    ensures MapView(line) == None
  {
    TagStarts(k, body, line);
    Headers();
  }

  // ---------------------------------------------------------------- playlists, entry by entry

  datatype Entry =
    | Tag(kind: Kind, attrs: seq<Attr>)
    | Number(n: int)                 // EXT-X-MEDIA-SEQUENCE
    | Seconds(text: string)          // EXTINF
    | Name(uri: string)              // a segment or variant line
    | GapMark

  function LineOf(e: Entry): string {
    match e
    case Tag(k, attrs) => TagLine(Head(k), attrs)
    case Number(n) => Head(Sequence) + ":" + Decimal(n)
    case Seconds(text) => Head(Inf) + ":" + (text + ",")
    case Name(uri) => uri
    case GapMark => "#EXT-X-GAP"
  }

  ghost predicate Good(e: Entry) {
    && '\n' !in LineOf(e)
    && match e
       case Tag(k, attrs) => k != Sequence && k != Inf && attrs != [] && AllProper(attrs)
       case Number(_) => true
       case Seconds(text) => COMMA !in text
       case Name(uri) => uri != "" && Trim(uri) == uri && !IsComment(uri)
       case GapMark => true
  }

  lemma {:induction false} JoinEnds(parts: seq<string>)
    requires parts != [] && forall i :: 0 <= i < |parts| ==> parts[i] != ""
    ensures Join(parts, COMMA) != ""
    ensures var s, p := Join(parts, COMMA), parts[|parts| - 1]; s[|s| - 1] == p[|p| - 1]
  {
    if |parts| > 1 {
      JoinEnds(parts[1..]);
    }
  }

  lemma WrittenSomething(attrs: seq<Attr>)
    ensures forall i :: 0 <= i < |attrs| ==> WrittenAll(attrs)[i] != ""
  {
    forall i | 0 <= i < |attrs| ensures WrittenAll(attrs)[i] != "" {
      assert |Written(attrs[i])| > 0;
    }
  }

  lemma WrittenEnds(attrs: seq<Attr>)
    requires attrs != [] && AllProper(attrs)
    ensures var s := Join(WrittenAll(attrs), COMMA); s != "" && !IsSpace(s[|s| - 1])
  {
    WrittenSomething(attrs);
    JoinEnds(WrittenAll(attrs));
    FieldEnds(attrs[|attrs| - 1]);
  }

  lemma FieldEnds(a: Attr)
    requires Proper(a)
    ensures Written(a) != "" && !IsSpace(Written(a)[|Written(a)| - 1])
  {
    assert Written(a)[|Written(a)| - 1] == ValueText(a)[|ValueText(a)| - 1];
  }

  lemma LineTrims(k: Kind, body: string)
    requires body != "" && !IsSpace(body[|body| - 1])
    ensures IsLine(k, body, Head(k) + ":" + body)
  {
    var line := Head(k) + ":" + body;
    HeadIsTag(k);
    assert line[0] == Head(k)[0] == "#"[0];
    TrimIdentity(line);
  }

  /** The tag an entry writes, and its text behind the colon. */
  function KindOf(e: Entry): Kind
    requires !e.Name? && !e.GapMark?
  {
    match e case Tag(k, _) => k case Number(_) => Sequence case Seconds(_) => Inf
  }

  function BodyOf(e: Entry): string
    requires !e.Name? && !e.GapMark?
  {
    match e
    case Tag(_, attrs) => Join(WrittenAll(attrs), COMMA)
    case Number(n) => Decimal(n)
    case Seconds(text) => text + ","
  }

  lemma EntryLine(e: Entry)
    requires Good(e) && !e.Name? && !e.GapMark?
    ensures IsLine(KindOf(e), BodyOf(e), LineOf(e))
  {
    match e
    case Tag(k, attrs) =>
      WrittenEnds(attrs);
      LineTrims(k, BodyOf(e));
    case Number(n) =>
      DecimalReadsBack(n);
      DecimalEnds(n);
      LineTrims(Sequence, Decimal(n));
    case Seconds(text) => LineTrims(Inf, text + ",");
  }

  lemma DecimalEnds(n: int)
    ensures Decimal(n) != "" && !IsSpace(Decimal(n)[|Decimal(n)| - 1])
  {
    var m := if n < 0 then -n else n;
    DigitsReadBack(m);
    var d := NatDigits(m);
    assert d[|d| - 1] in d && Decimal(n)[|Decimal(n)| - 1] == d[|d| - 1];
  }

  lemma NameIsName(uri: string)
    requires uri != "" && Trim(uri) == uri && !IsComment(uri)
    ensures forall k: Kind :: !(Head(k) + ":" <= uri)
    ensures uri != "#EXT-X-GAP"
  {
    forall k: Kind ensures !(Head(k) + ":" <= uri) {
      HeadIsTag(k);
    }
  }

  lemma GapIsMark()
    ensures Trim("#EXT-X-GAP") == "#EXT-X-GAP" && IsComment("#EXT-X-GAP")
    ensures forall k: Kind :: !(Head(k) + ":" <= "#EXT-X-GAP")
  {
    TrimIdentity("#EXT-X-GAP");
    forall k: Kind ensures !(Head(k) + ":" <= "#EXT-X-GAP") {
      if Head(k) + ":" <= "#EXT-X-GAP" {
        TagLetter(k, |Head(k)|, "#EXT-X-GAP");
      }
    }
  }

  // ---------------------------------------------------------------- entries as each reader takes them

  function AsVariant(e: Entry): Option<VariantEvent> {
    match e
    case Tag(k, _) => if k == Stream then Some(StreamInf) else None
    case Name(uri) => Some(Uri(uri))
    case _ => None
  }

  function AsReference(e: Entry): Option<string> {
    match e
    case Tag(k, attrs) => if k in {Init, OnePart, Hint} then Lookup(attrs, "URI") else None
    case Name(uri) => Some(uri)
    case _ => None
  }

  function AsSequence(e: Entry): Option<SeqEvent> {
    match e
    case Tag(k, _) => if k == OnePart then Some(PartMark) else None
    case Number(n) => if Within64(n).Some? then Some(Base(n)) else None
    case Seconds(_) => Some(Closed)
    case _ => None
  }

  function AsTime(env: Env, e: Entry): Option<TimeEvent> {
    match e
    case Tag(k, attrs) =>
      if k == PartInf then Some(PartTarget(FloatOrZero(env, LookupExact(attrs, "PART-TARGET"))))
      else if k == OnePart then
        Some(Part(FloatOrZero(env, LookupExact(attrs, "DURATION")), EqualFold(LookupExact(attrs, "GAP"), "YES")))
      else None
    case Number(_) => None
    case Seconds(text) => Some(ExtInf(FloatOrZero(env, text)))
    case Name(_) => Some(UriLine)
    case GapMark => Some(GapTag)
  }

  lemma VariantReads(e: Entry)
    requires Good(e)
    ensures VariantView(LineOf(e)) == AsVariant(e)
  {
    match e
    case Name(uri) => NameIsName(uri); Headers();
    case GapMark => GapIsMark(); Headers();
    case _ => EntryLine(e); StreamIsSeen(KindOf(e), BodyOf(e), LineOf(e));
  }

  lemma ReferenceReads(e: Entry)
    requires Good(e)
    ensures RefView(LineOf(e)) == AsReference(e)
  {
    match e
    case Name(uri) => NameIsName(uri);
    case GapMark => GapIsMark(); Headers();
    case Tag(k, attrs) =>
      EntryLine(e);
      ReferenceIsSeen(k, BodyOf(e), LineOf(e));
      HeadIsTag(k);
      AttrReadsBack(Head(k), attrs, "URI");
    case _ => EntryLine(e); ReferenceIsSeen(KindOf(e), BodyOf(e), LineOf(e));
  }

  lemma SequenceReads(e: Entry)
    requires Good(e)
    ensures SeqView(LineOf(e)) == AsSequence(e)
  {
    match e
    case Name(uri) => NameIsName(uri); Headers();
    case GapMark => GapIsMark(); Headers();
    case Number(n) =>
      EntryLine(e);
      SequenceIsSeen(Sequence, BodyOf(e), LineOf(e));
      DecimalReadsBack(n);
    case _ => EntryLine(e); SequenceIsSeen(KindOf(e), BodyOf(e), LineOf(e));
  }

  lemma BeforeItsComma(text: string)
    requires COMMA !in text
    ensures BeforeComma(text + ",") == text
  {
    var s := text + ",";
    assert s[..|text|] == text;
    IndexIs(s, COMMA, |text|);
  }

  lemma TagTimeReads(env: Env, e: Entry)
    requires Good(e) && e.Tag? && (e.kind in {OnePart, PartInf} ==> NoCommas(e.attrs))
    ensures TimeView(env, LineOf(e)) == AsTime(env, e)
  {
    EntryLine(e);
    TimeIsSeen(env, e.kind, BodyOf(e), LineOf(e));
    HeadIsTag(e.kind);
    if e.kind == PartInf {
      PlainReadsBack(Head(e.kind), e.attrs, "PART-TARGET");
    }
    if e.kind == OnePart {
      PlainReadsBack(Head(e.kind), e.attrs, "DURATION");
      PlainReadsBack(Head(e.kind), e.attrs, "GAP");
    }
  }

  lemma TimeReads(env: Env, e: Entry)
    requires Good(e) && (e.Tag? && e.kind in {OnePart, PartInf} ==> NoCommas(e.attrs))
    ensures TimeView(env, LineOf(e)) == AsTime(env, e)
  {
    match e
    case Tag(_, _) => TagTimeReads(env, e);
    case Name(uri) => NameIsName(uri); Headers();
    case GapMark => GapIsMark(); Headers();
    case Number(_) => EntryLine(e); TimeIsSeen(env, Sequence, BodyOf(e), LineOf(e));
    case Seconds(text) =>
      EntryLine(e);
      TimeIsSeen(env, Inf, BodyOf(e), LineOf(e));
      BeforeItsComma(text);
  }

  // ---------------------------------------------------------------- init segments

  lemma {:induction false} FirstUri(t: string, k: nat)
    requires At(t, k, "URI=\"") && forall j :: 0 <= j < k ==> t[j] != 'U'
    ensures FindUri(t) == k
  {
    if k > 0 {
      assert t[..5][0] == t[0] != "URI=\""[0];
      assert t[1..][k - 1..k + 4] == t[k..k + 5];
      FirstUri(t[1..], k - 1);
    }
  }

  lemma UriStands(head: string, uri: string, tail: string)
    requires 'U' !in head && QUOTE !in uri
    ensures var t, k := head + "URI=\"" + uri + "\"" + tail, |head|;
            FindUri(t) == k && IndexOf(t[k + 5..], QUOTE) == |uri| && t[k + 5..][..|uri|] == uri
  {
    var t, k := head + "URI=\"" + uri + "\"" + tail, |head|;
    assert t[k..k + 5] == "URI=\"";
    FirstUri(t, k);
    var rest := t[k + 5..];
    assert rest == uri + "\"" + tail;
    assert rest[..|uri|] == uri;
    IndexIs(rest, QUOTE, |uri|);
  }

  lemma MapOfLine(uri: string, tail: string)
    requires QUOTE !in uri
    requires var t := "#EXT-X-MAP:" + "URI=\"" + uri + "\"" + tail; Trim(t) == t
    ensures MapView("#EXT-X-MAP:" + "URI=\"" + uri + "\"" + tail) == Some(uri)
  {
    UriStands("#EXT-X-MAP:", uri, tail);
  }

  lemma LineParts(start: string, body: string)
    requires start <= body
    ensures Head(Init) + ":" + body == "#EXT-X-MAP:" + start + body[|start|..]
  {
    Headers();
    assert body == start + body[|start|..];
  }

  lemma Regrouped(head: string, uri: string, tail: string)
    ensures head + ("URI=\"" + uri + "\"") + tail == head + "URI=\"" + uri + "\"" + tail
  {
  }

  /** An init segment is found by the URI its tag begins with. */
  lemma MapReads(uri: string, rest: seq<Attr>)
    requires Good(Tag(Init, [Attr("URI", uri, true)] + rest))
    ensures MapView(LineOf(Tag(Init, [Attr("URI", uri, true)] + rest))) == Some(uri)
  {
    var e := Tag(Init, [Attr("URI", uri, true)] + rest);
    EntryLine(e);
    BodyStarts(uri, rest);
    var start := "URI=\"" + uri + "\"";
    LineParts(start, BodyOf(e));
    Regrouped("#EXT-X-MAP:", uri, BodyOf(e)[|start|..]);
    assert e.attrs[0].value == uri;
    MapOfLine(uri, BodyOf(e)[|start|..]);
  }

  lemma BodyStarts(uri: string, rest: seq<Attr>)
    requires AllProper([Attr("URI", uri, true)] + rest)
    ensures var body := Join(WrittenAll([Attr("URI", uri, true)] + rest), COMMA);
            "URI=\"" + uri + "\"" <= body
  {
    var attrs := [Attr("URI", uri, true)] + rest;
    assert attrs[0] == Attr("URI", uri, true);
    assert Written(attrs[0]) == "URI=\"" + uri + "\"";
  }

  // ---------------------------------------------------------------- whole playlists

  function LinesOf(es: seq<Entry>): (r: seq<string>)
    ensures |r| == |es| && forall i :: 0 <= i < |r| ==> r[i] == LineOf(es[i])
  {
    if es == [] then [] else [LineOf(es[0])] + LinesOf(es[1..])
  }

  function TextOf(es: seq<Entry>): string {
    Join(LinesOf(es), '\n')
  }

  ghost predicate AllGood(es: seq<Entry>) {
    forall i :: 0 <= i < |es| ==> Good(es[i])
  }

  /** What a reader takes from each entry, in order. */
  function Told<E>(f: Entry -> Option<E>, es: seq<Entry>): seq<E> {
    if es == [] then [] else Seen(f(es[0])) + Told(f, es[1..])
  }

  lemma LinesSplit(es: seq<Entry>)
    requires es != [] && AllGood(es)
    ensures Split(TextOf(es), '\n') == LinesOf(es)
  {
    forall i | 0 <= i < |es| ensures '\n' !in LinesOf(es)[i] {
      assert Good(es[i]);
    }
    SplitJoin(LinesOf(es), '\n');
  }

  lemma {:induction false} ViewIsTold<E>(v: string -> Option<E>, f: Entry -> Option<E>, es: seq<Entry>)
    requires forall i :: 0 <= i < |es| ==> v(LineOf(es[i])) == f(es[i])
    ensures View(v, LinesOf(es)) == Told(f, es)
  {
    if es != [] {
      ViewIsTold(v, f, es[1..]);
      ViewCons(v, LineOf(es[0]), LinesOf(es[1..]));
    }
  }

  lemma VariantsTold(es: seq<Entry>)
    requires es != [] && AllGood(es)
    ensures FirstVariantOf(TextOf(es)) == VariantOf(Told(AsVariant, es), false)
  {
    LinesSplit(es);
    forall i | 0 <= i < |es| ensures VariantView(LineOf(es[i])) == AsVariant(es[i]) {
      VariantReads(es[i]);
    }
    ViewIsTold(VariantView, AsVariant, es);
  }

  /** The first name at or behind position `at`. */
  predicate NextName(es: seq<Entry>, at: nat, k: nat) {
    at <= k < |es| && es[k].Name? && forall j :: at <= j < k ==> !es[j].Name?
  }

  predicate FirstStream(es: seq<Entry>, k: nat) {
    k < |es| && es[k].Tag? && es[k].kind == Stream
    && forall j :: 0 <= j < k ==> !(es[j].Tag? && es[j].kind == Stream)
  }

  lemma VariantCons(x: Option<VariantEvent>, rest: seq<VariantEvent>, want: bool)
    ensures VariantOf(Seen(x) + rest, want) ==
            match x
            case None => VariantOf(rest, want)
            case Some(StreamInf) => VariantOf(rest, true)
            case Some(Uri(uri)) => if want then Some(uri) else VariantOf(rest, false)
  {
    match x
    case None => assert Seen(x) + rest == rest;
    case Some(e) => assert (Seen(x) + rest)[0] == e && (Seen(x) + rest)[1..] == rest;
  }

  lemma {:induction false} WantedName(es: seq<Entry>, k: nat)
    requires NextName(es, 0, k)
    ensures VariantOf(Told(AsVariant, es), true) == Some(es[k].uri)
  {
    VariantCons(AsVariant(es[0]), Told(AsVariant, es[1..]), true);
    if k > 0 {
      assert NextName(es[1..], 0, k - 1);
      WantedName(es[1..], k - 1);
    }
  }

  lemma {:induction false} NameBehindStream(es: seq<Entry>, s: nat, k: nat)
    requires FirstStream(es, s) && NextName(es, s, k)
    ensures VariantOf(Told(AsVariant, es), false) == Some(es[k].uri)
  {
    VariantCons(AsVariant(es[0]), Told(AsVariant, es[1..]), false);
    if s == 0 {
      assert NextName(es[1..], 0, k - 1);
      WantedName(es[1..], k - 1);
    } else {
      assert FirstStream(es[1..], s - 1) && NextName(es[1..], s - 1, k - 1);
      NameBehindStream(es[1..], s - 1, k - 1);
    }
  }

  /** The variant of a multivariant playlist is the first name behind its first stream tag. */
  lemma FirstVariantIsNamed(es: seq<Entry>, s: nat, k: nat)
    requires AllGood(es) && FirstStream(es, s) && NextName(es, s, k)
    ensures FirstVariantOf(TextOf(es)) == Some(es[k].uri)
  {
    VariantsTold(es);
    NameBehindStream(es, s, k);
  }

  /** The media names of a playlist are its segments and the URIs of its init segments, parts
      and hints, those that are relative, each once. */
  lemma MediaNamesAreNamed(es: seq<Entry>, name: string)
    requires es != [] && AllGood(es)
    ensures name in MediaNamesOf(Split(TextOf(es), '\n'))
            <==> exists r :: r in Told(AsReference, es) && Trim(r) == name && name != "" && !Contains(name, "://")
    ensures Distinct(MediaNamesOf(Split(TextOf(es), '\n')))
  {
    LinesSplit(es);
    forall i | 0 <= i < |es| ensures RefView(LineOf(es[i])) == AsReference(es[i]) {
      ReferenceReads(es[i]);
    }
    ViewIsTold(RefView, AsReference, es);
    CollectMembers(Told(AsReference, es), []);
  }

  function AsMap(e: Entry): Option<string> {
    if e.Tag? && e.kind == Init then Lookup(e.attrs, "URI") else None
  }

  /** An init segment tag with its URI first. */
  predicate UriFirst(e: Entry) {
    e.Tag? && e.kind == Init ==> e.attrs != [] && e.attrs[0].name == "URI" && e.attrs[0].quoted
  }

  lemma MapEntryReads(e: Entry)
    requires Good(e) && UriFirst(e)
    ensures MapView(LineOf(e)) == AsMap(e)
  {
    match e
    case Name(uri) => NameIsName(uri); Headers();
    case GapMark => GapIsMark(); Headers();
    case Tag(k, attrs) =>
      if k == Init {
        assert e == Tag(Init, [Attr("URI", attrs[0].value, true)] + attrs[1..]);
        MapReads(attrs[0].value, attrs[1..]);
      } else {
        EntryLine(e);
        OnlyInitHasMap(k, BodyOf(e), LineOf(e));
      }
    case _ => EntryLine(e); OnlyInitHasMap(KindOf(e), BodyOf(e), LineOf(e));
  }

  /** The init segments of a playlist, in order. */
  lemma InitSegmentsAreNamed(es: seq<Entry>)
    requires es != [] && AllGood(es) && forall i :: 0 <= i < |es| ==> UriFirst(es[i])
    ensures MapUrisOf(TextOf(es)) == Told(AsMap, es)
  {
    LinesSplit(es);
    forall i | 0 <= i < |es| ensures MapView(LineOf(es[i])) == AsMap(es[i]) {
      MapEntryReads(es[i]);
    }
    ViewIsTold(MapView, AsMap, es);
  }

  /** A live playlist answers a request exactly when its tags have published what is asked for. */
  lemma RequestsAreAnswered(es: seq<Entry>, b: int, closed: seq<nat>, open: nat, m: int, q: int)
    requires es != [] && AllGood(es) && Told(AsSequence, es) == Shape(b, closed, open)
    ensures Has(TextOf(es), m, q) <==> Available(b, |closed|, open, m, q)
  {
    LinesSplit(es);
    forall i | 0 <= i < |es| ensures SeqView(LineOf(es[i])) == AsSequence(es[i]) {
      SequenceReads(es[i]);
    }
    ViewIsTold(SeqView, AsSequence, es);
    HasExactlyAvailable(TextOf(es), b, closed, open, m, q);
  }

  /** The attach gate times the tags written: one segment per EXTINF and name, one part per tag. */
  lemma TimesAreTold(env: Env, es: seq<Entry>)
    requires es != [] && AllGood(es)
    requires forall i :: 0 <= i < |es| && es[i].Tag? && es[i].kind in {OnePart, PartInf} ==> NoCommas(es[i].attrs)
    ensures View(line => TimeView(env, line), Split(TextOf(es), '\n')) == Told(e => AsTime(env, e), es)
  {
    LinesSplit(es);
    forall i | 0 <= i < |es| ensures TimeView(env, LineOf(es[i])) == AsTime(env, es[i]) {
      TimeReads(env, es[i]);
    }
    ViewIsTold(line => TimeView(env, line), e => AsTime(env, e), es);
  }

  // ---------------------------------------------------------------- required names

  predicate IsHintTag(e: Entry) {
    e.Tag? && e.kind == Hint
  }

  function NotHints(es: seq<Entry>): seq<Entry> {
    if es == [] then [] else (if IsHintTag(es[0]) then [] else [es[0]]) + NotHints(es[1..])
  }

  lemma HintIsHint(e: Entry)
    requires Good(e)
    ensures IsHint(LineOf(e)) <==> IsHintTag(e)
  {
    Headers();
    match e
    case Name(uri) => NameIsName(uri);
    case GapMark => GapIsMark();
    case _ =>
      EntryLine(e);
      TagStarts(KindOf(e), BodyOf(e), LineOf(e));
  }

  lemma {:induction false} HintsGo(es: seq<Entry>)
    requires AllGood(es)
    ensures WithoutHints(LinesOf(es)) == LinesOf(NotHints(es)) && AllGood(NotHints(es))
  {
    if es != [] {
      HintsGo(es[1..]);
      HintStep(es[0], LinesOf(es[1..]), NotHints(es[1..]));
    }
  }

  lemma HintStep(e: Entry, lines: seq<string>, kept: seq<Entry>)
    requires Good(e) && WithoutHints(lines) == LinesOf(kept) && AllGood(kept)
    ensures var all := (if IsHintTag(e) then [] else [e]) + kept;
            WithoutHints([LineOf(e)] + lines) == LinesOf(all) && AllGood(all)
  {
    HintIsHint(e);
    assert ([LineOf(e)] + lines)[1..] == lines;
    if IsHintTag(e) {
      assert [] + kept == kept;
    } else {
      assert ([e] + kept)[1..] == kept;
    }
  }

  /** The files a cycle cannot do without are the segments and the URIs of init segments and parts,
      those that are relative: everything its playlist names except under a hint alone. */
  lemma RequiredAreTold(es: seq<Entry>, name: string)
    requires es != [] && AllGood(es)
    ensures name in RequiredNames(Split(TextOf(es), '\n'))
            <==> exists r :: r in Told(AsReference, NotHints(es)) && Trim(r) == name && name != ""
                             && !Contains(name, "://")
  {
    LinesSplit(es);
    HintsGo(es);
    var kept := NotHints(es);
    forall i | 0 <= i < |kept| ensures RefView(LineOf(kept[i])) == AsReference(kept[i]) {
      ReferenceReads(kept[i]);
    }
    ViewIsTold(RefView, AsReference, kept);
    CollectMembers(Told(AsReference, kept), []);
  }
}

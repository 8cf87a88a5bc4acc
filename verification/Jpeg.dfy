/** Scrubbing a JPEG segment by segment: XMP goes, EXIF is cleared in place, the rest is copied
(segments as in section B.1.1.4 of ITU-T T.81). */
module Jpeg {
  import opened Text
  import opened Exif

  // ---------------------------------------------------------------- segments

  /** The headers APP1 segments are told apart by, and how an EXIF block is cleared. */
  datatype Rules = Rules(xmp: seq<Byte>, extended: seq<Byte>, exif: seq<Byte>, clear: seq<Byte> -> Cleared)

  ghost predicate Proper(r: Rules) {
    && |r.exif| > 0 && |r.xmp| > 0 && |r.extended| > 0 && r.exif[0] != r.xmp[0] && r.exif[0] != r.extended[0]
    && forall t :: ClearsInPlace(r, t)
  }

  /** Clearing keeps the length, and does nothing unless it says so. */
  predicate ClearsInPlace(r: Rules, t: seq<Byte>) {
    |r.clear(t).out| == |t| && (!r.clear(t).did ==> r.clear(t).out == t)
  }

  datatype Segment = Segment(marker: Byte, payload: seq<Byte>)

  /** The segments before the scan, and everything from the first place that is not one. */
  datatype Parsed = Parsed(segs: seq<Segment>, tail: seq<Byte>)

  function SegLen(s: seq<Byte>): nat
    requires |s| >= 4
  {
    256 * s[2] as int + s[3] as int
  }

  predicate StartsSegment(s: seq<Byte>) {
    |s| >= 4 && s[0] == 0xFF && s[1] != 0xDA && 2 <= SegLen(s) && 2 + SegLen(s) <= |s|
  }

  function First(s: seq<Byte>): Segment
    requires StartsSegment(s)
  {
    Segment(s[1], s[4..2 + SegLen(s)])
  }

  function Rest(s: seq<Byte>): seq<Byte>
    requires StartsSegment(s)
  {
    s[2 + SegLen(s)..]
  }

  function Parse(s: seq<Byte>): Parsed
    decreases |s|
  {
    if !StartsSegment(s) then Parsed([], s)
    else Parsed([First(s)] + Parse(Rest(s)).segs, Parse(Rest(s)).tail)
  }

  predicate Encodable(g: Segment) {
    g.marker != 0xDA && |g.payload| + 2 < 0x1_0000
  }

  ghost predicate AllEncodable(segs: seq<Segment>) {
    forall i :: 0 <= i < |segs| ==> Encodable(segs[i])
  }

  /** A segment as bytes; only those of encodable ones mean anything. */
  function Encode(g: Segment): seq<Byte> {
    var n := |g.payload| + 2;
    [0xFF, g.marker, (n / 256 % 256) as Byte, (n % 256) as Byte] + g.payload
  }

  function EncodeAll(segs: seq<Segment>): seq<Byte> {
    if segs == [] then [] else EncodeAll(segs[..|segs| - 1]) + Encode(segs[|segs| - 1])
  }

  predicate IsXmp(r: Rules, g: Segment) {
    g.marker == 0xE1 && (r.xmp <= g.payload || r.extended <= g.payload)
  }

  predicate IsExif(r: Rules, g: Segment) {
    g.marker == 0xE1 && !IsXmp(r, g) && r.exif <= g.payload
  }

  function Tiff(r: Rules, g: Segment): seq<Byte>
    requires IsExif(r, g)
  {
    g.payload[|r.exif|..]
  }

  /** What becomes of one segment: dropped, cleared or kept. */
  function Scrubbed(r: Rules, g: Segment): seq<Segment> {
    if IsXmp(r, g) then []
    else if IsExif(r, g) then
      var c := r.clear(Tiff(r, g));
      if c.ok then [g.(payload := r.exif + c.out)] else []
    else [g]
  }

  predicate Altered(r: Rules, g: Segment) {
    IsXmp(r, g) || (IsExif(r, g) && (!r.clear(Tiff(r, g)).ok || r.clear(Tiff(r, g)).did))
  }

  function ScrubbedAll(r: Rules, segs: seq<Segment>): seq<Segment> {
    if segs == [] then [] else ScrubbedAll(r, segs[..|segs| - 1]) + Scrubbed(r, segs[|segs| - 1])
  }

  ghost predicate AnyAltered(r: Rules, segs: seq<Segment>) {
    exists i :: 0 <= i < |segs| && Altered(r, segs[i])
  }

  predicate IsJpeg(s: seq<Byte>) {
    |s| >= 4 && s[0] == 0xFF && s[1] == 0xD8
  }

  /** What the scrubber makes of a JPEG; anything else comes back as it is. */
  function Scrub(r: Rules, s: seq<Byte>): seq<Byte> {
    if !IsJpeg(s) then s
    else s[..2] + EncodeAll(ScrubbedAll(r, Parse(s[2..]).segs)) + Parse(s[2..]).tail
  }

  // ---------------------------------------------------------------- parsing and encoding

  lemma EncodeFirst(s: seq<Byte>)
    requires StartsSegment(s)
    ensures Encodable(First(s)) && Encode(First(s)) == s[..2 + SegLen(s)]
  {
  }

  lemma {:induction false} ParsedEncodable(s: seq<Byte>)
    ensures AllEncodable(Parse(s).segs) && !StartsSegment(Parse(s).tail)
    decreases |s|
  {
    if StartsSegment(s) {
      ParsedEncodable(Rest(s));
      EncodeFirst(s);
    }
  }

  lemma EncodeSnoc(segs: seq<Segment>, g: Segment)
    ensures EncodeAll(segs + [g]) == EncodeAll(segs) + Encode(g)
  {
    assert (segs + [g])[..|segs|] == segs;
  }

  lemma {:induction false} EncodeConcat(a: seq<Segment>, b: seq<Segment>)
    ensures EncodeAll(a + b) == EncodeAll(a) + EncodeAll(b)
  {
    if b == [] {
      assert a + b == a;
    } else {
      var init, g := b[..|b| - 1], b[|b| - 1];
      EncodeConcat(a, init);
      EncodeSnoc(a + init, g);
      EncodeSnoc(init, g);
      assert b == init + [g];
      Regroup(a, init, [g]);
      Regroup(EncodeAll(a), EncodeAll(init), Encode(g));
    }
  }

  lemma EncodeOne(g: Segment)
    ensures EncodeAll([g]) == Encode(g)
  {
    assert [g][..0] == [];
    assert EncodeAll([]) == [];
  }

  /** A parsed stretch encodes back to itself. */
  lemma {:induction false} EncodeParsed(s: seq<Byte>)
    ensures EncodeAll(Parse(s).segs) + Parse(s).tail == s
    decreases |s|
  {
    if StartsSegment(s) {
      EncodeParsed(Rest(s));
      EncodeFirst(s);
      EncodeConcat([First(s)], Parse(Rest(s)).segs);
      EncodeOne(First(s));
      assert s == s[..2 + SegLen(s)] + Rest(s);
      Regroup(Encode(First(s)), EncodeAll(Parse(Rest(s)).segs), Parse(Rest(s)).tail);
    }
  }

  lemma ParseOne(g: Segment, rest: seq<Byte>)
    requires Encodable(g)
    ensures var s := Encode(g) + rest; StartsSegment(s) && First(s) == g && Rest(s) == rest
  {
    var s := Encode(g) + rest;
    assert SegLen(s) == |g.payload| + 2;
    assert s[4..2 + SegLen(s)] == g.payload;
  }

  /** Encoded segments before a place where none starts parse back to themselves. */
  lemma {:induction false} ParseEncoded(segs: seq<Segment>, tail: seq<Byte>)
    requires AllEncodable(segs) && !StartsSegment(tail)
    ensures Parse(EncodeAll(segs) + tail) == Parsed(segs, tail)
  {
    if segs == [] {
      assert EncodeAll(segs) + tail == tail;
    } else {
      var g, more := segs[0], segs[1..];
      ParseEncoded(more, tail);
      ParseOne(g, EncodeAll(more) + tail);
      assert segs == [g] + more;
      EncodeConcat([g], more);
      EncodeOne(g);
      Regroup(Encode(g), EncodeAll(more), tail);
    }
  }

  // ---------------------------------------------------------------- the transformation

  lemma ScrubbedFacts(r: Rules, g: Segment)
    requires Proper(r)
    ensures Encodable(g) ==> AllEncodable(Scrubbed(r, g))
    ensures |Scrubbed(r, g)| <= 1
    ensures forall i :: 0 <= i < |Scrubbed(r, g)| ==>
              |Scrubbed(r, g)[i].payload| == |g.payload| && Scrubbed(r, g)[i].marker == g.marker
    ensures !Altered(r, g) ==> Scrubbed(r, g) == [g]
  {
    if IsExif(r, g) {
      assert ClearsInPlace(r, Tiff(r, g));
      assert r.exif + Tiff(r, g) == g.payload;
    }
  }

  lemma {:induction false} ScrubbedEncodable(r: Rules, segs: seq<Segment>)
    requires Proper(r) && AllEncodable(segs)
    ensures AllEncodable(ScrubbedAll(r, segs))
  {
    if segs != [] {
      ScrubbedEncodable(r, segs[..|segs| - 1]);
      ScrubbedFacts(r, segs[|segs| - 1]);
    }
  }

  lemma {:induction false} NoneAltered(r: Rules, segs: seq<Segment>)
    requires Proper(r) && !AnyAltered(r, segs)
    ensures ScrubbedAll(r, segs) == segs
  {
    if segs != [] {
      var n := |segs| - 1;
      assert !Altered(r, segs[n]);
      forall i | 0 <= i < n ensures !Altered(r, segs[..n][i]) {
        assert segs[..n][i] == segs[i];
      }
      NoneAltered(r, segs[..n]);
      ScrubbedFacts(r, segs[n]);
    }
  }

  /** The output parses to exactly the input's segments, each as Scrubbed says, and the part
      from the first place that is no segment is the same bytes. */
  lemma ScrubReparses(r: Rules, s: seq<Byte>)
    requires Proper(r) && IsJpeg(s)
    ensures Scrub(r, s)[..2] == s[..2]
    ensures Parse(Scrub(r, s)[2..]) == Parsed(ScrubbedAll(r, Parse(s[2..]).segs), Parse(s[2..]).tail)
  {
    var j := Parse(s[2..]);
    ParsedEncodable(s[2..]);
    ScrubbedEncodable(r, j.segs);
    ParseEncoded(ScrubbedAll(r, j.segs), j.tail);
    AfterHeader(s[..2], EncodeAll(ScrubbedAll(r, j.segs)), j.tail);
  }

  lemma AfterHeader(head: seq<Byte>, body: seq<Byte>, tail: seq<Byte>)
    requires |head| == 2
    ensures (head + body + tail)[..2] == head && (head + body + tail)[2..] == body + tail
  {
  }

  /** Every segment of the output comes from one of the input: none holds XMP, and an EXIF
      block is the cleared image, of the same length, of a well-formed one. */
  lemma {:induction false} NoLocationLeft(r: Rules, segs: seq<Segment>, k: nat) returns (i: nat)
    requires Proper(r) && k < |ScrubbedAll(r, segs)|
    ensures i < |segs| && [ScrubbedAll(r, segs)[k]] == Scrubbed(r, segs[i])
    ensures var h := ScrubbedAll(r, segs)[k];
            !IsXmp(r, h) && (IsExif(r, h) ==>
              && IsExif(r, segs[i]) && |h.payload| == |segs[i].payload|
              && r.clear(Tiff(r, segs[i])).ok && Tiff(r, h) == r.clear(Tiff(r, segs[i])).out)
  {
    var n := |segs| - 1;
    var init := ScrubbedAll(r, segs[..n]);
    if k < |init| {
      i := NoLocationLeft(r, segs[..n], k);
    } else {
      i := n;
      ScrubbedFacts(r, segs[n]);
      OneScrubbed(r, segs[n]);
    }
  }

  lemma OneScrubbed(r: Rules, g: Segment)
    requires Proper(r) && Scrubbed(r, g) != []
    ensures var h := Scrubbed(r, g)[0];
            !IsXmp(r, h) && (IsExif(r, h) ==>
              IsExif(r, g) && r.clear(Tiff(r, g)).ok && Tiff(r, h) == r.clear(Tiff(r, g)).out)
  {
    if IsExif(r, g) {
      var p := Scrubbed(r, g)[0].payload;
      assert p[0] == r.exif[0];
    }
  }

  // ---------------------------------------------------------------- the scrubber

  const RULES := Rules(
    [0x68, 0x74, 0x74, 0x70, 0x3A, 0x2F, 0x2F, 0x6E, 0x73, 0x2E, 0x61, 0x64, 0x6F, 0x62, 0x65, 0x2E, 0x63, 0x6F, 0x6D,
     0x2F, 0x78, 0x61, 0x70, 0x2F, 0x31, 0x2E, 0x30, 0x2F, 0x00],
    [0x68, 0x74, 0x74, 0x70, 0x3A, 0x2F, 0x2F, 0x6E, 0x73, 0x2E, 0x61, 0x64, 0x6F, 0x62, 0x65, 0x2E, 0x63, 0x6F, 0x6D,
     0x2F, 0x78, 0x6D, 0x70, 0x2F, 0x65, 0x78, 0x74, 0x65, 0x6E, 0x73, 0x69, 0x6F, 0x6E, 0x2F, 0x00],
    [0x45, 0x78, 0x69, 0x66, 0x00, 0x00],
    ClearGPS)

  lemma ClearGPSIsInPlace(t: seq<Byte>)
    ensures |ClearGPS(t).out| == |t| && (!ClearGPS(t).did ==> ClearGPS(t).out == t)
  {
  }

  lemma RulesAreProper()
    ensures Proper(RULES)
  {
    forall t ensures ClearsInPlace(RULES, t) {
      ClearGPSIsInPlace(t);
    }
  }

  /** Every EXIF block of the file keeps its location apart from its header and IFD0. */
  ghost predicate LocationsApart(s: seq<Byte>) {
    IsJpeg(s) ==> AllLocationsApart(Parse(s[2..]).segs)
  }

  ghost predicate AllLocationsApart(segs: seq<Segment>) {
    forall i :: 0 <= i < |segs| && IsExif(RULES, segs[i]) ==> HeaderApart(Tiff(RULES, segs[i]))
  }

  lemma ClearedIsEmpty(t: seq<Byte>)
    requires ClearGPS(t).ok && HeaderApart(t)
    ensures var p := Locate(ClearGPS(t).out); p.NoGps? || (p.Gps? && p.n == 0)
  {
    if Locate(t).Gps? {
      ClearKeepsIfd0(t);
    }
  }

  /** In the scrubbed file, read again from its bytes, no segment holds XMP and every EXIF
      block names no GPS directory or an empty one. */
  lemma ScrubbedFileHasNoLocation(s: seq<Byte>, k: nat)
    requires IsJpeg(s) && LocationsApart(s) && k < |Parse(Scrub(RULES, s)[2..]).segs|
    ensures var h := Parse(Scrub(RULES, s)[2..]).segs[k];
            && !IsXmp(RULES, h)
            && (IsExif(RULES, h) ==> var p := Locate(Tiff(RULES, h)); p.NoGps? || (p.Gps? && p.n == 0))
  {
    RulesAreProper();
    ScrubReparses(RULES, s);
    var segs := Parse(s[2..]).segs;
    var i := NoLocationLeft(RULES, segs, k);
    if IsExif(RULES, segs[i]) && ClearGPS(Tiff(RULES, segs[i])).ok {
      ClearedIsEmpty(Tiff(RULES, segs[i]));
    }
  }

  lemma ScrubbedStays(g: Segment)
    requires IsExif(RULES, g) ==> HeaderApart(Tiff(RULES, g))
    ensures ScrubbedAll(RULES, Scrubbed(RULES, g)) == Scrubbed(RULES, g)
  {
    RulesAreProper();
    ScrubbedFacts(RULES, g);
    assert ScrubbedAll(RULES, []) == [];
    if Scrubbed(RULES, g) != [] {
      var h := Scrubbed(RULES, g)[0];
      OneScrubbed(RULES, g);
      assert [h][..0] == [];
      if IsExif(RULES, h) {
        ClearTwice(Tiff(RULES, g));
        assert RULES.exif + Tiff(RULES, h) == h.payload;
      }
    }
  }

  lemma {:induction false} ScrubbedConcat(r: Rules, a: seq<Segment>, b: seq<Segment>)
    ensures ScrubbedAll(r, a + b) == ScrubbedAll(r, a) + ScrubbedAll(r, b)
  {
    if b == [] {
      assert a + b == a;
    } else {
      var init, g := b[..|b| - 1], b[|b| - 1];
      ScrubbedConcat(r, a, init);
      assert b == init + [g];
      Regroup(a, init, [g]);
      assert (a + b)[..|a + b| - 1] == a + init;
      Regroup(ScrubbedAll(r, a), ScrubbedAll(r, init), Scrubbed(r, g));
    }
  }

  lemma {:induction false} AllScrubbedStays(segs: seq<Segment>)
    requires AllLocationsApart(segs)
    ensures ScrubbedAll(RULES, ScrubbedAll(RULES, segs)) == ScrubbedAll(RULES, segs)
  {
    if segs != [] {
      var n := |segs| - 1;
      assert forall i :: 0 <= i < n ==> segs[..n][i] == segs[i];
      AllScrubbedStays(segs[..n]);
      ScrubbedStays(segs[n]);
      ScrubbedConcat(RULES, ScrubbedAll(RULES, segs[..n]), Scrubbed(RULES, segs[n]));
    }
  }

  /** Scrubbing a scrubbed file changes no byte of it. */
  lemma ScrubTwice(s: seq<Byte>)
    requires LocationsApart(s)
    ensures Scrub(RULES, Scrub(RULES, s)) == Scrub(RULES, s)
  {
    if IsJpeg(s) {
      RulesAreProper();
      ScrubReparses(RULES, s);
      AllScrubbedStays(Parse(s[2..]).segs);
      ShortStays(s);
    }
  }

  /** A JPEG of less than four bytes after scrubbing is not scrubbed again. */
  lemma ShortStays(s: seq<Byte>)
    requires IsJpeg(s)
    ensures Scrub(RULES, s)[0] == 0xFF && Scrub(RULES, s)[1] == 0xD8
  {
    RulesAreProper();
    ScrubReparses(RULES, s);
    assert Scrub(RULES, s)[..2][0] == s[..2][0] && Scrub(RULES, s)[..2][1] == s[..2][1];
  }

  method ScrubJPEGLocation(s: seq<Byte>) returns (out: seq<Byte>, changed: bool)
    ensures out == Scrub(RULES, s)
    ensures changed <==> IsJpeg(s) && AnyAltered(RULES, Parse(s[2..]).segs)
    ensures !changed ==> out == s
  {
    if |s| < 4 || s[0] != 0xFF || s[1] != 0xD8 {
      return s, false;
    }
    RulesAreProper();
    out, changed := ScrubSegments(RULES, s);
  }

  method ScrubSegments(r: Rules, s: seq<Byte>) returns (out: seq<Byte>, changed: bool)
    requires IsJpeg(s) && Proper(r) && r == RULES
    ensures out == Scrub(r, s)
    ensures changed <==> AnyAltered(r, Parse(s[2..]).segs)
    ensures !changed ==> out == s
  {
    ghost var done, all := [], Parse(s[2..]);
    var body := [];
    changed := false;
    var rest := s[2..];
    while StartsSegment(rest)
      invariant all == Parsed(done + Parse(rest).segs, Parse(rest).tail)
      invariant body == EncodeAll(ScrubbedAll(r, done))
      invariant changed <==> AnyAltered(r, done)
      decreases |rest|
    {
      var g := First(rest);
      EncodeFirst(rest);
      var kept, altered := ScrubSegment(r, rest[..2 + SegLen(rest)], g);
      OneMore(r, done, g);
      MoveFirst(done, rest);
      body := body + kept;
      changed := changed || altered;
      done := done + [g];
      rest := Rest(rest);
    }
    assert done + [] == done;
    out := s[..2] + body + rest;
    if !changed {
      NoneAltered(r, done);
      EncodeParsed(s[2..]);
      Whole(s, body, rest);
    }
  }

  lemma MoveFirst(done: seq<Segment>, rest: seq<Byte>)
    requires StartsSegment(rest)
    ensures done + Parse(rest).segs == (done + [First(rest)]) + Parse(Rest(rest)).segs
    ensures Parse(rest).tail == Parse(Rest(rest)).tail
  {
  }

  lemma Whole(s: seq<Byte>, body: seq<Byte>, rest: seq<Byte>)
    requires |s| >= 2 && body + rest == s[2..]
    ensures s[..2] + body + rest == s
  {
    assert s == s[..2] + s[2..];
  }

  lemma OneMore(r: Rules, segs: seq<Segment>, g: Segment)
    ensures EncodeAll(ScrubbedAll(r, segs + [g])) == EncodeAll(ScrubbedAll(r, segs)) + EncodeAll(Scrubbed(r, g))
    ensures AnyAltered(r, segs + [g]) <==> AnyAltered(r, segs) || Altered(r, g)
  {
    assert (segs + [g])[..|segs|] == segs;
    EncodeConcat(ScrubbedAll(r, segs), Scrubbed(r, g));
    if AnyAltered(r, segs) {
      var i :| 0 <= i < |segs| && Altered(r, segs[i]);
      assert (segs + [g])[i] == segs[i];
    }
    assert (segs + [g])[|segs|] == g;
  }

  /** One segment: dropped, or copied with its GPS directory emptied. */
  method ScrubSegment(r: Rules, bytes: seq<Byte>, g: Segment) returns (kept: seq<Byte>, altered: bool)
    requires Proper(r) && r == RULES && bytes == Encode(g)
    ensures kept == EncodeAll(Scrubbed(r, g)) && altered == Altered(r, g)
  {
    if g.marker == 0xE1 {
      if r.xmp <= g.payload || r.extended <= g.payload {
        return [], true;
      }
      if r.exif <= g.payload {
        kept, altered := ScrubExif(r, bytes, g);
        return;
      }
    }
    EncodeOne(g);
    kept, altered := bytes, false;
  }

  method ScrubExif(r: Rules, bytes: seq<Byte>, g: Segment) returns (kept: seq<Byte>, altered: bool)
    requires Proper(r) && r == RULES && bytes == Encode(g) && IsExif(r, g)
    ensures kept == EncodeAll(Scrubbed(r, g)) && altered == Altered(r, g)
  {
    var tiff := Tiff(r, g);
    var ok, did, cleared := ClearCopy(tiff);
    ghost var c := r.clear(tiff);
    assert c == Cleared(ok, did, cleared) && ClearsInPlace(r, tiff);
    if !ok {
      return [], true;
    }
    kept, altered := bytes[..4 + |r.exif|] + cleared, did;
    SameHeader(g, r.exif, cleared);
    EncodeOne(g.(payload := r.exif + cleared));
  }

  lemma SameHeader(g: Segment, head: seq<Byte>, body: seq<Byte>)
    requires head <= g.payload && |head| + |body| == |g.payload|
    ensures Encode(g.(payload := head + body)) == Encode(g)[..4 + |head|] + body
  {
  }

  method ClearCopy(tiff: seq<Byte>) returns (ok: bool, did: bool, cleared: seq<Byte>)
    ensures Cleared(ok, did, cleared) == ClearGPS(tiff)
  {
    var t := new Byte[|tiff|](i requires 0 <= i < |tiff| => tiff[i]);
    assert t[..] == tiff;
    ok, did := ClearGPSInPlace(t);
    cleared := t[..];
  }
}

/** The location scrub read off the bytes: how numbers, sizes, tags and headers are read, what
makes a block name a GPS directory, and which segments come through untouched. */
module ScrubEffects {
  import opened Text
  import opened Exif
  import opened Jpeg

  // ---------------------------------------------------------------- numbers

  /** Two bytes, lowest first in little-endian and last in big-endian order. */
  lemma ShortReads(low: Byte, high: Byte)
    ensures U16(Little, [low, high]) == U16(Big, [high, low]) == low as int + 0x100 * high as int
  {
  }

  /** The same of four bytes. */
  lemma LongReads(a: Byte, b: Byte, c: Byte, d: Byte)
    ensures U32(Little, [a, b, c, d]) == U32(Big, [d, c, b, a])
            == a as int + 0x100 * b as int + 0x1_0000 * c as int + 0x100_0000 * d as int
  {
    assert [a, b, c, d][..2] == [a, b] && [a, b, c, d][2..] == [c, d];
    assert [d, c, b, a][..2] == [d, c] && [d, c, b, a][2..] == [b, a];
  }

  /** The bytes of one value of each type; types outside the table have none. */
  const SIZES: seq<nat> := [0, 1, 1, 2, 4, 8, 1, 1, 2, 4, 8, 4, 8]

  lemma SizesAre(kind: nat, count: nat)
    ensures ValueSize(kind, count) == if kind < |SIZES| then SIZES[kind] * count % 0x1_0000_0000 else 0
  {
    if kind < |SIZES| {
      assert SIZES[kind] == if kind == 0 then 0 else if kind in {1, 2, 6, 7} then 1
                            else if kind in {3, 8} then 2 else if kind in {4, 9, 11} then 4 else 8;
    }
  }

  // ---------------------------------------------------------------- directories

  /** The directory at `off` lies in the block, with `n` entries. */
  predicate DirectoryAt(t: seq<Byte>, o: Order, off: nat, n: nat) {
    off + 2 <= |t| && n == U16(o, t[off..off + 2]) && off + 2 + 12 * n <= |t|
  }

  function TagAt(t: seq<Byte>, o: Order, off: nat, k: nat): nat
    requires off + 2 + 12 * (k + 1) <= |t|
  {
    U16(o, t[off + 2 + 12 * k..off + 2 + 12 * k + 2])
  }

  function ValueAt(t: seq<Byte>, o: Order, off: nat, k: nat): nat
    requires off + 2 + 12 * (k + 1) <= |t|
  {
    U32(o, t[off + 2 + 12 * k + 8..off + 2 + 12 * k + 12])
  }

  /** Entry k is the first with this tag. */
  predicate FirstTag(t: seq<Byte>, o: Order, off: nat, n: nat, tag: nat, k: nat)
    requires off + 2 + 12 * n <= |t|
  {
    k < n && TagAt(t, o, off, k) == tag && forall j: nat :: j < k ==> TagAt(t, o, off, j) != tag
  }

  lemma {:induction false} FirstIsFound(t: seq<Byte>, o: Order, off: nat, n: nat, tag: nat, k: nat, from: nat)
    requires off + 2 + 12 * n <= |t| && FirstTag(t, o, off, n, tag, k) && from <= k
    ensures FindFrom(t, o, off + 2, n, tag, from) == Found(ValueAt(t, o, off, k))
    decreases k - from
  {
    if from < k {
      assert TagAt(t, o, off, from) != tag;
      FirstIsFound(t, o, off, n, tag, k, from + 1);
    }
  }

  lemma {:induction false} NoneIsFound(t: seq<Byte>, o: Order, off: nat, n: nat, tag: nat, from: nat)
    requires off + 2 + 12 * n <= |t| && from <= n
    requires forall j: nat :: from <= j < n ==> TagAt(t, o, off, j) != tag
    ensures FindFrom(t, o, off + 2, n, tag, from) == NotFound
    decreases n - from
  {
    if from < n {
      assert TagAt(t, o, off, from) != tag;
      NoneIsFound(t, o, off, n, tag, from + 1);
    }
  }

  /** A block in this byte order: its two letters, the number 42 and IFD0 inside it. */
  predicate Header(t: seq<Byte>, o: Order, n: nat) {
    && |t| >= 8 && t[..2] == (if o.Little? then [0x49, 0x49] else [0x4D, 0x4D])
    && U16(o, t[2..4]) == 42 && DirectoryAt(t, o, U32(o, t[4..8]), n)
  }

  lemma HeaderOrder(t: seq<Byte>, o: Order, n: nat)
    requires Header(t, o, n)
    ensures OrderOf(t) == Some(o)
  {
    assert t[0] == t[..2][0] && t[1] == t[..2][1];
  }

  /** The GPS directory is the one that the first GPS tag of IFD0 points at. */
  lemma GpsIsLocated(t: seq<Byte>, o: Order, n: nat, k: nat)
    requires Header(t, o, n) && FirstTag(t, o, U32(o, t[4..8]), n, 0x8825, k)
    ensures var ifd0 := U32(o, t[4..8]);
            var at := ValueAt(t, o, ifd0, k);
            Locate(t) == if at + 2 <= |t| && at + 2 + 12 * U16(o, t[at..at + 2]) + 4 <= |t|
                         then Gps(o, ifd0, at, U16(o, t[at..at + 2])) else Bad
  {
    HeaderOrder(t, o, n);
    FirstIsFound(t, o, U32(o, t[4..8]), n, 0x8825, k, 0);
  }

  /** A block whose IFD0 has no such tag names no location. */
  lemma NoGpsIsLocated(t: seq<Byte>, o: Order, n: nat)
    requires Header(t, o, n) && forall k: nat :: k < n ==> TagAt(t, o, U32(o, t[4..8]), k) != 0x8825
    ensures Locate(t) == NoGps
  {
    HeaderOrder(t, o, n);
    NoneIsFound(t, o, U32(o, t[4..8]), n, 0x8825, 0);
  }

  /** Anything else is malformed. */
  lemma OthersAreBad(t: seq<Byte>)
    requires forall o, n :: !Header(t, o, n)
    ensures Locate(t) == Bad
  {
    if |t| >= 8 && OrderOf(t).Some? {
      var o := OrderOf(t).value;
      assert t[..2] == [t[0], t[1]];
      var off := U32(o, t[4..8]);
      if off + 2 <= |t| {
        assert !Header(t, o, U16(o, t[off..off + 2]));
      }
    }
  }

  // ---------------------------------------------------------------- segments

  ghost predicate Spells(b: seq<Byte>, s: string) {
    |b| == |s| && forall i :: 0 <= i < |b| ==> b[i] as int == s[i] as int
  }

  /** The headers APP1 segments are told apart by. */
  lemma XmpSpells()
    ensures Spells(RULES.xmp, "http://ns.adobe.com/xap/1.0/\0")
  {
  }

  lemma ExtendedSpells()
    ensures Spells(RULES.extended, "http://ns.adobe.com/xmp/extension/\0")
  {
  }

  lemma HeadersSpell()
    ensures Spells(RULES.xmp, "http://ns.adobe.com/xap/1.0/\0")
    ensures Spells(RULES.extended, "http://ns.adobe.com/xmp/extension/\0")
    ensures Spells(RULES.exif, "Exif\0\0")
  {
    XmpSpells();
    ExtendedSpells();
  }

  /** Segments that are neither XMP nor EXIF, in order. */
  function Plain(segs: seq<Segment>): seq<Segment> {
    if segs == [] then []
    else
      var g := segs[|segs| - 1];
      Plain(segs[..|segs| - 1])
      + if g.marker == 0xE1 && (RULES.xmp <= g.payload || RULES.extended <= g.payload || RULES.exif <= g.payload)
        then [] else [g]
  }

  lemma {:induction false} PlainConcat(a: seq<Segment>, b: seq<Segment>)
    ensures Plain(a + b) == Plain(a) + Plain(b)
  {
    if b == [] {
      assert a + b == a;
    } else {
      PlainConcat(a, b[..|b| - 1]);
      assert (a + b)[..|a + b| - 1] == a + b[..|b| - 1];
    }
  }

  lemma PlainOne(g: Segment)
    ensures Plain(Scrubbed(RULES, g)) == Plain([g])
  {
    assert [g][..0] == [];
    assert Plain([]) == [];
    if IsExif(RULES, g) && RULES.clear(Tiff(RULES, g)).ok {
      var h := g.(payload := RULES.exif + RULES.clear(Tiff(RULES, g)).out);
      assert [h][..0] == [];
      assert RULES.exif <= h.payload;
    }
  }

  /** Pictures keep every segment that can hold no location, byte for byte and in order. */
  lemma {:induction false} PlainSegmentsStay(segs: seq<Segment>)
    ensures Plain(ScrubbedAll(RULES, segs)) == Plain(segs)
  {
    if segs != [] {
      var n := |segs| - 1;
      PlainSegmentsStay(segs[..n]);
      PlainOne(segs[n]);
      PlainConcat(ScrubbedAll(RULES, segs[..n]), Scrubbed(RULES, segs[n]));
      PlainConcat(segs[..n], [segs[n]]);
      assert segs == segs[..n] + [segs[n]];
    }
  }

  /** A well-formed EXIF block comes through too, cleared at the same length; a malformed one
      goes, as does XMP. */
  lemma LocationSegments(g: Segment)
    requires g.marker == 0xE1
    ensures RULES.xmp <= g.payload || RULES.extended <= g.payload ==> Scrubbed(RULES, g) == []
    ensures RULES.exif <= g.payload ==>
              var t := g.payload[6..];
              && (Locate(t).Bad? ==> Scrubbed(RULES, g) == [])
              && (Locate(t).NoGps? ==> Scrubbed(RULES, g) == [g])
              && (Locate(t).Gps? ==> Scrubbed(RULES, g) == [g.(payload := g.payload[..6] + ClearGPS(t).out)])
  {
    if RULES.exif <= g.payload {
      ExifIsNotXmp(g.payload);
      assert g.payload[..6] == RULES.exif;
      assert g.payload == g.payload[..6] + g.payload[6..];
    }
  }

  lemma ExifIsNotXmp(p: seq<Byte>)
    requires RULES.exif <= p
    ensures !(RULES.xmp <= p) && !(RULES.extended <= p)
  {
    assert p[0] == RULES.exif[0] == 0x45 && RULES.xmp[0] == RULES.extended[0] == 0x68;
  }
}

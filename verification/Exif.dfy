/** Removing the location from a JPEG: XMP segments go, the EXIF GPS directory is emptied in
place, and everything else stays where it was (segments as in section B.1.1.4 of ITU-T T.81). */
module Exif {
  import opened Text

  const GPS_TAG := 0x8825
  const UINT32 := 0x1_0000_0000

  // ---------------------------------------------------------------- TIFF numbers

  datatype Order = Little | Big

  function U16(o: Order, b: seq<Byte>): (r: nat)
    requires |b| == 2
    ensures r < 0x1_0000
  {
    if o.Little? then b[0] as int + 256 * b[1] as int else b[1] as int + 256 * b[0] as int
  }

  function U32(o: Order, b: seq<Byte>): (r: nat)
    requires |b| == 4
    ensures r < UINT32
  {
    if o.Little? then U16(o, b[..2]) + 0x1_0000 * U16(o, b[2..]) else U16(o, b[2..]) + 0x1_0000 * U16(o, b[..2])
  }

  /** Bytes of `count` values of a type, as a 32-bit product; an unknown type has none. */
  function ValueSize(kind: nat, count: nat): nat {
    if kind == 1 || kind == 2 || kind == 6 || kind == 7 then count % UINT32
    else if kind == 3 || kind == 8 then 2 * count % UINT32
    else if kind == 4 || kind == 9 || kind == 11 then 4 * count % UINT32
    else if kind == 5 || kind == 10 || kind == 12 then 8 * count % UINT32
    else 0
  }

  // ---------------------------------------------------------------- directories

  datatype Search = Malformed | NotFound | Found(value: nat)

  /** findTag: the value field of the first entry with the tag. */
  function FindTag(t: seq<Byte>, o: Order, off: nat, tag: nat): Search {
    if off + 2 > |t| then Malformed
    else
      var n := U16(o, t[off..off + 2]);
      if off + 2 + 12 * n > |t| then Malformed else FindFrom(t, o, off + 2, n, tag, 0)
  }

  function FindFrom(t: seq<Byte>, o: Order, entries: nat, n: nat, tag: nat, k: nat): Search
    requires k <= n && entries + 12 * n <= |t|
    decreases n - k
  {
    if k == n then NotFound
    else
      var e := entries + 12 * k;
      if U16(o, t[e..e + 2]) == tag then Found(U32(o, t[e + 8..e + 12])) else FindFrom(t, o, entries, n, tag, k + 1)
  }

  /** Where an entry keeps a value too long for its four bytes; the size wraps at 32 bits, and a
      value outside the block is left alone. */
  datatype Span = Span(off: nat, size: nat)

  predicate Covers(s: Span, i: nat) {
    s.off <= i < s.off + s.size
  }

  function SpanAt(t: seq<Byte>, o: Order, e: nat): (s: Span)
    ensures s.off + s.size <= |t|
  {
    if e + 12 > |t| then Span(0, 0)
    else
      var size := ValueSize(U16(o, t[e + 2..e + 4]), U32(o, t[e + 4..e + 8]));
      var off := U32(o, t[e + 8..e + 12]);
      if size > 4 && off + size <= |t| then Span(off, size) else Span(0, 0)
  }

  function Spans(o: Order): (seq<Byte>, nat) -> Span {
    (t: seq<Byte>, e: nat) => SpanAt(t, o, e)
  }

  function Zeroed(t: seq<Byte>, s: Span): (r: seq<Byte>)
    ensures |r| == |t|
    ensures forall i :: 0 <= i < |r| ==> r[i] == if Covers(s, i) then 0 else t[i]
  {
    if t == [] then []
    else var n := |t| - 1; Zeroed(t[..n], s) + [if Covers(s, n) then 0 else t[n]]
  }

  /** Clearing the values entry after entry; each entry is read from what the earlier ones left. */
  function ClearValues(t: seq<Byte>, spanAt: (seq<Byte>, nat) -> Span, entries: nat, n: nat, k: nat): (r: seq<Byte>)
    requires k <= n
    ensures |r| == |t|
    decreases n - k
  {
    if k == n then t else ClearValues(Zeroed(t, spanAt(t, entries + 12 * k)), spanAt, entries, n, k + 1)
  }

  lemma ClearNext(t: seq<Byte>, spanAt: (seq<Byte>, nat) -> Span, entries: nat, n: nat, k: nat)
    requires k < n
    ensures ClearValues(t, spanAt, entries, n, k)
            == ClearValues(Zeroed(t, spanAt(t, entries + 12 * k)), spanAt, entries, n, k + 1)
  {
  }

  /** The bytes that loop clears. */
  predicate Touches(t: seq<Byte>, spanAt: (seq<Byte>, nat) -> Span, entries: nat, n: nat, k: nat, i: nat)
    requires k <= n
    decreases n - k
  {
    k < n && (Covers(spanAt(t, entries + 12 * k), i)
              || Touches(Zeroed(t, spanAt(t, entries + 12 * k)), spanAt, entries, n, k + 1, i))
  }

  datatype Cleared = Cleared(ok: bool, did: bool, out: seq<Byte>)

  function OrderOf(t: seq<Byte>): Option<Order>
    requires |t| >= 8
  {
    if t[0] == 0x49 && t[1] == 0x49 then Some(Little)
    else if t[0] == 0x4D && t[1] == 0x4D then Some(Big)
    else None
  }

  /** Where the GPS directory is: the byte order, its offset and its number of entries. */
  datatype Place = Bad | NoGps | Gps(order: Order, ifd0: nat, at: nat, n: nat)

  function Locate(t: seq<Byte>): (p: Place)
    ensures p.Gps? ==> Within(t, p)
  {
    if |t| < 8 || OrderOf(t) == None then Bad
    else
      var o := OrderOf(t).value;
      var ifd0 := U32(o, t[4..8]);
      if U16(o, t[2..4]) != 42 then Bad
      else
        match FindTag(t, o, ifd0, GPS_TAG)
        case Malformed => Bad
        case NotFound => NoGps
        case Found(gps) =>
          if gps + 2 > |t| || gps + 2 + 12 * U16(o, t[gps..gps + 2]) + 4 > |t| then Bad
          else Gps(o, ifd0, gps, U16(o, t[gps..gps + 2]))
  }

  /** The directory itself: count, entries and next pointer. */
  function Directory(p: Place): Span
    requires p.Gps?
  {
    Span(p.at, 2 + 12 * p.n + 4)
  }

  predicate Within(t: seq<Byte>, p: Place) {
    p.Gps? && p.at + 2 + 12 * p.n + 4 <= |t|
  }

  function Emptied(t: seq<Byte>, spanAt: (seq<Byte>, nat) -> Span, p: Place): (r: seq<Byte>)
    requires Within(t, p)
    ensures |r| == |t|
  {
    Zeroed(ClearValues(t, spanAt, p.at + 2, p.n, 0), Directory(p))
  }

  function ClearGPS(t: seq<Byte>): (c: Cleared)
    ensures |c.out| == |t|
  {
    var p := Locate(t);
    if p.Bad? then Cleared(false, false, t)
    else if p.NoGps? then Cleared(true, false, t)
    else Cleared(true, true, Emptied(t, Spans(p.order), p))
  }

  // ---------------------------------------------------------------- the same, in place

  method ClearRange(t: array<Byte>, s: Span)
    requires s.off + s.size <= t.Length
    modifies t
    ensures t[..] == Zeroed(old(t[..]), s)
  {
    for i := s.off to s.off + s.size
      invariant forall j :: 0 <= j < t.Length ==> t[j] == if s.off <= j < i then 0 else old(t[j])
    {
      t[i] := 0;
    }
  }

  method FindTagIn(t: array<Byte>, o: Order, off: nat, tag: nat) returns (r: Search)
    ensures r == FindTag(t[..], o, off, tag)
  {
    if off + 2 > t.Length {
      return Malformed;
    }
    var n := U16(o, t[..][off..off + 2]);
    if off + 2 + 12 * n > t.Length {
      return Malformed;
    }
    for k := 0 to n
      invariant FindTag(t[..], o, off, tag) == FindFrom(t[..], o, off + 2, n, tag, k)
    {
      var e := off + 2 + 12 * k;
      if U16(o, t[..][e..e + 2]) == tag {
        return Found(U32(o, t[..][e + 8..e + 12]));
      }
    }
    r := NotFound;
  }

  method LocateIn(t: array<Byte>) returns (p: Place)
    ensures p == Locate(t[..])
  {
    if t.Length < 8 {
      return Bad;
    }
    var o := OrderOf(t[..]);
    if o == None || U16(o.value, t[..][2..4]) != 42 {
      return Bad;
    }
    var ifd0 := U32(o.value, t[..][4..8]);
    var found := FindTagIn(t, o.value, ifd0, GPS_TAG);
    if found.Malformed? {
      return Bad;
    }
    if found.NotFound? {
      return NoGps;
    }
    var gps := found.value;
    if gps + 2 > t.Length {
      return Bad;
    }
    var n := U16(o.value, t[..][gps..gps + 2]);
    p := if gps + 2 + 12 * n + 4 > t.Length then Bad else Gps(o.value, ifd0, gps, n);
  }

  method ClearGPSInPlace(t: array<Byte>) returns (ok: bool, did: bool)
    modifies t
    ensures Cleared(ok, did, t[..]) == ClearGPS(old(t[..]))
  {
    var p := LocateIn(t);
    if p.Bad? {
      return false, false;
    }
    if p.NoGps? {
      return true, false;
    }
    EmptyIn(t, p);
    ok, did := true, true;
  }

  method EmptyIn(t: array<Byte>, p: Place)
    requires Within(t[..], p)
    modifies t
    ensures t[..] == Emptied(old(t[..]), Spans(p.order), p)
  {
    var entries := p.at + 2;
    ghost var goal := Emptied(t[..], Spans(p.order), p);
    ghost var values := ClearValues(t[..], Spans(p.order), entries, p.n, 0);
    assert goal == Zeroed(values, Directory(p));
    ClearValuesIn(t, p.order, entries, p.n);
    ClearDirectory(t, p);
  }

  /** The entries and the next pointer, then the count. */
  method ClearDirectory(t: array<Byte>, p: Place)
    requires Within(t[..], p)
    modifies t
    ensures t[..] == Zeroed(old(t[..]), Directory(p))
  {
    ClearRange(t, Span(p.at + 2, 12 * p.n + 4));
    t[p.at], t[p.at + 1] := 0, 0;
  }

  method ValueSpan(t: array<Byte>, o: Order, e: nat) returns (s: Span)
    requires e + 12 <= t.Length
    ensures s == Spans(o)(t[..], e) && s.off + s.size <= t.Length
  {
    var size := ValueSize(U16(o, t[..][e + 2..e + 4]), U32(o, t[..][e + 4..e + 8]));
    if size > 4 {
      var off := U32(o, t[..][e + 8..e + 12]);
      if off + size <= t.Length {
        return Span(off, size);
      }
    }
    s := Span(0, 0);
  }

  method ClearValue(t: array<Byte>, o: Order, e: nat, ghost spanAt: (seq<Byte>, nat) -> Span)
    requires e + 12 <= t.Length && spanAt == Spans(o)
    modifies t
    ensures t[..] == Zeroed(old(t[..]), spanAt(old(t[..]), e))
  {
    var s := ValueSpan(t, o, e);
    ClearRange(t, s);
  }

  method ClearValuesIn(t: array<Byte>, o: Order, entries: nat, n: nat)
    requires entries + 12 * n <= t.Length
    modifies t
    ensures t[..] == ClearValues(old(t[..]), Spans(o), entries, n, 0)
  {
    ghost var goal, spanAt := ClearValues(t[..], Spans(o), entries, n, 0), Spans(o);
    for k := 0 to n
      invariant goal == ClearValues(t[..], spanAt, entries, n, k)
    {
      ghost var now := t[..];
      ClearValue(t, o, entries + 12 * k, spanAt);
      ClearNext(now, spanAt, entries, n, k);
    }
  }

  // ---------------------------------------------------------------- what clearing does

  /** The loop zeroes exactly the bytes it touches. */
  lemma {:induction false} ClearValuesIs(t: seq<Byte>, spanAt: (seq<Byte>, nat) -> Span,
                                         entries: nat, n: nat, k: nat, i: nat)
    requires k <= n && i < |t|
    ensures ClearValues(t, spanAt, entries, n, k)[i] == if Touches(t, spanAt, entries, n, k, i) then 0 else t[i]
    decreases n - k
  {
    if k < n {
      ClearValuesIs(Zeroed(t, spanAt(t, entries + 12 * k)), spanAt, entries, n, k + 1, i);
    }
  }

  /** Byte `i` is in the GPS directory or in a value cleared on its behalf. */
  predicate Erased(t: seq<Byte>, spanAt: (seq<Byte>, nat) -> Span, p: Place, i: nat)
    requires Within(t, p)
  {
    Covers(Directory(p), i) || Touches(t, spanAt, p.at + 2, p.n, 0, i)
  }

  lemma EmptiedIs(t: seq<Byte>, spanAt: (seq<Byte>, nat) -> Span, p: Place, i: nat)
    requires Within(t, p) && i < |t|
    ensures Emptied(t, spanAt, p)[i] == if Erased(t, spanAt, p, i) then 0 else t[i]
  {
    ClearValuesIs(t, spanAt, p.at + 2, p.n, 0, i);
  }

  predicate Location(t: seq<Byte>, i: nat) {
    var p := Locate(t);
    p.Gps? && Erased(t, Spans(p.order), p, i)
  }

  /** Clearing zeroes the location bytes and no other. */
  lemma ClearsExactly(t: seq<Byte>, i: nat)
    requires i < |t|
    ensures ClearGPS(t).out[i] == if Location(t, i) then 0 else t[i]
  {
    var p := Locate(t);
    if p.Gps? {
      EmptiedIs(t, Spans(p.order), p, i);
    }
  }

  function Ifd0(t: seq<Byte>, p: Place): Span
    requires p.Gps? && p.ifd0 + 2 <= |t|
  {
    Span(p.ifd0, 2 + 12 * U16(p.order, t[p.ifd0..p.ifd0 + 2]))
  }

  lemma LocateFacts(t: seq<Byte>)
    requires Locate(t).Gps?
    ensures var p := Locate(t);
            && |t| >= 8 && OrderOf(t) == Some(p.order) && U16(p.order, t[2..4]) == 42 && p.ifd0 == U32(p.order, t[4..8])
            && FindTag(t, p.order, p.ifd0, GPS_TAG) == Found(p.at)
            && p.ifd0 + 2 <= |t| && p.ifd0 + 2 + 12 * U16(p.order, t[p.ifd0..p.ifd0 + 2]) <= |t|
            && p.n == U16(p.order, t[p.at..p.at + 2])
  {
  }

  /** The location bytes lie clear of the TIFF header and of IFD0. */
  ghost predicate HeaderApart(t: seq<Byte>) {
    var p := Locate(t);
    p.Gps? && p.ifd0 + 2 <= |t| ==>
      forall i :: 0 <= i < |t| && (i < 8 || Covers(Ifd0(t, p), i)) ==> !Location(t, i)
  }

  ghost predicate SameOn(t: seq<Byte>, u: seq<Byte>, s: Span) {
    |t| == |u| && forall i :: 0 <= i < |t| && Covers(s, i) ==> t[i] == u[i]
  }

  lemma SameSlice(t: seq<Byte>, u: seq<Byte>, s: Span, lo: nat, hi: nat)
    requires SameOn(t, u, s) && s.off <= lo <= hi <= s.off + s.size && hi <= |t|
    ensures t[lo..hi] == u[lo..hi]
  {
  }

  lemma {:induction false} SameFindFrom(t: seq<Byte>, u: seq<Byte>, o: Order, entries: nat, n: nat, tag: nat, k: nat)
    requires k <= n && entries + 12 * n <= |t| && SameOn(t, u, Span(entries, 12 * n))
    ensures FindFrom(t, o, entries, n, tag, k) == FindFrom(u, o, entries, n, tag, k)
    decreases n - k
  {
    if k < n {
      var e := entries + 12 * k;
      SameSlice(t, u, Span(entries, 12 * n), e, e + 2);
      SameSlice(t, u, Span(entries, 12 * n), e + 8, e + 12);
      SameFindFrom(t, u, o, entries, n, tag, k + 1);
    }
  }

  lemma SameFindTag(t: seq<Byte>, u: seq<Byte>, o: Order, off: nat, tag: nat)
    requires off + 2 <= |t| && SameOn(t, u, Span(off, 2 + 12 * U16(o, t[off..off + 2])))
    ensures FindTag(t, o, off, tag) == FindTag(u, o, off, tag)
  {
    var n := U16(o, t[off..off + 2]);
    SameSlice(t, u, Span(off, 2 + 12 * n), off, off + 2);
    if off + 2 + 12 * n <= |t| {
      SameFindFrom(t, u, o, off + 2, n, tag, 0);
    }
  }

  lemma CountIsCleared(t: seq<Byte>)
    requires Locate(t).Gps?
    ensures var p, out := Locate(t), ClearGPS(t).out; U16(p.order, out[p.at..p.at + 2]) == 0
  {
    var p, out := Locate(t), ClearGPS(t).out;
    ClearsExactly(t, p.at);
    ClearsExactly(t, p.at + 1);
    assert out[p.at..p.at + 2] == [0, 0];
  }

  /** When the location lies apart from header and IFD0, both are unchanged, Orientation
      included, and the GPS directory that IFD0 still names is empty. */
  lemma ClearKeepsIfd0(t: seq<Byte>)
    requires Locate(t).Gps? && HeaderApart(t)
    ensures var p, out := Locate(t), ClearGPS(t).out;
            && p.ifd0 + 2 <= |t| && SameOn(t, out, Span(0, 8)) && SameOn(t, out, Ifd0(t, p))
            && Locate(out) == p.(n := 0)
            && forall tag :: FindTag(out, p.order, p.ifd0, tag) == FindTag(t, p.order, p.ifd0, tag)
  {
    LocateFacts(t);
    CountIsCleared(t);
    var p, out := Locate(t), ClearGPS(t).out;
    forall i | 0 <= i < |t| && (i < 8 || Covers(Ifd0(t, p), i)) ensures out[i] == t[i] {
      ClearsExactly(t, i);
    }
    SameSlice(t, out, Span(0, 8), 2, 4);
    SameSlice(t, out, Span(0, 8), 4, 8);
    forall tag ensures FindTag(out, p.order, p.ifd0, tag) == FindTag(t, p.order, p.ifd0, tag) {
      SameFindTag(t, out, p.order, p.ifd0, tag);
    }
  }

  /** Clearing a cleared block changes nothing. */
  lemma ClearTwice(t: seq<Byte>)
    requires HeaderApart(t)
    ensures ClearGPS(ClearGPS(t).out) == ClearGPS(t)
  {
    var p, out := Locate(t), ClearGPS(t).out;
    if p.Gps? {
      ClearKeepsIfd0(t);
      var again := ClearGPS(out).out;
      forall i | 0 <= i < |t| ensures again[i] == out[i] {
        ClearsExactly(t, i);
        ClearsExactly(out, i);
      }
      assert again == out;
    }
  }

  // ---------------------------------------------------------------- does every value go?

  /** The part of an entry that says where its value is: type, count and offset. */
  function Locator(entries: nat, k: nat): Span {
    Span(entries + 12 * k + 2, 10)
  }

  /** A span depends on the locator of its entry. */
  ghost predicate Local(spanAt: (seq<Byte>, nat) -> Span) {
    forall t, u, e: nat :: SameOn(t, u, Span(e + 2, 10)) ==> spanAt(t, e) == spanAt(u, e)
  }

  lemma SpansAreLocal(o: Order)
    ensures Local(Spans(o))
  {
    forall t, u, e: nat | SameOn(t, u, Span(e + 2, 10)) ensures Spans(o)(t, e) == Spans(o)(u, e) {
      if e + 12 <= |t| {
        SameSlice(t, u, Span(e + 2, 10), e + 2, e + 4);
        SameSlice(t, u, Span(e + 2, 10), e + 4, e + 8);
        SameSlice(t, u, Span(e + 2, 10), e + 8, e + 12);
      }
    }
  }

  /** The block as the loop has it when it comes to entry `k`. */
  function Reached(t: seq<Byte>, spanAt: (seq<Byte>, nat) -> Span, entries: nat, k: nat): (r: seq<Byte>)
    ensures |r| == |t|
  {
    if k == 0 then t
    else
      var before := Reached(t, spanAt, entries, k - 1);
      Zeroed(before, spanAt(before, entries + 12 * (k - 1)))
  }

  lemma ReachedNext(t: seq<Byte>, spanAt: (seq<Byte>, nat) -> Span, entries: nat, m: nat)
    ensures var before := Reached(t, spanAt, entries, m);
            Reached(t, spanAt, entries, m + 1) == Zeroed(before, spanAt(before, entries + 12 * m))
  {
  }

  lemma {:induction false} ReachedThenRest(t: seq<Byte>, spanAt: (seq<Byte>, nat) -> Span, entries: nat, n: nat, k: nat)
    requires k <= n
    ensures ClearValues(t, spanAt, entries, n, 0) == ClearValues(Reached(t, spanAt, entries, k), spanAt, entries, n, k)
  {
    if k > 0 {
      var m := k - 1;
      ReachedThenRest(t, spanAt, entries, n, m);
      ReachedNext(t, spanAt, entries, m);
      ClearNext(Reached(t, spanAt, entries, m), spanAt, entries, n, m);
    }
  }

  /** When the loop comes to entry `k` its locator is the one the block came with. */
  ghost predicate ArrivesWhole(t: seq<Byte>, spanAt: (seq<Byte>, nat) -> Span, entries: nat, k: nat) {
    SameOn(t, Reached(t, spanAt, entries, k), Locator(entries, k))
  }

  /** The value of entry `m`, as the block came, covers byte `i`. */
  predicate ValueCovers(t: seq<Byte>, spanAt: (seq<Byte>, nat) -> Span, entries: nat, m: nat, i: nat) {
    Covers(spanAt(t, entries + 12 * m), i)
  }

  predicate SomeCovers(t: seq<Byte>, spanAt: (seq<Byte>, nat) -> Span, entries: nat, n: nat, i: nat) {
    exists m: nat :: m < n && ValueCovers(t, spanAt, entries, m, i)
  }

  /** While entries arrive whole, what has been cleared are the values they came with. */
  lemma {:induction false} ReachedIs(t: seq<Byte>, spanAt: (seq<Byte>, nat) -> Span, entries: nat, k: nat, i: nat)
    requires Local(spanAt) && i < |t|
    requires AllArriveWhole(t, spanAt, entries, k)
    ensures Reached(t, spanAt, entries, k)[i] == if SomeCovers(t, spanAt, entries, k, i) then 0 else t[i]
  {
    if k > 0 {
      var n := k - 1;
      ReachedIs(t, spanAt, entries, n, i);
      assert ArrivesWhole(t, spanAt, entries, n);
      assert spanAt(Reached(t, spanAt, entries, n), entries + 12 * n) == spanAt(t, entries + 12 * n);
      SomeCoversNext(t, spanAt, entries, n, i);
    }
  }

  lemma SomeCoversNext(t: seq<Byte>, spanAt: (seq<Byte>, nat) -> Span, entries: nat, n: nat, i: nat)
    ensures SomeCovers(t, spanAt, entries, n + 1, i) <==>
              SomeCovers(t, spanAt, entries, n, i) || ValueCovers(t, spanAt, entries, n, i)
  {
    if SomeCovers(t, spanAt, entries, n, i) {
      var m: nat :| m < n && ValueCovers(t, spanAt, entries, m, i);
      assert m < n + 1;
    }
  }

  /** No value lies over a byte, other than zero, of the locator of entry `k`, if it belongs to
      an earlier entry. This is a fact about the block as it came. */
  ghost predicate EarlierApart(t: seq<Byte>, spanAt: (seq<Byte>, nat) -> Span, entries: nat, k: nat) {
    forall i: nat :: i < |t| && Covers(Locator(entries, k), i) && SomeCovers(t, spanAt, entries, k, i) ==> t[i] == 0
  }

  lemma OneArrivesWholeIff(t: seq<Byte>, spanAt: (seq<Byte>, nat) -> Span, entries: nat, k: nat)
    requires Local(spanAt) && AllArriveWhole(t, spanAt, entries, k)
    ensures ArrivesWhole(t, spanAt, entries, k) <==> EarlierApart(t, spanAt, entries, k)
  {
    forall i: nat | i < |t| && Covers(Locator(entries, k), i)
      ensures Reached(t, spanAt, entries, k)[i] == if SomeCovers(t, spanAt, entries, k, i) then 0 else t[i]
    {
      ReachedIs(t, spanAt, entries, k, i);
    }
  }

  lemma {:induction false} ArriveWholeIff(t: seq<Byte>, spanAt: (seq<Byte>, nat) -> Span, entries: nat, n: nat)
    requires Local(spanAt)
    ensures AllArriveWhole(t, spanAt, entries, n) <==> AllApart(t, spanAt, entries, n)
  {
    if n > 0 {
      var m := n - 1;
      ArriveWholeIff(t, spanAt, entries, m);
      if AllArriveWhole(t, spanAt, entries, m) {
        OneArrivesWholeIff(t, spanAt, entries, m);
      }
    }
  }

  ghost predicate AllArriveWhole(t: seq<Byte>, spanAt: (seq<Byte>, nat) -> Span, entries: nat, n: nat) {
    forall k: nat :: k < n ==> ArrivesWhole(t, spanAt, entries, k)
  }

  ghost predicate AllApart(t: seq<Byte>, spanAt: (seq<Byte>, nat) -> Span, entries: nat, n: nat) {
    forall k: nat :: k < n ==> EarlierApart(t, spanAt, entries, k)
  }

  /** Every entry of the GPS directory still says where its value is when the loop comes to it. */
  ghost predicate EveryEntryArrivesWhole(t: seq<Byte>, p: Place)
    requires p.Gps?
  {
    AllArriveWhole(t, Spans(p.order), p.at + 2, p.n)
  }

  /** The same, read off the block: no value lies over a later entry's type, count or offset,
      except where those bytes are zero. */
  ghost predicate ValuesApart(t: seq<Byte>, p: Place)
    requires p.Gps?
  {
    AllApart(t, Spans(p.order), p.at + 2, p.n)
  }

  lemma EntriesArriveWholeIff(t: seq<Byte>)
    requires Locate(t).Gps?
    ensures EveryEntryArrivesWhole(t, Locate(t)) <==> ValuesApart(t, Locate(t))
  {
    var p := Locate(t);
    SpansAreLocal(p.order);
    ArriveWholeIff(t, Spans(p.order), p.at + 2, p.n);
  }

  lemma ClearsEveryValue(t: seq<Byte>, spanAt: (seq<Byte>, nat) -> Span, entries: nat, n: nat, i: nat)
    requires Local(spanAt) && i < |t| && AllArriveWhole(t, spanAt, entries, n)
    ensures ClearValues(t, spanAt, entries, n, 0)[i] == if SomeCovers(t, spanAt, entries, n, i) then 0 else t[i]
  {
    ReachedThenRest(t, spanAt, entries, n, n);
    ReachedIs(t, spanAt, entries, n, i);
  }

  lemma EmptiesEveryValue(t: seq<Byte>, spanAt: (seq<Byte>, nat) -> Span, p: Place, i: nat)
    requires Within(t, p) && Local(spanAt) && i < |t| && AllArriveWhole(t, spanAt, p.at + 2, p.n)
    ensures Emptied(t, spanAt, p)[i]
            == if Covers(Directory(p), i) || SomeCovers(t, spanAt, p.at + 2, p.n, i) then 0 else t[i]
  {
    ClearsEveryValue(t, spanAt, p.at + 2, p.n, i);
  }

  /** With values apart from later entries, exactly the directory and the values its entries
      name, each read from the block as it came, are erased. */
  lemma ErasesEveryValue(t: seq<Byte>, i: nat)
    requires Locate(t).Gps? && ValuesApart(t, Locate(t)) && i < |t|
    ensures var p := Locate(t);
            ClearGPS(t).out[i]
            == if Covers(Directory(p), i) || SomeCovers(t, Spans(p.order), p.at + 2, p.n, i) then 0 else t[i]
  {
    var p := Locate(t);
    EntriesArriveWholeIff(t);
    SpansAreLocal(p.order);
    EmptiesEveryValue(t, Spans(p.order), p, i);
  }

  /** From entry `k` on, some value covers byte `i`. */
  predicate SomeFrom(t: seq<Byte>, spanAt: (seq<Byte>, nat) -> Span, entries: nat, n: nat, k: nat, i: nat)
    requires k <= n
    decreases n - k
  {
    k < n && (ValueCovers(t, spanAt, entries, k, i) || SomeFrom(t, spanAt, entries, n, k + 1, i))
  }

  lemma {:induction false} SomeFromIs(t: seq<Byte>, spanAt: (seq<Byte>, nat) -> Span,
                                      entries: nat, n: nat, k: nat, i: nat)
    requires k <= n
    ensures SomeFrom(t, spanAt, entries, n, k, i) || SomeCovers(t, spanAt, entries, k, i)
            <==> SomeCovers(t, spanAt, entries, n, i)
    decreases n - k
  {
    if k < n {
      SomeCoversNext(t, spanAt, entries, k, i);
      SomeFromIs(t, spanAt, entries, n, k + 1, i);
    }
  }

  /** What the loop still clears from entry `k` on are the values of the entries from there on. */
  lemma {:induction false} TouchesFrom(t: seq<Byte>, spanAt: (seq<Byte>, nat) -> Span,
                                       entries: nat, n: nat, k: nat, i: nat)
    requires Local(spanAt) && k <= n && AllArriveWhole(t, spanAt, entries, n)
    ensures Touches(Reached(t, spanAt, entries, k), spanAt, entries, n, k, i) <==> SomeFrom(t, spanAt, entries, n, k, i)
    decreases n - k
  {
    if k < n {
      TouchesFrom(t, spanAt, entries, n, k + 1, i);
      ReachedNext(t, spanAt, entries, k);
      WholeNamesTheSame(t, spanAt, entries, k);
    }
  }

  lemma WholeNamesTheSame(t: seq<Byte>, spanAt: (seq<Byte>, nat) -> Span, entries: nat, k: nat)
    requires Local(spanAt) && ArrivesWhole(t, spanAt, entries, k)
    ensures spanAt(Reached(t, spanAt, entries, k), entries + 12 * k) == spanAt(t, entries + 12 * k)
  {
  }

  lemma TouchesAre(t: seq<Byte>, spanAt: (seq<Byte>, nat) -> Span, entries: nat, n: nat, i: nat)
    requires Local(spanAt) && AllArriveWhole(t, spanAt, entries, n)
    ensures Touches(t, spanAt, entries, n, 0, i) <==> SomeCovers(t, spanAt, entries, n, i)
  {
    TouchesFrom(t, spanAt, entries, n, 0, i);
    SomeFromIs(t, spanAt, entries, n, 0, i);
  }

  /** Byte `i` belongs to the GPS directory or to a value its entries name in the input. */
  predicate Named(t: seq<Byte>, p: Place, i: nat)
    requires p.Gps?
  {
    Covers(Directory(p), i) || SomeCovers(t, Spans(p.order), p.at + 2, p.n, i)
  }

  lemma LocationIsNamed(t: seq<Byte>, i: nat)
    requires Locate(t).Gps? && ValuesApart(t, Locate(t))
    ensures Location(t, i) <==> Named(t, Locate(t), i)
  {
    var p := Locate(t);
    EntriesArriveWholeIff(t);
    SpansAreLocal(p.order);
    TouchesAre(t, Spans(p.order), p.at + 2, p.n, i);
  }

  /** With values apart from later entries, whether header and IFD0 are out of reach can be read
      off the input: no byte of theirs belongs to the GPS directory or to a value it names. */
  lemma HeaderApartIff(t: seq<Byte>)
    requires Locate(t).Gps? && ValuesApart(t, Locate(t))
    ensures var p := Locate(t);
            p.ifd0 + 2 <= |t|
            && (HeaderApart(t) <==>
                forall i :: 0 <= i < |t| && (i < 8 || Covers(Ifd0(t, p), i)) ==> !Named(t, p, i))
  {
    LocateFacts(t);
    forall i: nat ensures Location(t, i) <==> Named(t, Locate(t), i) {
      LocationIsNamed(t, i);
    }
  }

  /** A block whose first GPS value overlies the second GPS entry: clearing the first wipes
      where the second keeps its value, and that value stays. */
  const OVERLAPPING: seq<Byte> :=
    [0x49, 0x49, 42, 0, 8, 0, 0, 0]
    + [1, 0] + [0x25, 0x88, 4, 0, 1, 0, 0, 0, 22, 0, 0, 0]
    + [2, 0] + [2, 0, 5, 0, 2, 0, 0, 0, 36, 0, 0, 0] + [4, 0, 5, 0, 1, 0, 0, 0, 52, 0, 0, 0] + [0, 0, 0, 0]
    + [7, 7, 7, 7, 7, 7, 7, 7]

  /** The four bytes of a small little-endian number. */
  lemma Small(t: seq<Byte>, i: nat)
    requires i + 4 <= |t| && t[i + 1] == t[i + 2] == t[i + 3] == 0
    ensures U32(Little, t[i..i + 4]) == t[i] as int && U16(Little, t[i..i + 2]) == t[i] as int
  {
    assert t[i..i + 4][..2] == t[i..i + 2] && t[i..i + 4][2..] == [0, 0];
  }

  lemma SmallEntry(t: seq<Byte>, e: nat)
    requires e + 12 <= |t| && t[e + 2] == 5 && t[e + 3] == 0
    requires t[e + 5] == t[e + 6] == t[e + 7] == 0 && t[e + 9] == t[e + 10] == t[e + 11] == 0
    requires t[e + 4] > 0 && t[e + 8] as int + 8 * t[e + 4] as int <= |t|
    ensures SpanAt(t, Little, e) == Span(t[e + 8] as int, 8 * t[e + 4] as int)
  {
    assert t[e + 2..e + 4] == [5, 0];
    Small(t, e + 4);
    Small(t, e + 8);
  }

  /** The bytes of the block that are read. */
  predicate Overlapping(t: seq<Byte>) {
    && |t| == 60 && t[0] == 0x49 && t[1] == 0x49 && t[2] == 42 && t[3] == 0
    && t[4] == 8 && t[5] == t[6] == t[7] == 0 && t[8] == 1 && t[9] == 0 && t[10] == 0x25 && t[11] == 0x88
    && t[18] == 22 && t[19] == t[20] == t[21] == 0 && t[22] == 2 && t[23] == 0
    && t[26] == 5 && t[27] == 0 && t[28] == 2 && t[29] == t[30] == t[31] == 0
    && t[32] == 36 && t[33] == t[34] == t[35] == 0
    && t[38] == 5 && t[39] == 0 && t[40] == 1 && t[41] == t[42] == t[43] == 0
    && t[44] == 52 && t[45] == t[46] == t[47] == 0 && t[52] == 7
  }

  lemma OverlappingBytes()
    ensures Overlapping(OVERLAPPING)
  {
  }

  lemma OverlappingIsFound(t: seq<Byte>)
    requires Overlapping(t)
    ensures Locate(t) == Gps(Little, 8, 22, 2)
  {
    assert t[2..4] == [42, 0] && t[8..10] == [1, 0] && t[10..12] == [0x25, 0x88] && t[22..24] == [2, 0];
    Small(t, 4);
    Small(t, 18);
  }

  lemma OverlappingSpans(t: seq<Byte>)
    requires Overlapping(t)
    ensures |t| == 60 && SpanAt(t, Little, 24) == Span(36, 16) && SpanAt(t, Little, 36) == Span(52, 8)
  {
    SmallEntry(t, 24);
    SmallEntry(t, 36);
  }

  /** An entry whose type is wiped out names no value. */
  lemma WipedEntry(t: seq<Byte>, o: Order, e: nat)
    requires e + 12 <= |t| && t[e + 2] == t[e + 3] == 0
    ensures SpanAt(t, o, e) == Span(0, 0)
  {
    assert t[e + 2..e + 4] == [0, 0];
  }

  lemma OverlappedValueStays()
    ensures Locate(OVERLAPPING).Gps? && !ValuesApart(OVERLAPPING, Locate(OVERLAPPING))
    ensures Covers(SpanAt(OVERLAPPING, Little, 36), 52) && ClearGPS(OVERLAPPING).out[52] == 7
  {
    OverlappingBytes();
    OverlappingIsFound(OVERLAPPING);
    OverlappingSpans(OVERLAPPING);
    ClearsExactly(OVERLAPPING, 52);
    var t, spans := OVERLAPPING, Spans(Little);
    assert spans(t, 24) == Span(36, 16);
    var u := Zeroed(t, Span(36, 16));
    WipedEntry(u, Little, 36);
    assert !Touches(u, spans, 24, 2, 1, 52);
    assert !Touches(t, spans, 24, 2, 0, 52);
    assert ValueCovers(t, spans, 24, 0, 38) && Covers(Locator(24, 1), 38);
    assert SomeCovers(t, spans, 24, 1, 38);
    assert !EarlierApart(t, spans, 24, 1);
  }
}

/** The journal file, byte by byte: any append may be cut by a crash at any byte, and replay
still finds every record whose bytes are there. */
module JournalBytes {
  import opened Text
  import opened EventStore
  import opened EventReplay

  const NEWLINE: Byte := 10

  /** How a record is written as bytes; `blank` is what the reader takes for an empty line. */
  datatype Codec = Codec(encode: Line -> seq<Byte>, decode: seq<Byte> -> Option<Line>, blank: seq<Byte> -> bool)

  /** A JSON object on one line: no newline inside, and nothing shorter parses. Only objects as
      the store writes them have to read back; client ids and tombstones are left out of them. */
  ghost predicate Sound(codec: Codec) {
    && codec.blank([])
    && forall l :: Encodable(l) ==> SoundFor(codec, l)
  }

  ghost predicate SoundFor(codec: Codec, l: Line) {
    var data := codec.encode(l);
    && NEWLINE !in data && !codec.blank(data) && codec.decode(data) == Some(l)
    && forall k :: 0 <= k < |data| ==> codec.decode(data[..k]) == None
  }

  function Lines(s: seq<Byte>): (r: seq<seq<Byte>>)
    ensures |r| >= 1
  {
    if s == [] then [[]]
    else if s[0] == NEWLINE then [[]] + Lines(s[1..])
    else var r := Lines(s[1..]); [[s[0]] + r[0]] + r[1..]
  }

  /** A line that is blank or does not parse is skipped. */
  function Decoded(codec: Codec, raw: seq<Byte>): seq<Line> {
    if codec.blank(raw) then []
    else match codec.decode(raw)
         case Some(l) => [l]
         case None => []
  }

  function DecodedAll(codec: Codec, raws: seq<seq<Byte>>): seq<Line> {
    if raws == [] then [] else DecodedAll(codec, raws[..|raws| - 1]) + Decoded(codec, raws[|raws| - 1])
  }

  /** What replay reads from a journal file. */
  function Parse(codec: Codec, file: seq<Byte>): seq<Line> {
    DecodedAll(codec, Lines(file))
  }

  function EndsMidLine(file: seq<Byte>): bool {
    file != [] && file[|file| - 1] != NEWLINE
  }

  /** The bytes one append sends to the disk. */
  function Payload(codec: Codec, file: seq<Byte>, l: Line): seq<Byte> {
    (if EndsMidLine(file) then [NEWLINE] else []) + codec.encode(l) + [NEWLINE]
  }

  /** An append of which the disk took the first `cut` bytes. */
  datatype Attempt = Attempt(line: Line, cut: nat)

  function After(codec: Codec, file: seq<Byte>, a: Attempt): seq<Byte> {
    var payload := Payload(codec, file, a.line);
    file + if a.cut <= |payload| then payload[..a.cut] else payload
  }

  predicate Acknowledged(codec: Codec, file: seq<Byte>, a: Attempt) {
    a.cut >= |Payload(codec, file, a.line)|
  }

  /** Every byte of the record reached the file, its newline perhaps not. */
  predicate Complete(codec: Codec, file: seq<Byte>, a: Attempt) {
    a.cut >= |Payload(codec, file, a.line)| - 1
  }

  class Journal {
    const codec: Codec
    var file: seq<Byte>

    constructor (codec: Codec, file: seq<Byte>)
      ensures this.codec == codec && this.file == file
    {
      this.codec, this.file := codec, file;
    }

    /** The disk takes at most `room` bytes of one write before the crash. */
    method Write(data: seq<Byte>, room: nat) returns (left: int)
      modifies this
      ensures left == room - |data|
      ensures file == old(file) + if room < |data| then data[..room] else data
    {
      file := file + if room < |data| then data[..room] else data;
      left := room - |data|;
    }

    method AppendLine(l: Line, cut: nat) returns (acked: bool)
      modifies this
      ensures file == After(codec, old(file), Attempt(l, cut))
      ensures acked == Acknowledged(codec, old(file), Attempt(l, cut))
    {
      var data := codec.encode(l);
      var left := cut;
      ghost var torn := EndsMidLine(file);
      if file != [] && file[|file| - 1] != NEWLINE {
        left := Write([NEWLINE], cut);
        if left < 0 {
          return false;
        }
      }
      ghost var mid := file;
      left := Write(data + [NEWLINE], left);
      acked := left >= 0;
      ghost var payload := Payload(codec, old(file), l);
      assert torn ==> payload == [NEWLINE] + (data + [NEWLINE]);
      assert !torn ==> payload == data + [NEWLINE];
    }

    method Replay() returns (lines: seq<Line>)
      ensures lines == Parse(codec, file)
    {
      var raws := Lines(file);
      lines := [];
      for i := 0 to |raws|
        invariant lines == DecodedAll(codec, raws[..i])
      {
        assert raws[..i + 1][..i] == raws[..i];
        if !codec.blank(raws[i]) {
          var l := codec.decode(raws[i]);
          if l.Some? {
            lines := lines + [l.value];
          }
        }
      }
      assert raws[..|raws|] == raws;
    }
  }

  // ---------------------------------------------------------------- reading across a newline

  lemma {:induction false} LinesConcat(a: seq<Byte>, b: seq<Byte>)
    ensures Lines(a + [NEWLINE] + b) == Lines(a) + Lines(b)
  {
    var s := a + [NEWLINE] + b;
    if a == [] {
      assert s[1..] == b;
    } else {
      var t := a[1..] + [NEWLINE] + b;
      LinesConcat(a[1..], b);
      assert s[1..] == t && s[0] == a[0];
      LinesCons(s);
      LinesCons(a);
    }
  }

  lemma LinesCons(s: seq<Byte>)
    requires s != []
    ensures var r := Lines(s[1..]);
            Lines(s) == if s[0] == NEWLINE then [[]] + r else [[s[0]] + r[0]] + r[1..]
  {
  }

  lemma {:induction false} LinesWhole(a: seq<Byte>)
    requires NEWLINE !in a
    ensures Lines(a) == [a]
  {
    if a != [] {
      LinesWhole(a[1..]);
      assert a == [a[0]] + a[1..];
    }
  }

  lemma {:induction false} DecodedConcat(codec: Codec, a: seq<seq<Byte>>, b: seq<seq<Byte>>)
    ensures DecodedAll(codec, a + b) == DecodedAll(codec, a) + DecodedAll(codec, b)
  {
    if b == [] {
      assert a + b == a;
    } else {
      var init, last := b[..|b| - 1], b[|b| - 1];
      DecodedConcat(codec, a, init);
      DecodedSnoc(codec, a + init, last);
      assert b == init + [last];
      Regroup(a, init, [last]);
      Regroup(DecodedAll(codec, a), DecodedAll(codec, init), Decoded(codec, last));
    }
  }

  lemma DecodedSnoc(codec: Codec, raws: seq<seq<Byte>>, raw: seq<Byte>)
    ensures DecodedAll(codec, raws + [raw]) == DecodedAll(codec, raws) + Decoded(codec, raw)
  {
    assert (raws + [raw])[..|raws|] == raws;
  }

  lemma ParseConcat(codec: Codec, a: seq<Byte>, b: seq<Byte>)
    ensures Parse(codec, a + [NEWLINE] + b) == Parse(codec, a) + Parse(codec, b)
  {
    LinesConcat(a, b);
    DecodedConcat(codec, Lines(a), Lines(b));
  }

  /** A record on a line of its own, or as much of it as was written. */
  lemma ParsePart(codec: Codec, l: Line, k: nat)
    requires Sound(codec) && Encodable(l) && k <= |codec.encode(l)|
    ensures Parse(codec, codec.encode(l)[..k]) == if k == |codec.encode(l)| then [l] else []
  {
    assert SoundFor(codec, l);
    var data := codec.encode(l);
    var part := data[..k];
    assert k == |data| ==> part == data;
    LinesWhole(part);
    assert [part][..0] == [];
    assert DecodedAll(codec, []) == [];
  }

  lemma ParseEmpty(codec: Codec)
    requires Sound(codec)
    ensures Parse(codec, []) == []
  {
    var raws := Lines([]);
    assert raws[0] == [] && Decoded(codec, raws[0]) == [];
    assert raws[..0] == [] && DecodedAll(codec, raws[..0]) == [];
  }

  /** As much of `data`, newline included, as was written, after a line boundary. */
  lemma ParseRecord(codec: Codec, l: Line, k: nat)
    requires Sound(codec) && Encodable(l) && k <= |codec.encode(l)| + 1
    ensures Parse(codec, (codec.encode(l) + [NEWLINE])[..k]) == if k >= |codec.encode(l)| then [l] else []
  {
    var data := codec.encode(l);
    if k <= |data| {
      assert (data + [NEWLINE])[..k] == data[..k];
      ParsePart(codec, l, k);
    } else {
      assert (data + [NEWLINE])[..k] == data + [NEWLINE] + [];
      ParsePart(codec, l, |data|);
      assert data[..|data|] == data;
      ParseConcat(codec, data, []);
      ParseEmpty(codec);
    }
  }

  // ---------------------------------------------------------------- one append, any cut

  /** On a line boundary the record starts at once, ... */
  lemma BoundaryReads(codec: Codec, file: seq<Byte>, l: Line, k: nat)
    requires Sound(codec) && Encodable(l) && !EndsMidLine(file) && k <= |codec.encode(l)| + 1
    ensures Parse(codec, file + (codec.encode(l) + [NEWLINE])[..k])
            == Parse(codec, file) + if k >= |codec.encode(l)| then [l] else []
  {
    var part := (codec.encode(l) + [NEWLINE])[..k];
    ParseEmpty(codec);
    ParseRecord(codec, l, k);
    if file == [] {
      assert file + part == part;
    } else {
      var head := file[..|file| - 1];
      assert file == head + [NEWLINE] + [] && file + part == head + [NEWLINE] + part;
      ParseConcat(codec, head, []);
      ParseConcat(codec, head, part);
    }
  }

  /** ... after a torn line it starts behind a newline of its own. */
  lemma TornReads(codec: Codec, file: seq<Byte>, l: Line, k: nat)
    requires Sound(codec) && Encodable(l) && EndsMidLine(file) && 0 < k <= |codec.encode(l)| + 2
    ensures Parse(codec, file + ([NEWLINE] + codec.encode(l) + [NEWLINE])[..k])
            == Parse(codec, file) + if k >= |codec.encode(l)| + 1 then [l] else []
  {
    var part := (codec.encode(l) + [NEWLINE])[..k - 1];
    assert ([NEWLINE] + codec.encode(l) + [NEWLINE])[..k] == [NEWLINE] + part;
    assert file + ([NEWLINE] + part) == file + [NEWLINE] + part;
    ParseConcat(codec, file, part);
    ParseRecord(codec, l, k - 1);
  }

  /** Whatever the file held and wherever the crash fell, the records already readable stay
      readable, and the new one joins them exactly when all its bytes were written. */
  lemma AppendReads(codec: Codec, file: seq<Byte>, a: Attempt)
    requires Sound(codec) && Encodable(a.line)
    ensures Parse(codec, After(codec, file, a))
            == Parse(codec, file) + if Complete(codec, file, a) then [a.line] else []
  {
    var payload := Payload(codec, file, a.line);
    var k := if a.cut <= |payload| then a.cut else |payload|;
    assert After(codec, file, a) == file + payload[..k] by { assert payload[..|payload|] == payload; }
    if !EndsMidLine(file) {
      assert payload == codec.encode(a.line) + [NEWLINE];
      BoundaryReads(codec, file, a.line, k);
    } else if k > 0 {
      TornReads(codec, file, a.line, k);
    } else {
      assert file + payload[..0] == file && Parse(codec, file) + [] == Parse(codec, file);
    }
  }

  // ---------------------------------------------------------------- whole histories

  /** The file after a history of appends, each of which may have been cut. */
  function Written(codec: Codec, file: seq<Byte>, attempts: seq<Attempt>): seq<Byte> {
    if attempts == [] then file
    else After(codec, Written(codec, file, attempts[..|attempts| - 1]), attempts[|attempts| - 1])
  }

  ghost predicate AllEncodable(attempts: seq<Attempt>) {
    forall i :: 0 <= i < |attempts| ==> Encodable(attempts[i].line)
  }

  /** The records of the history whose bytes were complete, in order. */
  function Completed(codec: Codec, file: seq<Byte>, attempts: seq<Attempt>): seq<Line> {
    if attempts == [] then []
    else
      var before, a := attempts[..|attempts| - 1], attempts[|attempts| - 1];
      Completed(codec, file, before)
      + if Complete(codec, Written(codec, file, before), a) then [a.line] else []
  }

  /** Replay returns what the file held before, then exactly the complete records in order. */
  lemma {:induction false} ReplayReadsCompleted(codec: Codec, file: seq<Byte>, attempts: seq<Attempt>)
    requires Sound(codec) && AllEncodable(attempts)
    ensures Parse(codec, Written(codec, file, attempts)) == Parse(codec, file) + Completed(codec, file, attempts)
  {
    if attempts != [] {
      var before, a := attempts[..|attempts| - 1], attempts[|attempts| - 1];
      ReplayReadsCompleted(codec, file, before);
      AppendReads(codec, Written(codec, file, before), a);
    }
  }

  lemma {:induction false} CompletedGrows(codec: Codec, file: seq<Byte>, attempts: seq<Attempt>, i: nat)
    requires i <= |attempts|
    ensures Completed(codec, file, attempts[..i]) <= Completed(codec, file, attempts)
    decreases |attempts|
  {
    if i < |attempts| {
      CompletedGrows(codec, file, attempts[..|attempts| - 1], i);
      assert attempts[..|attempts| - 1][..i] == attempts[..i];
    } else {
      assert attempts[..i] == attempts;
    }
  }

  /** An acknowledged record is read back, right after those completed before it, whatever
      was torn before or after it. */
  lemma AcknowledgedIsRead(codec: Codec, file: seq<Byte>, attempts: seq<Attempt>, i: nat)
    requires Sound(codec) && AllEncodable(attempts) && i < |attempts|
    requires Acknowledged(codec, Written(codec, file, attempts[..i]), attempts[i])
    ensures Parse(codec, file) + (Completed(codec, file, attempts[..i]) + [attempts[i].line])
            <= Parse(codec, Written(codec, file, attempts))
  {
    ReplayReadsCompleted(codec, file, attempts);
    CompletedGrows(codec, file, attempts, i + 1);
    var upto := attempts[..i + 1];
    assert upto[..|upto| - 1] == attempts[..i];
  }

  function AllWritten(lines: seq<Line>, codec: Codec, file: seq<Byte>): seq<Byte> {
    if lines == [] then file
    else
      var before := AllWritten(lines[..|lines| - 1], codec, file);
      before + Payload(codec, before, lines[|lines| - 1])
  }

  lemma {:induction false} AllWrittenParses(codec: Codec, file: seq<Byte>, lines: seq<Line>)
    requires Sound(codec) && forall i :: 0 <= i < |lines| ==> Encodable(lines[i])
    ensures Parse(codec, AllWritten(lines, codec, file)) == Parse(codec, file) + lines
  {
    if lines != [] {
      var n := |lines| - 1;
      var before := AllWritten(lines[..n], codec, file);
      AllWrittenParses(codec, file, lines[..n]);
      WholeAppendReads(codec, before, lines[n]);
      assert lines == lines[..n] + [lines[n]];
      Regroup(Parse(codec, file), lines[..n], [lines[n]]);
    }
  }

  lemma WholeAppendReads(codec: Codec, file: seq<Byte>, l: Line)
    requires Sound(codec) && Encodable(l)
    ensures Parse(codec, file + Payload(codec, file, l)) == Parse(codec, file) + [l]
  {
    var payload := Payload(codec, file, l);
    AppendReads(codec, file, Attempt(l, |payload|));
    assert payload[..|payload|] == payload;
  }

  /** A crash in the middle of a mutation: the store that reopens is the one that was live,
      or that one with the interrupted mutation if its record was complete. */
  lemma CrashLosesAtMostTheInterrupted(codec: Codec, env: Env, file: seq<Byte>,
                                       ws: seq<Wall>, lines: seq<Line>, a: Attempt)
    requires Sound(codec) && Lived(env, Parse(codec, file), ws, lines)
    requires forall i :: 0 <= i < |lines| ==> Faithful(env, ws[i], lines[i])
    requires Writable(ws[|lines|], a.line) && Faithful(env, ws[|lines|], a.line)
    ensures var disk := AllWritten(lines, codec, file);
            Replay(env, Parse(codec, After(codec, disk, a)))
            == if Complete(codec, disk, a) then Mutated(ws[|lines|], a.line) else ws[|lines|]
  {
    var disk, w := AllWritten(lines, codec, file), ws[|lines|];
    forall i | 0 <= i < |lines| ensures Encodable(lines[i]) {
      WroteAt(ws, lines, i);
    }
    AllWrittenParses(codec, file, lines);
    ReplayIsLive(env, Parse(codec, file), ws, lines, |lines|);
    assert lines[..|lines|] == lines;
    AppendReads(codec, disk, a);
    if Complete(codec, disk, a) {
      ReplayStepIff(env, Parse(codec, disk), w, a.line, Mutated(w, a.line));
    } else {
      assert Parse(codec, disk) + [] == Parse(codec, disk);
    }
  }
}

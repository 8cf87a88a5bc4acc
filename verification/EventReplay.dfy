/** Replaying the journal rebuilds the live store exactly, and where a single line could
break that, the condition under which it does not. */
module EventReplay {
  import opened Text
  import opened EventStore

  // ---------------------------------------------------------------- activity tokens

  lemma {:induction false} MaxActBounds(posts: seq<Post>)
    ensures forall i :: 0 <= i < |posts| ==> posts[i].act <= MaxAct(posts)
    ensures 0 <= MaxAct(posts)
  {
    if posts != [] {
      MaxActBounds(posts[..|posts| - 1]);
    }
  }

  /** A token above every other becomes the maximum wherever it lands. */
  lemma {:induction false} MaxActOf(posts: seq<Post>, i: nat, ts: int)
    requires i < |posts| && posts[i].act == ts && ts > 0
    requires forall j :: 0 <= j < |posts| ==> posts[j].act <= ts
    ensures MaxAct(posts) == ts
  {
    var n := |posts| - 1;
    var init := posts[..n];
    MaxActBounds(init);
    MaxActBounds(posts);
    if i < n {
      MaxActOf(init, i, ts);
    } else {
      MaxActAtMost(init, ts);
    }
  }

  lemma {:induction false} MaxActAtMost(posts: seq<Post>, ts: int)
    requires ts >= 0 && forall j :: 0 <= j < |posts| ==> posts[j].act <= ts
    ensures MaxAct(posts) <= ts
  {
    if posts != [] {
      MaxActAtMost(posts[..|posts| - 1], ts);
    }
  }

  // ---------------------------------------------------------------- recent tracks

  lemma {:induction false} ReversedSnoc(s: seq<Track>, t: Track)
    ensures Reversed(s + [t]) == [t] + Reversed(s)
  {
    assert (s + [t])[..|s|] == s;
  }

  lemma {:induction false} ReversedDropping(p: Track -> bool, s: seq<Track>)
    ensures Reversed(Dropping(p, s)) == Dropping(p, Reversed(s))
  {
    if s != [] {
      var init, last := s[..|s| - 1], s[|s| - 1];
      assert s == init + [last];
      ReversedDropping(p, init);
      DroppingConcat(p, init, [last]);
      DroppingConcat(p, [last], Reversed(init));
      assert [last][1..] == [];
      if !p(last) {
        ReversedSnoc(Dropping(p, init), last);
      } else {
        assert Dropping(p, init) + [] == Dropping(p, init);
      }
    }
  }

  lemma RotateKeepsRecent(w: Wall)
    requires RecentMatches(w)
    ensures RecentMatches(Rotate(w))
  {
    if w.current.Some? && w.current.value.title != "" {
      var t := w.current.value;
      ReversedSnoc(w.setlist, t);
      assert [t] + w.recent <= [t] + Reversed(w.setlist);
      assert Take([t] + w.recent, TRACK_HISTORY) <= [t] + w.recent;
    }
  }

  lemma {:induction false} DroppingShorter(p: Track -> bool, s: seq<Track>)
    ensures |Dropping(p, s)| <= |s|
  {
    if s != [] { DroppingShorter(p, s[1..]); }
  }

  lemma DropKeepsRecent(w: Wall, want: Track)
    requires RecentMatches(w)
    ensures RecentMatches(Dropped(w, want))
  {
    var p := t => SameTrack(t, want);
    var all := Reversed(w.setlist);
    ReversedDropping(p, w.setlist);
    assert all == w.recent + all[|w.recent|..];
    DroppingConcat(p, w.recent, all[|w.recent|..]);
    DroppingShorter(p, w.recent);
  }

  // ---------------------------------------------------------------- live states stay sane

  lemma TouchKeepsSane(w: Wall, i: nat, p: Post, ts: int)
    requires Sane(w) && i < |w.posts| && ts > w.lastActivity
    ensures Sane(Touched(w, i, p, ts))
  {
    MaxActBounds(w.posts);
    MaxActOf(Touched(w, i, p, ts).posts, i, ts);
  }

  lemma AppendKeepsSane(w: Wall, p: Post)
    requires Sane(w) && p.act > w.lastActivity
    ensures Sane(w.(posts := w.posts + [p], lastActivity := p.act))
  {
    MaxActBounds(w.posts);
    MaxActOf(w.posts + [p], |w.posts|, p.act);
  }

  lemma ThumbsKeepSane(w: Wall, mediaId: string, thumb: string, ts: int)
    requires Sane(w) && Writable(w, ThumbLine(mediaId, thumb, ts))
    ensures Sane(Mutated(w, ThumbLine(mediaId, thumb, ts)))
  {
    MaxActBounds(w.posts);
    ThumbsRaise(w.posts, mediaId, thumb, ts);
  }

  lemma ThumbsRaise(posts: seq<Post>, mediaId: string, thumb: string, ts: int)
    requires SomeNeedsThumb(posts, mediaId, thumb) && ts > 0 && forall j :: 0 <= j < |posts| ==> posts[j].act <= ts
    ensures MaxAct(LiveThumbs(posts, mediaId, thumb, ts)) == ts
  {
    var i :| 0 <= i < |posts| && NeedsThumb(posts[i], mediaId, thumb);
    MaxActOf(LiveThumbs(posts, mediaId, thumb, ts), i, ts);
  }

  lemma MutationKeepsSane(w: Wall, l: Line)
    requires Sane(w) && Writable(w, l)
    ensures Sane(Mutated(w, l))
  {
    match l
    case PostLine(cid, post, ts) => AppendKeepsSane(w, post.(cid := cid));
    case DeleteLine(id, ts) => TouchKeepsSane(w, LiveIndex(w, id), w.posts[LiveIndex(w, id)].(deleted := true), ts);
    case CommentLine(id, cid, c, ts) =>
      var p := w.posts[LiveIndex(w, id)];
      TouchKeepsSane(w, LiveIndex(w, id), p.(comments := p.comments + [c.(cid := cid)]), ts);
    case CommentDeleteLine(id, commentId, ts) =>
      var p := w.posts[LiveIndex(w, id)];
      TouchKeepsSane(w, LiveIndex(w, id), p.(comments := WithoutComment(p.comments, commentId)), ts);
    case ReactionLine(id, reaction, ts) =>
      TouchKeepsSane(w, LiveIndex(w, id), Reacted(w.posts[LiveIndex(w, id)], reaction), ts);
    case ModLine(id, commentId, state, ts) =>
      TouchKeepsSane(w, LiveIndex(w, id), Moderated(w.posts[LiveIndex(w, id)], commentId, state), ts);
    case TrackLine(_) => RotateKeepsRecent(w);
    case ClearLine => RotateKeepsRecent(w);
    case DropLine(t) => DropKeepsRecent(w, t);
    case ThumbLine(mediaId, thumb, ts) => ThumbsKeepSane(w, mediaId, thumb, ts);
    case IgnoredLine =>
  }

  // ---------------------------------------------------------------- one line

  lemma TrackReplaysIff(env: Env, w: Wall, t: Track)
    requires Writable(w, TrackLine(t))
    ensures Replayed(env, w, TrackLine(t)) == Mutated(w, TrackLine(t)) <==> CleanTrack(env, t) == t
  {
    TrimRightKeeps(t.title, 1);
  }

  lemma OneThumbReplaysIff(p: Post, mediaId: string, thumb: string, ts: int)
    requires p.act < ts
    ensures LiveThumb(p, mediaId, thumb, ts) == ReplayThumb(p, mediaId, thumb, ts)
            <==> (HasMedia(p, mediaId) ==> NeedsThumb(p, mediaId, thumb))
  {
    assert NeedsThumb(p, mediaId, thumb) ==> HasMedia(p, mediaId);
  }

  lemma ThumbsReplayIff(posts: seq<Post>, mediaId: string, thumb: string, ts: int)
    requires forall i :: 0 <= i < |posts| ==> posts[i].act < ts
    ensures LiveThumbs(posts, mediaId, thumb, ts) == ReplayThumbs(posts, mediaId, thumb, ts)
            <==> forall i :: 0 <= i < |posts| && HasMedia(posts[i], mediaId) ==> NeedsThumb(posts[i], mediaId, thumb)
  {
    var live, again := LiveThumbs(posts, mediaId, thumb, ts), ReplayThumbs(posts, mediaId, thumb, ts);
    forall i | 0 <= i < |posts|
      ensures live[i] == again[i] <==> (HasMedia(posts[i], mediaId) ==> NeedsThumb(posts[i], mediaId, thumb))
    {
      OneThumbReplaysIff(posts[i], mediaId, thumb, ts);
    }
  }

  /** A thumbnail line replays exactly when every post carrying the media got it live. */
  lemma ThumbReplaysIff(env: Env, w: Wall, mediaId: string, thumb: string, ts: int)
    requires Sane(w) && Writable(w, ThumbLine(mediaId, thumb, ts))
    ensures Replayed(env, w, ThumbLine(mediaId, thumb, ts)).posts == Mutated(w, ThumbLine(mediaId, thumb, ts)).posts
            <==> Faithful(env, w, ThumbLine(mediaId, thumb, ts))
  {
    MaxActBounds(w.posts);
    ThumbsReplayIff(w.posts, mediaId, thumb, ts);
  }

  /** Dropping two different songs cannot come out the same, if it comes out at all. */
  lemma SameDropsSameTrack(s: seq<Track>, a: Track, b: Track)
    requires WithoutTrack(s, a) != s && WithoutTrack(s, b) == WithoutTrack(s, a)
    ensures SameTrack(a, b)
  {
    if forall x :: x in s ==> !SameTrack(x, a) {
      DroppingNone(t => SameTrack(t, a), s);
    }
    var x :| x in s && SameTrack(x, a);
    DroppingMembers(t => SameTrack(t, a), s);
    DroppingMembers(t => SameTrack(t, b), s);
    assert x !in WithoutTrack(s, b);
  }

  /** A drop that changed something replays exactly when cleaning the journalled track again
      still names the same song. */
  lemma DropReplaysIff(env: Env, w: Wall, t: Track)
    requires Dropped(w, t) != w
    ensures Replayed(env, w, DropLine(t)) == Mutated(w, DropLine(t)) <==> SameTrack(CleanTrack(env, t), t)
  {
    var again := CleanTrack(env, t);
    if SameTrack(again, t) {
      SameDropping(t, again, w.recent);
      SameDropping(t, again, w.setlist);
    } else if Dropped(w, again) == Dropped(w, t) {
      if WithoutTrack(w.recent, t) != w.recent {
        SameDropsSameTrack(w.recent, t, again);
      } else if WithoutTrack(w.setlist, t) != w.setlist {
        SameDropsSameTrack(w.setlist, t, again);
      }
    }
  }

  lemma {:induction false} SameDropping(a: Track, b: Track, s: seq<Track>)
    requires SameTrack(a, b)
    ensures WithoutTrack(s, a) == WithoutTrack(s, b)
  {
    if s != [] {
      SameDropping(a, b, s[1..]);
    }
  }

  /** On a live post, the token a mutation journals is also the larger one. */
  lemma LiveRaisesAsTouched(w: Wall, id: string, p: Post, ts: int)
    requires Sane(w) && LiveIndex(w, id) >= 0 && ts > w.lastActivity
    requires p.act == w.posts[LiveIndex(w, id)].act
    ensures IndexOfPost(w.posts, id) == LiveIndex(w, id)
    ensures Raised(w, LiveIndex(w, id), p, ts) == Touched(w, LiveIndex(w, id), p, ts).(lastActivity := w.lastActivity)
  {
    MaxActBounds(w.posts);
  }

  /** The lines about a post replay to their live effect. */
  lemma PostLineReplays(env: Env, w: Wall, l: Line)
    requires Sane(w) && Writable(w, l) && !l.TrackLine? && !l.DropLine? && !l.ThumbLine?
    ensures Replayed(env, w, l) == Mutated(w, l).(lastActivity := w.lastActivity)
  {
    match l
    case PostLine(cid, post, ts) => assert NormalizedComments(post.comments) == post.comments;
    case DeleteLine(id, ts) =>
      LiveRaisesAsTouched(w, id, w.posts[LiveIndex(w, id)].(deleted := true), ts);
    case CommentLine(id, cid, c, ts) =>
      var p := w.posts[LiveIndex(w, id)];
      LiveRaisesAsTouched(w, id, p.(comments := p.comments + [c.(cid := cid)]), ts);
    case CommentDeleteLine(id, commentId, ts) =>
      var p := w.posts[LiveIndex(w, id)];
      LiveRaisesAsTouched(w, id, p.(comments := WithoutComment(p.comments, commentId)), ts);
    case ReactionLine(id, reaction, ts) =>
      LiveRaisesAsTouched(w, id, Reacted(w.posts[LiveIndex(w, id)], reaction), ts);
    case ModLine(id, commentId, state, ts) =>
      LiveRaisesAsTouched(w, id, Moderated(w.posts[LiveIndex(w, id)], commentId, state), ts);
    case ClearLine =>
    case IgnoredLine =>
  }

  /** One journalled mutation replays to its live effect exactly when it is faithful. */
  lemma LineReplaysIff(env: Env, w: Wall, l: Line)
    requires Sane(w) && Writable(w, l)
    ensures Replayed(env, w, l) == Mutated(w, l).(lastActivity := w.lastActivity) <==> Faithful(env, w, l)
  {
    match l
    case TrackLine(t) => TrackReplaysIff(env, w, t);
    case DropLine(t) => DropReplaysIff(env, w, t);
    case ThumbLine(mediaId, thumb, ts) => ThumbReplaysIff(env, w, mediaId, thumb, ts);
    case _ => PostLineReplays(env, w, l);
  }

  lemma ReplayIgnoresToken(env: Env, w: Wall, l: Line, x: int)
    ensures Replayed(env, w.(lastActivity := x), l) == Replayed(env, w, l).(lastActivity := x)
  {
  }

  // ---------------------------------------------------------------- whole runs

  /** Whatever the journal holds, the replayed store is a sane one to continue from. */
  lemma {:induction false} LoopKeepsTracks(env: Env, lines: seq<Line>)
    ensures RecentMatches(Loop(env, lines))
    ensures Loop(env, lines).current.Some? ==> Loop(env, lines).current.value.title != ""
  {
    if lines != [] {
      LoopKeepsTracks(env, lines[..|lines| - 1]);
      ReplayedKeepsTracks(env, Loop(env, lines[..|lines| - 1]), lines[|lines| - 1]);
    }
  }

  lemma ReplayedKeepsTracks(env: Env, w: Wall, l: Line)
    requires RecentMatches(w) && (w.current.Some? ==> w.current.value.title != "")
    ensures var next := Replayed(env, w, l);
            RecentMatches(next) && (next.current.Some? ==> next.current.value.title != "")
  {
    match l
    case TrackLine(_) => RotateKeepsRecent(w);
    case ClearLine => RotateKeepsRecent(w);
    case DropLine(t) => DropKeepsRecent(w, CleanTrack(env, t));
    case _ =>
  }

  lemma ReplayIsSane(env: Env, lines: seq<Line>)
    ensures Sane(Replay(env, lines))
  {
    LoopKeepsTracks(env, lines);
    MaxActBounds(Loop(env, lines).posts);
  }

  lemma {:induction false} LivedIsSane(env: Env, before: seq<Line>, ws: seq<Wall>, lines: seq<Line>, k: nat)
    requires Lived(env, before, ws, lines) && k <= |lines|
    ensures Sane(ws[k])
  {
    if k == 0 {
      ReplayIsSane(env, before);
    } else {
      LivedIsSane(env, before, ws, lines, k - 1);
      WroteAt(ws, lines, k - 1);
      MutationKeepsSane(ws[k - 1], lines[k - 1]);
    }
  }

  /** If a restart rebuilds the store, it still does after one more mutation, exactly when
      that mutation's line is faithful. */
  lemma ReplayStepIff(env: Env, journal: seq<Line>, w: Wall, l: Line, next: Wall)
    requires w == Replay(env, journal) && Wrote(w, l, next)
    ensures Replay(env, journal + [l]) == next <==> Faithful(env, w, l)
  {
    var before := Loop(env, journal);
    ReplayIsSane(env, journal);
    MutationKeepsSane(w, l);
    LineReplaysIff(env, w, l);
    LoopSnoc(env, journal, l);
    ReplayIgnoresToken(env, w, l, before.lastActivity);
    assert w.(lastActivity := before.lastActivity) == before;
    var after := Loop(env, journal + [l]);
    assert after == Replayed(env, w, l).(lastActivity := before.lastActivity);
    TokenFollowsPosts(after, next, before.lastActivity);
    ReplayKeepsToken(env, w, l);
  }

  lemma ReplayKeepsToken(env: Env, w: Wall, l: Line)
    ensures Replayed(env, w, l).lastActivity == w.lastActivity
  {
  }

  /** Two stores that agree on everything but the token agree on it too once it is recomputed. */
  lemma TokenFollowsPosts(after: Wall, next: Wall, x: int)
    requires Sane(next) && after.lastActivity == x
    ensures after.(lastActivity := MaxAct(after.posts)) == next <==> after == next.(lastActivity := x)
  {
  }

  lemma LoopSnoc(env: Env, journal: seq<Line>, l: Line)
    ensures Loop(env, journal + [l]) == Replayed(env, Loop(env, journal), l)
  {
    assert (journal + [l])[..|journal|] == journal;
  }

  lemma PrefixGrows<T>(before: seq<T>, rest: seq<T>, k: nat)
    requires k < |rest|
    ensures before + rest[..k + 1] == before + rest[..k] + [rest[k]]
  {
  }

  lemma RunStepIff(env: Env, journal: seq<Line>, ws: seq<Wall>, lines: seq<Line>, n: nat)
    requires Ran(ws, lines) && n < |lines| && Replay(env, journal) == ws[n]
    ensures Replay(env, journal + [lines[n]]) == ws[n + 1] <==> Faithful(env, ws[n], lines[n])
  {
    WroteAt(ws, lines, n);
    ReplayStepIff(env, journal, ws[n], lines[n], ws[n + 1]);
  }

  lemma ReplayOneMoreIff(env: Env, before: seq<Line>, ws: seq<Wall>, lines: seq<Line>, n: nat)
    requires Ran(ws, lines) && n < |lines| && Replay(env, before + lines[..n]) == ws[n]
    ensures Replay(env, before + lines[..n + 1]) == ws[n + 1] <==> Faithful(env, ws[n], lines[n])
  {
    PrefixGrows(before, lines, n);
    RunStepIff(env, before + lines[..n], ws, lines, n);
  }

  /** Reopening the store after any run of mutations rebuilds exactly the live one: posts,
      comments, reactions, moderation, deletions, tokens, last activity, current track,
      history and setlist. The journal it was first opened on may hold anything. */
  lemma {:induction false} ReplayIsLive(env: Env, before: seq<Line>, ws: seq<Wall>, lines: seq<Line>, k: nat)
    requires Lived(env, before, ws, lines) && k <= |lines|
    requires forall i :: 0 <= i < k ==> Faithful(env, ws[i], lines[i])
    ensures Replay(env, before + lines[..k]) == ws[k]
  {
    if k == 0 {
      assert before + lines[..0] == before;
    } else {
      ReplayIsLive(env, before, ws, lines, k - 1);
      ReplayOneMoreIff(env, before, ws, lines, k - 1);
    }
  }

  /** The journal is right at every moment of the run, so that a restart at any of them would
      rebuild the store, exactly when every line is faithful where it was written. */
  lemma ReplaysThroughoutIff(env: Env, before: seq<Line>, ws: seq<Wall>, lines: seq<Line>)
    requires Lived(env, before, ws, lines)
    ensures (forall k :: 0 <= k <= |lines| ==> Replay(env, before + lines[..k]) == ws[k])
            <==> forall i :: 0 <= i < |lines| ==> Faithful(env, ws[i], lines[i])
  {
    if forall k :: 0 <= k <= |lines| ==> Replay(env, before + lines[..k]) == ws[k] {
      forall i | 0 <= i < |lines| ensures Faithful(env, ws[i], lines[i]) {
        var k := i + 1;
        assert Replay(env, before + lines[..k]) == ws[k] && Replay(env, before + lines[..i]) == ws[i];
        ReplayOneMoreIff(env, before, ws, lines, i);
      }
    }
    if forall i :: 0 <= i < |lines| ==> Faithful(env, ws[i], lines[i]) {
      forall k | 0 <= k <= |lines| ensures Replay(env, before + lines[..k]) == ws[k] {
        ReplayIsLive(env, before, ws, lines, k);
      }
    }
  }

  /** In every live state the recent tracks are the newest of the setlist, at most fifteen. */
  lemma RecentIsNewest(env: Env, before: seq<Line>, ws: seq<Wall>, lines: seq<Line>, i: nat)
    requires Lived(env, before, ws, lines) && i <= |lines|
    ensures |ws[i].recent| <= TRACK_HISTORY && ws[i].recent <= Reversed(ws[i].setlist)
  {
    LivedIsSane(env, before, ws, lines, i);
  }

  // ---------------------------------------------------------------- cleaning twice

  predicate Fits(s: string, n: nat)
    requires n > 0
  {
    |Trim(s)| <= n || !IsSpace(Trim(s)[n - 1])
  }

  /** A cleaned field cleans to itself unless the clip left a space at its end. */
  lemma FieldTwiceIff(s: string, n: nat)
    requires n > 0
    ensures Field(Field(s, n), n) == Field(s, n) <==> Fits(s, n)
    ensures s == "" ==> Field(s, n) == ""
    ensures Field(s, n) == "" <==> Trim(s) == ""
    ensures Field(Field(s, n), n) == "" <==> Trim(s) == ""
  {
    TrimEnds(s);
    var t := Trim(s);
    if |t| > n {
      var c := t[..n];
      assert c[0] == t[0] && c[n - 1] == t[n - 1];
      assert TrimLeft(c) == c;
      TrimRightKeeps(c, 1);
      if IsSpace(c[n - 1]) {
        TrimRightPart(c[..n - 1]);
        assert |Trim(c)| < n;
      }
    } else if t != "" {
      TrimIdentity(t);
    }
  }

  lemma ArtworkTwiceIff(env: Env, s: string)
    ensures Artwork(env, Artwork(env, s)) == Artwork(env, s)
            <==> Fits(s, 1000) || !env.okArtwork(Field(s, 1000))
  {
    FieldTwiceIff(s, 1000);
    FieldTwiceIff("", 1000);
    TrimEnds(s);
  }

  /** The tracks whose journal line replays exactly: no field was clipped right after a space. */
  lemma CleanTwiceIff(env: Env, raw: Track)
    requires Trim(raw.title) != ""
    ensures var t := CleanTrack(env, raw);
            CleanTrack(env, t) == t <==>
            && Fits(raw.title, 120) && Fits(raw.artist, 120) && Fits(raw.note, 240) && Fits(raw.matchId, 160)
            && (Fits(raw.artwork, 1000) || !env.okArtwork(Field(raw.artwork, 1000)))
  {
    FieldTwiceIff(raw.title, 120);
    FieldTwiceIff(raw.artist, 120);
    FieldTwiceIff(raw.note, 240);
    FieldTwiceIff(raw.matchId, 160);
    ArtworkTwiceIff(env, raw.artwork);
  }

  /** The songs whose drop replays exactly: title and artist were not clipped right after a space. */
  lemma CleanSongTwiceIff(env: Env, raw: Track)
    requires Trim(raw.title) != ""
    ensures var t := CleanTrack(env, raw);
            SameTrack(CleanTrack(env, t), t) <==> Fits(raw.title, 120) && Fits(raw.artist, 120)
  {
    FieldTwiceIff(raw.title, 120);
    FieldTwiceIff(raw.artist, 120);
  }

  // ---------------------------------------------------------------- lines that fail

  /** A title of 119 letters, a space and a letter: the clip to 120 ends right behind the space. */
  const LONG_TITLE := seq(119, i => 'a') + " b"

  const LONG_TRACK := Track(LONG_TITLE, "", "", "", "", 1)

  lemma LongTitleIsClipped()
    ensures Trim(LONG_TITLE) == LONG_TITLE && |LONG_TITLE| == 121 && !Fits(LONG_TITLE, 120)
  {
    assert LONG_TITLE[0] == 'a' && LONG_TITLE[119] == ' ' && LONG_TITLE[120] == 'b';
    TrimIdentity(LONG_TITLE);
  }

  /** What the store journals for it, in any state, and what it fails at. */
  lemma LongTrackFails(env: Env)
    ensures var t := CleanTrack(env, LONG_TRACK);
            && t.title != "" && !IsSpace(t.title[0]) && CleanTrack(env, t) != t && !SameTrack(CleanTrack(env, t), t)
  {
    LongTitleIsClipped();
    CleanTwiceIff(env, LONG_TRACK);
    CleanSongTwiceIff(env, LONG_TRACK);
  }

  /** The store can write a track line that does not replay, ... */
  lemma ClippedTrackFails(env: Env, w: Wall)
    ensures var l := TrackLine(CleanTrack(env, LONG_TRACK));
            Writable(w, l) && !Faithful(env, w, l) && Replayed(env, w, l) != Mutated(w, l)
  {
    LongTrackFails(env);
    TrackReplaysIff(env, w, CleanTrack(env, LONG_TRACK));
  }

  /** ... take that song off the list by a line that does not either, ... */
  lemma ClippedDropFails(env: Env)
    ensures var t := CleanTrack(env, LONG_TRACK);
            var w, l := Mutated(EMPTY, TrackLine(t)), DropLine(t);
            Sane(w) && Writable(w, l) && !Faithful(env, w, l) && Replayed(env, w, l) != Mutated(w, l)
  {
    var t := CleanTrack(env, LONG_TRACK);
    LongTrackFails(env);
    assert Sane(EMPTY) && Writable(EMPTY, TrackLine(t));
    MutationKeepsSane(EMPTY, TrackLine(t));
    DropReplaysIff(env, Mutated(EMPTY, TrackLine(t)), t);
  }

  const SHARED := Media("m.jpg", "image", "m.jpg", 1, "")

  /** One upload in two posts, the first of them deleted. */
  const SHARED_WALL := Wall(
    [Post("a", 1, 1, "", "", "", "", [SHARED], false, Approved, [], map[], true),
     Post("b", 2, 2, "", "", "", "", [SHARED], false, Approved, [], map[], false)], 2, None, [], [])

  /** ... and a thumbnail line that replay puts on the deleted post as well. */
  lemma SharedThumbFails(env: Env, thumb: string, ts: int)
    requires thumb != "" && ts > 2
    ensures var l := ThumbLine(SHARED.id, thumb, ts);
            && Sane(SHARED_WALL) && Writable(SHARED_WALL, l) && !Faithful(env, SHARED_WALL, l)
            && Replayed(env, SHARED_WALL, l).posts != Mutated(SHARED_WALL, l).posts
  {
    var posts := SHARED_WALL.posts;
    MaxActOf(posts, 1, 2);
    assert posts[0].media[0].id == SHARED.id && posts[1].media[0].id == SHARED.id;
    assert HasMedia(posts[0], SHARED.id) && !NeedsThumb(posts[0], SHARED.id, thumb);
    assert NeedsThumb(posts[1], SHARED.id, thumb);
    ThumbReplaysIff(env, SHARED_WALL, SHARED.id, thumb, ts);
  }

  lemma {:induction false} TrimLeftStarts(s: string)
    ensures TrimLeft(s) == "" || !IsSpace(TrimLeft(s)[0])
  {
    if s != "" && IsSpace(s[0]) { TrimLeftStarts(s[1..]); }
  }

  lemma {:induction false} TrimRightEnds(s: string)
    ensures TrimRight(s) == "" || !IsSpace(TrimRight(s)[|TrimRight(s)| - 1])
    ensures TrimRight(s) == "" || TrimRight(s)[0] == s[0]
  {
    if s != "" && IsSpace(s[|s| - 1]) { TrimRightEnds(s[..|s| - 1]); }
  }

  lemma TrimEnds(s: string)
    ensures Trim(s) == "" || (!IsSpace(Trim(s)[0]) && !IsSpace(Trim(s)[|Trim(s)| - 1]))
  {
    TrimLeftStarts(s);
    TrimRightEnds(TrimLeft(s));
  }
}

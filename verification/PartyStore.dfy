/** The live store: each mutation journals one line, then changes its fields in place. */
module PartyStore {
  import opened Text
  import opened EventStore
  import opened EventReplay

  /** A stored upload: its size and whether its thumbnail has been made. */
  datatype Upload = Upload(size: int, thumb: bool)

  function LastPart(s: string, n: nat): string {
    if |s| > n then s[|s| - n..] else s
  }

  function ThumbUrl(id: string): string {
    "/media/thumb/" + id
  }

  /** A media entry as the disk bears it out: only id and name are the guest's. */
  function Checked(env: Env, m: Media, file: Upload): Media {
    Media(m.id, env.mediaType(m.id), LastPart(env.baseName(m.name), 120), file.size,
          if file.thumb then ThumbUrl(m.id) else "")
  }

  /** The media of a post whose files are there. */
  function Verified(env: Env, asked: seq<Media>, disk: map<string, Upload>): seq<Media> {
    if asked == [] then []
    else
      var n := |asked| - 1;
      Verified(env, asked[..n], disk) + if asked[n].id in disk then [Checked(env, asked[n], disk[asked[n].id])] else []
  }

  /** No entry survives that is not on disk, and none names a type, size or thumbnail of the
      guest's choosing. */
  lemma {:induction false} VerifiedIsOnDisk(env: Env, asked: seq<Media>, disk: map<string, Upload>, m: Media)
    ensures m in Verified(env, asked, disk)
            <==> exists a :: a in asked && a.id in disk && m == Checked(env, a, disk[a.id])
  {
    if asked != [] {
      var n := |asked| - 1;
      VerifiedIsOnDisk(env, asked[..n], disk, m);
      assert asked == asked[..n] + [asked[n]];
    }
  }

  lemma ThumbsRecorded(w: Wall, mediaId: string, thumb: string, t: int, next: Wall)
    requires Sane(w) && SomeNeedsThumb(w.posts, mediaId, thumb) && t > w.lastActivity
    requires next == w.(posts := LiveThumbs(w.posts, mediaId, thumb, t), lastActivity := t)
    ensures Sane(next) && EventStore.Wrote(w, ThumbLine(mediaId, thumb, t), next)
  {
    ThumbsKeepSane(w, mediaId, thumb, t);
  }

  class Store {
    const env: Env
    var posts: seq<Post>
    var lastActivity: int
    var current: Option<Track>
    var recent: seq<Track>
    var setlist: seq<Track>
    var journal: seq<Line>

    ghost function Value(): Wall
      reads this
    {
      Wall(posts, lastActivity, current, recent, setlist)
    }

    ghost predicate Valid()
      reads this
    {
      Sane(Value())
    }

    /** One line went to the journal and the store now holds exactly its effect. */
    twostate predicate Recorded(l: Line)
      reads this
    {
      && journal == old(journal) + [l]
      && EventStore.Wrote(old(Value()), l, Value())
    }

    twostate predicate Untouched()
      reads this
    {
      journal == old(journal) && Value() == old(Value())
    }

    /** Opening a party replays its journal. */
    constructor (env: Env, lines: seq<Line>)
      ensures Valid() && this.env == env && journal == lines && Value() == Replay(env, lines)
    {
      var w := EMPTY;
      for i := 0 to |lines|
        invariant w == Loop(env, lines[..i])
      {
        LoopSnoc(env, lines[..i], lines[i]);
        assert lines[..i + 1] == lines[..i] + [lines[i]];
        w := Replayed(env, w, lines[i]);
      }
      assert lines[..|lines|] == lines;
      var last := 0;
      for i := 0 to |w.posts|
        invariant last == MaxAct(w.posts[..i])
      {
        assert w.posts[..i + 1][..i] == w.posts[..i];
        if w.posts[i].act > last {
          last := w.posts[i].act;
        }
      }
      assert w.posts[..|w.posts|] == w.posts;
      ReplayIsSane(env, lines);
      this.env := env;
      posts, lastActivity, current, recent, setlist := w.posts, last, w.current, w.recent, w.setlist;
      journal := lines;
    }

    method NextActivity(preferred: int) returns (token: int)
      modifies this`lastActivity
      ensures token == lastActivity == NextToken(old(lastActivity), preferred)
    {
      token := preferred;
      if token <= lastActivity {
        token := lastActivity + 1;
      }
      lastActivity := token;
    }

    /** The post a mutation may act on: the last one stored under `id`, if not deleted. */
    method FindPost(id: string) returns (i: int)
      ensures i == LiveIndex(Value(), id)
    {
      i := |posts| - 1;
      assert posts[..i + 1] == posts;
      while i >= 0 && posts[i].id != id
        invariant -1 <= i < |posts|
        invariant IndexOfPost(posts, id) == IndexOfPost(posts[..i + 1], id)
      {
        assert posts[..i + 1][..i] == posts[..i];
        i := i - 1;
      }
      if i >= 0 {
        assert posts[..i + 1][i].id == id;
        if posts[i].deleted {
          i := -1;
        }
      }
    }

    method FindComment(comments: seq<Comment>, id: string) returns (i: int)
      ensures i == IndexOfComment(comments, id)
    {
      i := 0;
      while i < |comments| && comments[i].id != id
        invariant 0 <= i <= |comments|
        invariant IndexOfComment(comments, id) ==
                  (var k := IndexOfComment(comments[i..], id); if k < 0 then -1 else k + i)
      {
        assert comments[i..][1..] == comments[i + 1..];
        i := i + 1;
      }
      if i == |comments| {
        i := -1;
      }
    }

    method AddPost(id: string, cid: string, author: string, emoji: string, text: string, asked: seq<Media>,
                   disk: map<string, Upload>, dj: bool, now: int) returns (stored: bool, ghost l: Line)
      requires Valid()
      modifies this
      ensures Valid()
      ensures stored <==> Trim(text) != "" || asked != []
      ensures !stored ==> Untouched()
      ensures stored ==> Recorded(l)
      ensures stored ==>
                var t := NextToken(old(lastActivity), now);
                l == PostLine(cid, Post(id, now, t, "", Clip(author, 40), Clip(emoji, 8), Clip(Trim(text), 2000),
                                        Verified(env, asked, disk), dj, Approved, [], map[], false), t)
    {
      l := IgnoredLine;
      var body := Clip(Trim(text), MAX_TEXT);
      if body == "" && asked == [] {
        return false, l;
      }
      var verified := VerifyMedia(asked, disk);
      var p := Post(id, now, 0, cid, Clip(author, 40), Clip(emoji, 8), body,
                    verified, dj, Approved, [], map[], false);
      l := StorePost(p, now);
      stored := true;
    }

    method VerifyMedia(asked: seq<Media>, disk: map<string, Upload>) returns (verified: seq<Media>)
      ensures verified == Verified(env, asked, disk)
    {
      verified := [];
      for i := 0 to |asked|
        invariant verified == Verified(env, asked[..i], disk)
      {
        assert asked[..i + 1][..i] == asked[..i];
        var m := asked[i];
        if m.id in disk {
          var name := env.baseName(m.name);
          if |name| > 120 {
            name := name[|name| - 120..];
          }
          var vm := Media(m.id, env.mediaType(m.id), name, disk[m.id].size, "");
          if disk[m.id].thumb {
            vm := vm.(thumb := ThumbUrl(m.id));
          }
          verified := verified + [vm];
        }
      }
      assert asked[..|asked|] == asked;
    }

    /** Stamps, journals and stores a new post; the client id travels beside the object. */
    method StorePost(draft: Post, now: int) returns (ghost l: Line)
      requires Valid() && !draft.deleted && draft.state == Approved && draft.comments == []
      modifies this
      ensures Valid() && Recorded(l)
      ensures var t := NextToken(old(lastActivity), now); l == PostLine(draft.cid, draft.(cid := "", act := t), t)
    {
      var token := NextActivity(now);
      var p := draft.(act := token);
      l := PostLine(p.cid, p.(cid := ""), token);
      AppendKeepsSane(old(Value()), p);
      journal := journal + [PostLine(p.cid, p.(cid := ""), token)];
      posts := posts + [p];
    }

    method AddComment(postId: string, id: string, cid: string, author: string, emoji: string, text: string,
                      dj: bool, now: int) returns (stored: bool, ghost l: Line)
      requires Valid()
      modifies this
      ensures Valid()
      ensures stored <==> Trim(text) != "" && LiveIndex(old(Value()), postId) >= 0
                          && |old(posts)[LiveIndex(old(Value()), postId)].comments| < 500
      ensures !stored ==> Untouched()
      ensures stored ==> Recorded(l)
      ensures stored ==>
                l == CommentLine(postId, cid, Comment(id, now, "", Clip(author, 40), Clip(emoji, 8),
                                                      Clip(Trim(text), 1000), Approved, dj),
                                 NextToken(old(lastActivity), now))
    {
      l := IgnoredLine;
      if Trim(text) == "" {
        return false, l;
      }
      var i := FindPost(postId);
      if i < 0 || |posts[i].comments| >= MAX_COMMENTS {
        return false, l;
      }
      var token := NextActivity(now);
      var c := Comment(id, now, cid, Clip(author, 40), Clip(emoji, 8), Clip(Trim(text), MAX_COMMENT), Approved, dj);
      l := CommentLine(postId, cid, c.(cid := ""), token);
      MutationKeepsSane(old(Value()), l);
      journal := journal + [CommentLine(postId, cid, c.(cid := ""), token)];
      posts := posts[i := posts[i].(comments := posts[i].comments + [c], act := token)];
      stored := true;
    }

    method AddPostReaction(postId: string, reaction: string, now: int) returns (stored: bool)
      requires Valid()
      modifies this
      ensures Valid()
      ensures stored <==> ValidReaction(Trim(reaction)) && LiveIndex(old(Value()), postId) >= 0
      ensures !stored ==> Untouched()
      ensures stored ==> Recorded(ReactionLine(postId, Trim(reaction), NextToken(old(lastActivity), now)))
      ensures stored ==>
                var i, kind := LiveIndex(old(Value()), postId), Trim(reaction);
                && |posts| == |old(posts)| && kind in posts[i].reactions
                && posts[i].reactions[kind] ==
                   1 + if kind in old(posts)[i].reactions then old(posts)[i].reactions[kind] else 0
    {
      var kind := Trim(reaction);
      if !ValidReaction(kind) {
        return false;
      }
      var i := FindPost(postId);
      if i < 0 {
        return false;
      }
      var t := NextActivity(now);
      MutationKeepsSane(old(Value()), ReactionLine(postId, kind, t));
      journal := journal + [ReactionLine(postId, kind, t)];
      var count := if kind in posts[i].reactions then posts[i].reactions[kind] else 0;
      posts := posts[i := posts[i].(reactions := posts[i].reactions[kind := count + 1], act := t)];
      stored := true;
    }

    method SetPostState(id: string, state: State, now: int) returns (done: bool)
      requires Valid()
      modifies this
      ensures Valid()
      ensures done <==> ValidState(state) && LiveIndex(old(Value()), id) >= 0
      ensures !done ==> Untouched()
      ensures done ==> Recorded(ModLine(id, "", state, NextToken(old(lastActivity), now)))
    {
      if !ValidState(state) {
        return false;
      }
      var i := FindPost(id);
      if i < 0 {
        return false;
      }
      var t := NextActivity(now);
      MutationKeepsSane(old(Value()), ModLine(id, "", state, t));
      journal := journal + [ModLine(id, "", state, t)];
      posts := posts[i := posts[i].(state := state, act := t)];
      done := true;
    }

    /** A comment with an empty id, which no mutation creates, would be journalled as a
        change to its post; for every other the line records what was done. */
    method SetCommentState(id: string, commentId: string, state: State, now: int) returns (done: bool)
      requires Valid()
      modifies this
      ensures Valid()
      ensures done <==> ValidState(state) && LiveIndex(old(Value()), id) >= 0
                        && IndexOfComment(old(posts)[LiveIndex(old(Value()), id)].comments, commentId) >= 0
      ensures !done ==> Untouched()
      ensures done && commentId != "" ==> Recorded(ModLine(id, commentId, state, NextToken(old(lastActivity), now)))
      ensures done ==>
                var i, t := LiveIndex(old(Value()), id), NextToken(old(lastActivity), now);
                && journal == old(journal) + [ModLine(id, commentId, state, t)]
                && Value() == Touched(old(Value()), i, CommentModerated(old(posts)[i], commentId, state), t)
    {
      if !ValidState(state) {
        return false;
      }
      var i := FindPost(id);
      if i < 0 {
        return false;
      }
      var k := FindComment(posts[i].comments, commentId);
      if k < 0 {
        return false;
      }
      var t := NextActivity(now);
      var comments := posts[i].comments;
      var p := posts[i].(comments := comments[k := comments[k].(state := state)]);
      TouchKeepsSane(old(Value()), i, p, t);
      journal := journal + [ModLine(id, commentId, state, t)];
      posts := posts[i := p.(act := t)];
      done := true;
    }

    method DeleteComment(id: string, commentId: string, now: int) returns (done: bool)
      requires Valid()
      modifies this
      ensures Valid()
      ensures done <==> LiveIndex(old(Value()), id) >= 0
                        && IndexOfComment(old(posts)[LiveIndex(old(Value()), id)].comments, commentId) >= 0
      ensures !done ==> Untouched()
      ensures done ==> Recorded(CommentDeleteLine(id, commentId, NextToken(old(lastActivity), now)))
    {
      var i := FindPost(id);
      if i < 0 {
        return false;
      }
      var k := FindComment(posts[i].comments, commentId);
      if k < 0 {
        return false;
      }
      var t := NextActivity(now);
      MutationKeepsSane(old(Value()), CommentDeleteLine(id, commentId, t));
      journal := journal + [CommentDeleteLine(id, commentId, t)];
      var comments := posts[i].comments;
      posts := posts[i := posts[i].(comments := comments[..k] + comments[k + 1..], act := t)];
      done := true;
    }

    method Delete(id: string, now: int) returns (done: bool)
      requires Valid()
      modifies this
      ensures Valid()
      ensures done <==> LiveIndex(old(Value()), id) >= 0
      ensures !done ==> Untouched()
      ensures done ==> Recorded(DeleteLine(id, NextToken(old(lastActivity), now)))
    {
      var i := FindPost(id);
      if i < 0 {
        return false;
      }
      var t := NextActivity(now);
      MutationKeepsSane(old(Value()), DeleteLine(id, t));
      journal := journal + [DeleteLine(id, t)];
      posts := posts[i := posts[i].(act := t, deleted := true)];
      done := true;
    }

    /** `made` says whether the thumbnail file exists; without it the call is refused. */
    method SetMediaThumb(mediaId: string, made: bool, now: int) returns (ok: bool, hit: bool)
      requires Valid()
      modifies this
      ensures Valid()
      ensures ok == made && (hit <==> made && SomeNeedsThumb(old(posts), mediaId, ThumbUrl(mediaId)))
      ensures !hit ==> Untouched()
      ensures hit ==> Recorded(ThumbLine(mediaId, ThumbUrl(mediaId), NextToken(old(lastActivity), now)))
    {
      if !made {
        return false, false;
      }
      ok := true;
      hit := AnyNeedsThumb(mediaId, ThumbUrl(mediaId));
      if hit {
        RecordThumb(mediaId, ThumbUrl(mediaId), now);
      }
    }

    method RecordThumb(mediaId: string, thumb: string, now: int)
      requires Valid() && SomeNeedsThumb(posts, mediaId, thumb)
      modifies this
      ensures Valid() && Recorded(ThumbLine(mediaId, thumb, NextToken(old(lastActivity), now)))
    {
      var t := NextActivity(now);
      ghost var w := old(Value());
      journal := journal + [ThumbLine(mediaId, thumb, t)];
      ApplyThumbs(mediaId, thumb, t);
      ThumbsRecorded(w, mediaId, thumb, t, Value());
    }

    method AnyNeedsThumb(mediaId: string, thumb: string) returns (hit: bool)
      ensures hit <==> SomeNeedsThumb(posts, mediaId, thumb)
    {
      hit := false;
      for i := 0 to |posts|
        invariant hit <==> exists k :: 0 <= k < i && NeedsThumb(posts[k], mediaId, thumb)
      {
        var needs := NeedsThumb(posts[i], mediaId, thumb);
        hit := hit || needs;
      }
    }

    method ApplyThumbs(mediaId: string, thumb: string, t: int)
      modifies this`posts
      ensures posts == LiveThumbs(old(posts), mediaId, thumb, t)
    {
      ghost var before, done := posts, LiveThumbs(posts, mediaId, thumb, t);
      for i := 0 to |posts|
        invariant |posts| == |before| == |done|
        invariant posts[..i] == done[..i] && posts[i..] == before[i..]
      {
        assert posts[i] == posts[i..][0] == before[i..][0] == before[i];
        posts := UpdateThumb(posts, i, mediaId, thumb, t);
        assert posts[..i + 1] == done[..i] + [done[i]];
      }
      assert posts == posts[..|posts|] && done == done[..|posts|];
    }

    method UpdateThumb(posts: seq<Post>, i: nat, mediaId: string, thumb: string, t: int) returns (r: seq<Post>)
      requires i < |posts|
      ensures |r| == |posts| && r[..i] == posts[..i] && r[i + 1..] == posts[i + 1..]
      ensures r[i] == LiveThumb(posts[i], mediaId, thumb, t)
    {
      r := posts;
      if NeedsThumb(posts[i], mediaId, thumb) {
        r := posts[i := posts[i].(media := ThumbMedia(posts[i].media, mediaId, thumb), act := t)];
      }
    }

    // -------------------------------------------------------------- the current track

    method RotateTrack()
      modifies this`recent, this`setlist
      ensures Value() == Rotate(old(Value()))
    {
      match current
      case Some(t) =>
        if t.title != "" {
          recent := [t] + recent;
          setlist := setlist + [t];
          if |recent| > TRACK_HISTORY {
            recent := recent[..TRACK_HISTORY];
          }
        }
      case None =>
    }

    method StoreTrack(t: Track)
      requires Valid() && t.title != "" && !IsSpace(t.title[0])
      modifies this
      ensures Valid() && Recorded(TrackLine(t))
    {
      MutationKeepsSane(Value(), TrackLine(t));
      journal := journal + [TrackLine(t)];
      RotateTrack();
      current := Some(t);
    }

    method SetCurrentTrack(title: string, artist: string, note: string, now: int) returns (done: bool, t: Track)
      requires Valid()
      modifies this
      ensures Valid()
      ensures t == CleanTrack(env, Track(title, artist, "", note, "", now))
      ensures done <==> Trim(title) != ""
      ensures !done ==> Untouched()
      ensures done ==> Recorded(TrackLine(t))
    {
      t := CleanTrack(env, Track(title, artist, "", note, "", now));
      done := t.title != "";
      TrimEnds(title);
      if done {
        StoreTrack(t);
      }
    }

    /** A repeated catalogue match is not a new track. */
    method SetRecognizedTrack(matchId: string, title: string, artist: string, artwork: string, now: int)
      returns (changed: bool, t: Track)
      requires Valid()
      modifies this
      ensures Valid()
      ensures t == CleanTrack(env, Track(title, artist, artwork, "", Trim(matchId), now))
      ensures changed <==>
                Trim(title) != ""
                && !(old(current).Some? && t.matchId != "" && old(current).value.matchId == t.matchId)
      ensures !changed ==> Untouched()
      ensures changed ==> Recorded(TrackLine(t))
    {
      t := CleanTrack(env, Track(title, artist, artwork, "", Trim(matchId), now));
      changed := t.title != "" && !(current.Some? && t.matchId != "" && current.value.matchId == t.matchId);
      TrimEnds(title);
      if changed {
        StoreTrack(t);
      }
    }

    method ClearCurrentTrack() returns (cleared: bool)
      requires Valid()
      modifies this
      ensures Valid()
      ensures cleared <==> old(current).Some?
      ensures !cleared ==> Untouched()
      ensures cleared ==> Recorded(ClearLine)
    {
      if current.None? || current.value.title == "" {
        return false;
      }
      MutationKeepsSane(Value(), ClearLine);
      journal := journal + [ClearLine];
      RotateTrack();
      current := None;
      cleared := true;
    }

    method DropTrack(title: string, artist: string) returns (dropped: bool, want: Track)
      requires Valid()
      modifies this
      ensures Valid()
      ensures want == CleanTrack(env, Track(title, artist, "", "", "", 0))
      ensures dropped ==> Recorded(DropLine(want)) && Value() != old(Value())
      ensures !dropped ==> Untouched() && (Trim(title) != "" ==> Dropped(Value(), want) == Value())
    {
      want := CleanTrack(env, Track(title, artist, "", "", "", 0));
      if want.title == "" {
        return false, want;
      }
      var w := Dropped(Wall([], 0, current, recent, setlist), want);
      if w.current == current && w.recent == recent && w.setlist == setlist {
        return false, want;
      }
      MutationKeepsSane(Value(), DropLine(want));
      journal := journal + [DropLine(want)];
      current, recent, setlist := w.current, w.recent, w.setlist;
      dropped := true;
    }
  }
}

/** What each journal line changes on the wall, read off the fields, and what runs of lines
add up to: reactions are counted, the last moderation stands, played tracks are all kept. */
module WallEffects {
  import opened Text
  import opened EventStore
  import opened EventReplay
  import opened FeedSync

  // ---------------------------------------------------------------- which post

  /** Post i is the last one stored under `id`. */
  predicate LastWith(posts: seq<Post>, id: string, i: nat) {
    i < |posts| && posts[i].id == id && forall j :: i < j < |posts| ==> posts[j].id != id
  }

  lemma {:induction false} LastIsFound(posts: seq<Post>, id: string, i: nat)
    requires LastWith(posts, id, i)
    ensures IndexOfPost(posts, id) == i
  {
    if i < |posts| - 1 {
      LastIsFound(posts[..|posts| - 1], id, i);
    }
  }

  lemma {:induction false} FoundIsLast(posts: seq<Post>, id: string)
    ensures var i := IndexOfPost(posts, id);
            if i < 0 then forall j :: 0 <= j < |posts| ==> posts[j].id != id else LastWith(posts, id, i)
  {
    if posts != [] {
      FoundIsLast(posts[..|posts| - 1], id);
    }
  }

  /** A post can be acted on exactly when the last one under its id is there and not deleted. */
  lemma ActsOnIff(w: Wall, id: string)
    ensures LiveIndex(w, id) >= 0 <==> exists i: nat :: LastWith(w.posts, id, i) && !w.posts[i].deleted
    ensures LiveIndex(w, id) >= 0
            ==> LastWith(w.posts, id, LiveIndex(w, id)) && !w.posts[LiveIndex(w, id)].deleted
  {
    FoundIsLast(w.posts, id);
    if i: nat :| LastWith(w.posts, id, i) && !w.posts[i].deleted {
      LastIsFound(w.posts, id, i);
    }
  }

  /** The post a line is about. */
  function On(l: Line): Option<string> {
    match l
    case DeleteLine(id, _) => Some(id)
    case CommentLine(id, _, _, _) => Some(id)
    case CommentDeleteLine(id, _, _) => Some(id)
    case ReactionLine(id, _, _) => Some(id)
    case ModLine(id, _, _, _) => Some(id)
    case _ => None
  }

  lemma OnIsLive(w: Wall, l: Line, i: nat)
    requires Writable(w, l) && On(l).Some? && LastWith(w.posts, On(l).value, i)
    ensures LiveIndex(w, On(l).value) == i && !w.posts[i].deleted
  {
    LastIsFound(w.posts, On(l).value, i);
  }

  // ---------------------------------------------------------------- what one line changes

  /** Only post i differs, and the clock. */
  predicate OnlyPost(w: Wall, next: Wall, i: nat, p: Post, ts: int)
    requires i < |w.posts|
  {
    && |next.posts| == |w.posts| && next.posts[i] == p.(act := ts) && next.lastActivity == ts
    && (forall j :: 0 <= j < |w.posts| && j != i ==> next.posts[j] == w.posts[j])
    && next.current == w.current && next.recent == w.recent && next.setlist == w.setlist
  }

  lemma DeleteEffect(w: Wall, id: string, ts: int, next: Wall, i: nat)
    requires Wrote(w, DeleteLine(id, ts), next) && LastWith(w.posts, id, i)
    ensures !w.posts[i].deleted && OnlyPost(w, next, i, w.posts[i].(deleted := true), ts)
  {
    OnIsLive(w, DeleteLine(id, ts), i);
  }

  lemma CommentEffect(w: Wall, id: string, cid: string, c: Comment, ts: int, next: Wall, i: nat)
    requires Wrote(w, CommentLine(id, cid, c, ts), next) && LastWith(w.posts, id, i)
    ensures !w.posts[i].deleted
    ensures OnlyPost(w, next, i, w.posts[i].(comments := w.posts[i].comments + [c.(cid := cid)]), ts)
  {
    OnIsLive(w, CommentLine(id, cid, c, ts), i);
  }

  /** Comment k is the first one with this id. */
  predicate FirstWith(comments: seq<Comment>, id: string, k: nat) {
    k < |comments| && comments[k].id == id && forall j :: 0 <= j < k ==> comments[j].id != id
  }

  predicate NoComment(comments: seq<Comment>, id: string) {
    forall j :: 0 <= j < |comments| ==> comments[j].id != id
  }

  lemma {:induction false} FirstIsFound(comments: seq<Comment>, id: string, k: nat)
    requires FirstWith(comments, id, k)
    ensures IndexOfComment(comments, id) == k
  {
    if k > 0 {
      FirstIsFound(comments[1..], id, k - 1);
    }
  }

  lemma {:induction false} NoneIsFound(comments: seq<Comment>, id: string)
    requires NoComment(comments, id)
    ensures IndexOfComment(comments, id) < 0
  {
    if comments != [] {
      NoneIsFound(comments[1..], id);
    }
  }

  /** The first comment with the id goes, and every other stays in its order. */
  lemma CommentDeleteEffect(w: Wall, id: string, commentId: string, ts: int, next: Wall, i: nat, k: nat)
    requires Wrote(w, CommentDeleteLine(id, commentId, ts), next) && LastWith(w.posts, id, i)
    requires FirstWith(w.posts[i].comments, commentId, k)
    ensures !w.posts[i].deleted
    ensures var c := w.posts[i].comments;
            OnlyPost(w, next, i, w.posts[i].(comments := c[..k] + c[k + 1..]), ts)
  {
    OnIsLive(w, CommentDeleteLine(id, commentId, ts), i);
    FirstIsFound(w.posts[i].comments, commentId, k);
  }

  lemma CommentDeleteMisses(w: Wall, id: string, commentId: string, ts: int, next: Wall, i: nat)
    requires Wrote(w, CommentDeleteLine(id, commentId, ts), next) && LastWith(w.posts, id, i)
    requires NoComment(w.posts[i].comments, commentId)
    ensures OnlyPost(w, next, i, w.posts[i], ts)
  {
    OnIsLive(w, CommentDeleteLine(id, commentId, ts), i);
    NoneIsFound(w.posts[i].comments, commentId);
  }

  /** How often a post was given reaction `r`. */
  function Times(p: Post, r: string): int {
    if r in p.reactions then p.reactions[r] else 0
  }

  /** One more of the reaction sent, no more of any other, nothing else changed. */
  lemma ReactionEffect(w: Wall, id: string, r: string, ts: int, next: Wall, i: nat)
    requires Wrote(w, ReactionLine(id, r, ts), next) && LastWith(w.posts, id, i)
    ensures !w.posts[i].deleted && i < |next.posts|
    ensures Times(next.posts[i], r) == Times(w.posts[i], r) + 1
    ensures forall s :: s != r ==> Times(next.posts[i], s) == Times(w.posts[i], s)
    ensures next.posts[i].reactions.Keys == w.posts[i].reactions.Keys + {r}
    ensures OnlyPost(w, next, i, w.posts[i].(reactions := next.posts[i].reactions), ts)
  {
    OnIsLive(w, ReactionLine(id, r, ts), i);
  }

  /** A moderation without a comment id sets the post's state. */
  lemma PostModEffect(w: Wall, id: string, state: State, ts: int, next: Wall, i: nat)
    requires Wrote(w, ModLine(id, "", state, ts), next) && LastWith(w.posts, id, i)
    ensures !w.posts[i].deleted && OnlyPost(w, next, i, w.posts[i].(state := state), ts)
  {
    OnIsLive(w, ModLine(id, "", state, ts), i);
  }

  /** One with a comment id sets the state of the first such comment. */
  lemma CommentModEffect(w: Wall, id: string, commentId: string, state: State, ts: int, next: Wall, i: nat, k: nat)
    requires Wrote(w, ModLine(id, commentId, state, ts), next) && LastWith(w.posts, id, i)
    requires commentId != "" && FirstWith(w.posts[i].comments, commentId, k)
    ensures !w.posts[i].deleted
    ensures var c := w.posts[i].comments;
            OnlyPost(w, next, i, w.posts[i].(comments := c[..k] + [c[k].(state := state)] + c[k + 1..]), ts)
  {
    OnIsLive(w, ModLine(id, commentId, state, ts), i);
    var c := w.posts[i].comments;
    FirstIsFound(c, commentId, k);
    assert c[k := c[k].(state := state)] == c[..k] + [c[k].(state := state)] + c[k + 1..];
  }

  lemma CommentModMisses(w: Wall, id: string, commentId: string, state: State, ts: int, next: Wall, i: nat)
    requires Wrote(w, ModLine(id, commentId, state, ts), next) && LastWith(w.posts, id, i)
    requires commentId != "" && NoComment(w.posts[i].comments, commentId)
    ensures OnlyPost(w, next, i, w.posts[i], ts)
  {
    OnIsLive(w, ModLine(id, commentId, state, ts), i);
    NoneIsFound(w.posts[i].comments, commentId);
  }

  lemma PostEffect(w: Wall, cid: string, p: Post, ts: int, next: Wall)
    requires Wrote(w, PostLine(cid, p, ts), next)
    ensures next == w.(posts := w.posts + [p.(cid := cid)], lastActivity := ts) && p.act == ts
  {
  }

  /** A thumbnail goes to every live post that carries the media without it, to each of its
      entries, and to no other post. */
  lemma ThumbEffect(w: Wall, mediaId: string, thumb: string, ts: int, next: Wall, i: nat)
    requires Wrote(w, ThumbLine(mediaId, thumb, ts), next) && i < |w.posts|
    ensures next.lastActivity == ts && |next.posts| == |w.posts|
    ensures next.current == w.current && next.recent == w.recent && next.setlist == w.setlist
    ensures var p, q := w.posts[i], next.posts[i];
            if p.deleted || (forall m :: m in p.media && m.id == mediaId ==> m.thumb == thumb) then q == p
            else
              && q == p.(media := q.media, act := ts) && |q.media| == |p.media|
              && forall k :: 0 <= k < |p.media| ==>
                               && (p.media[k].id == mediaId ==> q.media[k] == p.media[k].(thumb := thumb))
                               && (p.media[k].id != mediaId ==> q.media[k] == p.media[k])
  {
    var p := w.posts[i];
    assert forall k :: 0 <= k < |p.media| ==> p.media[k] in p.media;
  }

  // ---------------------------------------------------------------- tracks

  /** The tracks that are not this song, in their order. */
  function Others(tracks: seq<Track>, song: Track): seq<Track> {
    if tracks == [] then []
    else
      var n := |tracks| - 1;
      var last := tracks[n];
      Others(tracks[..n], song) + if last.title == song.title && last.artist == song.artist then [] else [last]
  }

  lemma {:induction false} WithoutIsOthers(tracks: seq<Track>, song: Track)
    ensures WithoutTrack(tracks, song) == Others(tracks, song)
  {
    if tracks != [] {
      var n := |tracks| - 1;
      var p := (t: Track) => SameTrack(t, song);
      WithoutIsOthers(tracks[..n], song);
      DroppingConcat(p, tracks[..n], [tracks[n]]);
      assert tracks == tracks[..n] + [tracks[n]];
      assert Dropping(p, [tracks[n]]) == if p(tracks[n]) then [] else [tracks[n]];
    }
  }

  lemma {:induction false} OthersConcat(a: seq<Track>, b: seq<Track>, song: Track)
    ensures Others(a + b, song) == Others(a, song) + Others(b, song)
  {
    if b == [] {
      assert a + b == a;
    } else {
      var n := |b| - 1;
      OthersConcat(a, b[..n], song);
      assert (a + b)[..|a + b| - 1] == a + b[..n];
    }
  }

  predicate SameSong(t: Track, song: Track) {
    t.title == song.title && t.artist == song.artist
  }

  /** Everything played and not dropped, the current track last. */
  function Played(w: Wall): seq<Track> {
    w.setlist + if w.current.Some? && w.current.value.title != "" then [w.current.value] else []
  }

  /** The same, told by the lines alone. */
  function PlayedBy(played: seq<Track>, lines: seq<Line>): seq<Track> {
    if lines == [] then played
    else
      var n := |lines| - 1;
      var before := PlayedBy(played, lines[..n]);
      match lines[n]
      case TrackLine(t) => before + [t]
      case DropLine(t) => Others(before, t)
      case _ => before
  }

  /** A new track, or none, takes the current one's place; the current one is the newest of the
      history, whose oldest entry beyond fifteen goes. */
  lemma TrackEffect(w: Wall, l: Line, next: Wall)
    requires Wrote(w, l, next) && (l.TrackLine? || l.ClearLine?)
    ensures next.posts == w.posts && next.lastActivity == w.lastActivity
    ensures next.current == if l.TrackLine? then Some(l.track) else None
    ensures if w.current.Some? && w.current.value.title != "" then
              && next.setlist == w.setlist + [w.current.value]
              && |next.recent| == Least(|w.recent| + 1, 15) && next.recent <= [w.current.value] + w.recent
            else next.setlist == w.setlist && next.recent == w.recent
  {
  }

  function Least(a: int, b: int): int {
    if a < b then a else b
  }

  /** A dropped song leaves the history, the setlist and the current place. */
  lemma DropEffect(w: Wall, t: Track, next: Wall)
    requires Wrote(w, DropLine(t), next)
    ensures next.posts == w.posts && next.lastActivity == w.lastActivity
    ensures next.current == if w.current.Some? && SameSong(w.current.value, t) then None else w.current
    ensures next.recent == Others(w.recent, t) && next.setlist == Others(w.setlist, t)
  {
    WithoutIsOthers(w.recent, t);
    WithoutIsOthers(w.setlist, t);
  }

  lemma PlayedDrop(w: Wall, t: Track, next: Wall)
    requires Wrote(w, DropLine(t), next)
    ensures Played(next) == Others(Played(w), t)
  {
    DropEffect(w, t, next);
    if w.current.Some? && w.current.value.title != "" {
      OthersConcat(w.setlist, [w.current.value], t);
      OthersOne(w.current.value, t);
    } else {
      assert Played(w) == w.setlist && Played(next) == next.setlist;
    }
  }

  lemma OthersOne(x: Track, song: Track)
    ensures Others([x], song) == if SameSong(x, song) then [] else [x]
  {
    assert [x][..0] == [];
  }

  lemma PlayedStep(w: Wall, l: Line, next: Wall)
    requires Wrote(w, l, next)
    ensures Played(next) == match l
                            case TrackLine(t) => Played(w) + [t]
                            case DropLine(t) => Others(Played(w), t)
                            case _ => Played(w)
  {
    match l
    case DropLine(t) => PlayedDrop(w, t, next);
    case TrackLine(_) => TrackEffect(w, l, next);
    case ClearLine => TrackEffect(w, l, next);
    case _ => NotATrack(w, l, next);
  }

  lemma NotATrack(w: Wall, l: Line, next: Wall)
    requires Wrote(w, l, next) && !l.TrackLine? && !l.ClearLine? && !l.DropLine?
    ensures next.current == w.current && next.recent == w.recent && next.setlist == w.setlist
  {
  }

  /** No track is lost or played twice: over any run, setlist and current track together are
      those before and every one set since, less the songs dropped after it. */
  lemma {:induction false} EveryTrackIsKept(ws: seq<Wall>, lines: seq<Line>, i: nat, j: nat)
    requires Ran(ws, lines) && i <= j <= |lines|
    ensures Played(ws[j]) == PlayedBy(Played(ws[i]), lines[i..j])
  {
    if i < j {
      var n := j - 1;
      EveryTrackIsKept(ws, lines, i, n);
      WroteAt(ws, lines, n);
      PlayedStep(ws[n], lines[n], ws[n + 1]);
      assert lines[i..j][..n - i] == lines[i..n] && lines[i..j][n - i] == lines[n];
    } else {
      assert lines[i..j] == [];
    }
  }

  // ---------------------------------------------------------------- one post over a run

  /** How many of the lines give the post this reaction. */
  function Given(lines: seq<Line>, id: string, r: string): nat {
    if lines == [] then 0
    else
      var l := lines[|lines| - 1];
      Given(lines[..|lines| - 1], id, r) + if l.ReactionLine? && l.id == id && l.reaction == r then 1 else 0
  }

  /** The state the lines leave a post in. */
  function StateBy(state: State, lines: seq<Line>, id: string): State {
    if lines == [] then state
    else
      var l := lines[|lines| - 1];
      if l.ModLine? && l.id == id && l.commentId == "" then l.state else StateBy(state, lines[..|lines| - 1], id)
  }

  predicate DeletedBy(lines: seq<Line>, id: string) {
    exists k :: 0 <= k < |lines| && lines[k].DeleteLine? && lines[k].id == id
  }

  /** What a guest can see of a post's past. */
  datatype Tally = Tally(times: int, state: State, deleted: bool)

  function TallyOf(p: Post, r: string): Tally {
    Tally(Times(p, r), p.state, p.deleted)
  }

  function TallyBy(t: Tally, l: Line, id: string, r: string): Tally {
    match l
    case ReactionLine(on, s, _) => if on == id && s == r then t.(times := t.times + 1) else t
    case ModLine(on, commentId, state, _) => if on == id && commentId == "" then t.(state := state) else t
    case DeleteLine(on, _) => if on == id then t.(deleted := true) else t
    case _ => t
  }

  /** A line about another post, or about none, leaves the tally alone. */
  lemma OtherTally(w: Wall, l: Line, next: Wall, i: nat, r: string)
    requires Wrote(w, l, next) && i < |w.posts| && On(l) != Some(w.posts[i].id)
    ensures i < |next.posts| && next.posts[i].id == w.posts[i].id
    ensures TallyOf(next.posts[i], r) == TallyOf(w.posts[i], r)
  {
    if On(l).Some? {
      FoundIsLast(w.posts, On(l).value);
    }
  }

  lemma OwnTally(w: Wall, l: Line, next: Wall, i: nat, r: string)
    requires Wrote(w, l, next) && i < |w.posts| && On(l) == Some(w.posts[i].id)
    requires LastWith(w.posts, w.posts[i].id, i)
    ensures i < |next.posts| && next.posts[i].id == w.posts[i].id
    ensures TallyOf(next.posts[i], r) == TallyBy(TallyOf(w.posts[i], r), l, w.posts[i].id, r)
  {
    OnIsLive(w, l, i);
  }

  lemma TallyStep(w: Wall, l: Line, next: Wall, i: nat, r: string)
    requires Wrote(w, l, next) && i < |w.posts| && LastWith(w.posts, w.posts[i].id, i)
    ensures i < |next.posts| && next.posts[i].id == w.posts[i].id
    ensures TallyOf(next.posts[i], r) == TallyBy(TallyOf(w.posts[i], r), l, w.posts[i].id, r)
  {
    if On(l) == Some(w.posts[i].id) {
      OwnTally(w, l, next, i, r);
    } else {
      OtherTally(w, l, next, i, r);
    }
  }

  function Told(t: Tally, lines: seq<Line>, id: string, r: string): Tally {
    Tally(t.times + Given(lines, id, r), StateBy(t.state, lines, id), t.deleted || DeletedBy(lines, id))
  }

  lemma ToldSnoc(t: Tally, lines: seq<Line>, l: Line, id: string, r: string)
    ensures Told(t, lines + [l], id, r) == TallyBy(Told(t, lines, id, r), l, id, r)
  {
    assert (lines + [l])[..|lines|] == lines;
    if DeletedBy(lines, id) {
      var k :| 0 <= k < |lines| && lines[k].DeleteLine? && lines[k].id == id;
      assert (lines + [l])[k] == lines[k];
    }
    if l.DeleteLine? {
      assert (lines + [l])[|lines|] == l;
    }
  }

  predicate AsTold(w: Wall, lines: seq<Line>, next: Wall, at: nat, r: string)
    requires at < |w.posts|
  {
    && at < |next.posts| && next.posts[at].id == w.posts[at].id
    && TallyOf(next.posts[at], r) == Told(TallyOf(w.posts[at], r), lines, w.posts[at].id, r)
  }

  lemma AsToldStep(w: Wall, lines: seq<Line>, mid: Wall, l: Line, next: Wall, at: nat, r: string)
    requires at < |w.posts| && AsTold(w, lines, mid, at, r)
    requires Wrote(mid, l, next) && Distinct(mid.posts)
    ensures AsTold(w, lines + [l], next, at, r)
  {
    DistinctIsLast(mid.posts, at);
    TallyStep(mid, l, next, at, r);
    ToldSnoc(TallyOf(w.posts[at], r), lines, l, w.posts[at].id, r);
  }

  /** Over any run a post has been given each reaction as often as the lines say, stands in the
      state of the last moderation, and is deleted exactly when a line deleted it. */
  lemma {:induction false} PostIsAsTold(ws: seq<Wall>, lines: seq<Line>, i: nat, j: nat, at: nat, r: string)
    requires Ran(ws, lines) && i <= j <= |lines| && Sane(ws[i]) && Distinct(ws[j].posts)
    requires at < |ws[i].posts|
    ensures AsTold(ws[i], lines[i..j], ws[j], at, r)
  {
    if i < j {
      var n := j - 1;
      DistinctStep(ws, lines, i, n);
      PostIsAsTold(ws, lines, i, n, at, r);
      OneMoreTold(ws, lines, i, n, at, r);
    } else {
      NothingTold(ws[i], lines[i..j], at, r);
    }
  }

  lemma OneMoreTold(ws: seq<Wall>, lines: seq<Line>, i: nat, n: nat, at: nat, r: string)
    requires Ran(ws, lines) && i <= n < |lines| && Distinct(ws[n].posts) && at < |ws[i].posts|
    requires AsTold(ws[i], lines[i..n], ws[n], at, r)
    ensures AsTold(ws[i], lines[i..n + 1], ws[n + 1], at, r)
  {
    assert lines[i..n + 1] == lines[i..n] + [lines[n]];
    LineTold(ws, lines, ws[i], lines[i..n], n, at, r);
  }

  lemma LineTold(ws: seq<Wall>, lines: seq<Line>, w: Wall, told: seq<Line>, n: nat, at: nat, r: string)
    requires Ran(ws, lines) && n < |lines| && Distinct(ws[n].posts) && at < |w.posts|
    requires AsTold(w, told, ws[n], at, r)
    ensures AsTold(w, told + [lines[n]], ws[n + 1], at, r)
  {
    WroteAt(ws, lines, n);
    AsToldStep(w, told, ws[n], lines[n], ws[n + 1], at, r);
  }

  lemma NothingTold(w: Wall, lines: seq<Line>, at: nat, r: string)
    requires lines == [] && at < |w.posts|
    ensures AsTold(w, lines, w, at, r)
  {
  }

  lemma DistinctStep(ws: seq<Wall>, lines: seq<Line>, i: nat, n: nat)
    requires Ran(ws, lines) && i <= n < |lines| && Sane(ws[i]) && Distinct(ws[n + 1].posts)
    ensures Distinct(ws[n].posts)
  {
    RunAdvances(ws, lines, i, n);
    RunAdvances(ws, lines, n, n + 1);
    DistinctBefore(ws[n], ws[n + 1], ws[n].lastActivity);
  }

  lemma DistinctIsLast(posts: seq<Post>, at: nat)
    requires Distinct(posts) && at < |posts|
    ensures LastWith(posts, posts[at].id, at)
  {
  }

  // ---------------------------------------------------------------- any journal

  ghost predicate KnownStates(w: Wall) {
    forall p :: p in w.posts ==> Known(p.state) && forall c :: c in p.comments ==> Known(c.state)
  }

  predicate Known(s: State) {
    s == Approved || s == Hidden
  }

  /** Replay lowers no post's token, and a new post's is its line's, or for a line of an old
      version that has none, the later of the post's two times. */
  lemma ReplayNeverLowers(env: Env, w: Wall, l: Line)
    ensures |Replayed(env, w, l).posts| == |w.posts| + if l.PostLine? then 1 else 0
    ensures forall i :: 0 <= i < |w.posts| ==>
                          && Replayed(env, w, l).posts[i].act >= w.posts[i].act
                          && Replayed(env, w, l).posts[i].id == w.posts[i].id
    ensures l.PostLine? ==>
              var p := Replayed(env, w, l).posts[|w.posts|];
              && p.id == l.post.id && (l.ts > 0 ==> p.act == l.ts)
              && (l.ts <= 0 ==> p.act >= l.post.act && p.act >= l.post.ts && p.act in {l.post.act, l.post.ts})
  {
  }

  lemma TouchedStates(w: Wall, i: nat, p: Post, ts: int)
    requires KnownStates(w) && i < |w.posts| && Known(p.state) && forall c :: c in p.comments ==> Known(c.state)
    ensures KnownStates(Raised(w, i, p, ts))
  {
  }

  lemma AppendedStates(w: Wall, p: Post)
    requires KnownStates(w) && Known(p.state) && forall c :: c in p.comments ==> Known(c.state)
    ensures KnownStates(w.(posts := w.posts + [p]))
  {
  }

  lemma ThumbStates(w: Wall, mediaId: string, thumb: string, ts: int)
    requires KnownStates(w)
    ensures KnownStates(w.(posts := ReplayThumbs(w.posts, mediaId, thumb, ts)))
  {
    var posts := ReplayThumbs(w.posts, mediaId, thumb, ts);
    forall p | p in posts ensures Known(p.state) && forall c :: c in p.comments ==> Known(c.state) {
      var i :| 0 <= i < |posts| && posts[i] == p;
      assert w.posts[i] in w.posts;
    }
  }

  lemma KnownAt(w: Wall, i: nat)
    requires KnownStates(w) && i < |w.posts|
    ensures Known(w.posts[i].state) && forall c :: c in w.posts[i].comments ==> Known(c.state)
  {
    assert w.posts[i] in w.posts;
  }

  lemma ReplayedStates(env: Env, w: Wall, l: Line)
    requires KnownStates(w)
    ensures KnownStates(Replayed(env, w, l))
  {
    if On(l).Some? && IndexOfPost(w.posts, On(l).value) >= 0 {
      var i := IndexOfPost(w.posts, On(l).value);
      KnownAt(w, i);
      PostStates(env, w, l, i);
    } else if l.PostLine? {
      var p := l.post.(cid := l.cid, state := Normalize(l.post.state), comments := NormalizedComments(l.post.comments));
      AppendedStates(w, p.(act := if l.ts > 0 then l.ts else Max(p.act, p.ts)));
    } else if l.ThumbLine? {
      ThumbStates(w, l.mediaId, l.thumb, l.ts);
    }
  }

  lemma PostStates(env: Env, w: Wall, l: Line, i: nat)
    requires KnownStates(w) && On(l).Some? && i < |w.posts| && IndexOfPost(w.posts, On(l).value) == i
    requires Known(w.posts[i].state) && forall c :: c in w.posts[i].comments ==> Known(c.state)
    ensures KnownStates(Replayed(env, w, l))
  {
    var p := w.posts[i];
    match l
    case DeleteLine(_, ts) => TouchedStates(w, i, p.(deleted := true), ts);
    case CommentLine(_, cid, c, ts) =>
      var d := c.(cid := cid, state := Normalize(c.state));
      TouchedStates(w, i, p.(comments := p.comments + [d]), Max(d.ts, ts));
    case CommentDeleteLine(_, commentId, ts) =>
      TouchedStates(w, i, p.(comments := WithoutComment(p.comments, commentId)), ts);
    case ReactionLine(_, r, ts) => if ValidReaction(r) { TouchedStates(w, i, Reacted(p, r), ts); }
    case ModLine(_, commentId, state, ts) =>
      if ValidState(state) { TouchedStates(w, i, Moderated(p, commentId, state), ts); }
  }

  /** Whatever the journal holds, every post and comment it opens to is approved or hidden. */
  lemma {:induction false} LoopStates(env: Env, lines: seq<Line>)
    ensures KnownStates(Loop(env, lines))
  {
    if lines != [] {
      LoopStates(env, lines[..|lines| - 1]);
      ReplayedStates(env, Loop(env, lines[..|lines| - 1]), lines[|lines| - 1]);
    }
  }

  lemma ReplayStatesAreKnown(env: Env, lines: seq<Line>)
    ensures KnownStates(Replay(env, lines))
  {
    LoopStates(env, lines);
  }

  // ---------------------------------------------------------------- cleaning a track

  /** At most `n` characters of the trimmed text, from its start. */
  predicate Cut(raw: string, n: nat, field: string) {
    field <= Trim(raw) && |field| == Least(|Trim(raw)|, n)
  }

  /** Each field is cut from its own text, an artwork that is no https URL goes, and a track
      without a title is none. */
  lemma CleanedFields(env: Env, raw: Track)
    ensures var t := CleanTrack(env, raw);
            if Trim(raw.title) == "" then t == Track("", "", "", "", "", 0)
            else
              && Cut(raw.title, 120, t.title) && Cut(raw.artist, 120, t.artist) && Cut(raw.note, 240, t.note)
              && Cut(raw.matchId, 160, t.matchId) && t.setAt == raw.setAt
              && (t.artwork == "" || (Cut(raw.artwork, 1000, t.artwork) && env.okArtwork(t.artwork)))
              && (t.artwork == "" ==> Trim(raw.artwork) == "" || !env.okArtwork(Field(raw.artwork, 1000)))
  {
  }
}

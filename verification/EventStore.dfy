/** The party wall: an append-only journal, the live store that writes it, and the replay
that must rebuild exactly that store. */
module EventStore {
  import opened Text

  const MAX_TEXT := 2000
  const MAX_COMMENT := 1000
  const MAX_COMMENTS := 500
  const TRACK_HISTORY := 15

  // ---------------------------------------------------------------- entities

  /** A moderation state as stored; anything unknown reads as approved. */
  datatype State = Approved | Hidden | Unknown(name: string)

  datatype Media = Media(id: string, kind: string, name: string, size: int, thumb: string)

  datatype Comment = Comment(id: string, ts: int, cid: string, author: string, emoji: string,
                             text: string, state: State, dj: bool)

  datatype Post = Post(id: string, ts: int, act: int, cid: string, author: string, emoji: string,
                       text: string, media: seq<Media>, dj: bool, state: State,
                       comments: seq<Comment>, reactions: map<string, int>, deleted: bool)

  datatype Track = Track(title: string, artist: string, artwork: string, note: string, matchId: string, setAt: int)

  /** One journal record, as decoded. Client ids travel beside the object, not in it. */
  datatype Line =
    | PostLine(cid: string, post: Post, ts: int)
    | DeleteLine(id: string, ts: int)
    | CommentLine(id: string, cid: string, comment: Comment, ts: int)
    | CommentDeleteLine(id: string, commentId: string, ts: int)
    | ReactionLine(id: string, reaction: string, ts: int)
    | ModLine(id: string, commentId: string, state: State, ts: int)
    | TrackLine(track: Track)
    | ClearLine
    | DropLine(track: Track)
    | ThumbLine(mediaId: string, thumb: string, ts: int)
    | IgnoredLine

  datatype Wall = Wall(posts: seq<Post>, lastActivity: int, current: Option<Track>,
                       recent: seq<Track>, setlist: seq<Track>)

  const EMPTY := Wall([], 0, None, [], [])

  function Normalize(s: State): State {
    if s.Hidden? then Hidden else Approved
  }

  predicate ValidState(s: State) {
    s.Approved? || s.Hidden?
  }

  predicate ValidReaction(r: string) {
    || r == "\U{2764}\U{FE0F}" || r == "\U{1F525}" || r == "\U{1F602}" || r == "\U{1F389}" || r == "\U{1FAA9}"
  }

  function Max(a: int, b: int): int {
    if a < b then b else a
  }

  /** The store's logical clock: the wall clock, or one past the last token if that is behind. */
  function NextToken(last: int, now: int): int {
    Max(now, last + 1)
  }

  function Clip(s: string, n: nat): string {
    if |s| > n then s[..n] else s
  }

  /** byID: the last post stored under an id. */
  function IndexOfPost(posts: seq<Post>, id: string): (i: int)
    ensures -1 <= i < |posts|
    ensures i >= 0 ==> posts[i].id == id
  {
    if posts == [] then -1
    else if posts[|posts| - 1].id == id then |posts| - 1
    else IndexOfPost(posts[..|posts| - 1], id)
  }

  function IndexOfComment(comments: seq<Comment>, id: string): (i: int)
    ensures -1 <= i < |comments|
    ensures i >= 0 ==> comments[i].id == id
  {
    if comments == [] then -1
    else if comments[0].id == id then 0
    else var k := IndexOfComment(comments[1..], id); if k < 0 then -1 else k + 1
  }

  /** The post a guest or DJ can still act on. */
  function LiveIndex(w: Wall, id: string): (i: int)
    ensures -1 <= i < |w.posts|
  {
    var i := IndexOfPost(w.posts, id);
    if i < 0 || w.posts[i].deleted then -1 else i
  }

  // ---------------------------------------------------------------- tracks

  /** Artwork must be an https URL; the URL grammar is not modelled, nor are the base name of a
      path and the media type of an extension. */
  datatype Env = Env(okArtwork: string -> bool, baseName: string -> string, mediaType: string -> string)

  const NO_TRACK := Track("", "", "", "", "", 0)

  function Field(s: string, n: nat): string {
    Clip(Trim(s), n)
  }

  function Artwork(env: Env, s: string): string {
    var artwork := Field(s, 1000);
    if artwork != "" && !env.okArtwork(artwork) then "" else artwork
  }

  /** cleanTrack, for a track with a time stamp: trim, then clip. */
  function CleanTrack(env: Env, t: Track): Track {
    if Field(t.title, 120) == "" then NO_TRACK
    else
      Track(Field(t.title, 120), Field(t.artist, 120), Artwork(env, t.artwork),
            Field(t.note, 240), Field(t.matchId, 160), t.setAt)
  }

  predicate SameTrack(a: Track, b: Track) {
    a.title == b.title && a.artist == b.artist
  }

  function WithoutTrack(tracks: seq<Track>, want: Track): seq<Track> {
    Dropping(t => SameTrack(t, want), tracks)
  }

  function Take(s: seq<Track>, n: nat): seq<Track> {
    if |s| > n then s[..n] else s
  }

  function Rotate(w: Wall): Wall {
    match w.current
    case Some(t) =>
      if t.title == "" then w
      else w.(recent := Take([t] + w.recent, TRACK_HISTORY), setlist := w.setlist + [t])
    case None => w
  }

  /** dropTrackState, the one reducer both sides use. */
  function Dropped(w: Wall, want: Track): Wall {
    w.(current := if w.current.Some? && SameTrack(w.current.value, want) then None else w.current,
       recent := WithoutTrack(w.recent, want),
       setlist := WithoutTrack(w.setlist, want))
  }

  // ---------------------------------------------------------------- live mutations

  /** What a mutation that journalled `l` does to the live store. */
  function Mutated(w: Wall, l: Line): Wall {
    match l
    case PostLine(cid, post, ts) => w.(posts := w.posts + [post.(cid := cid)], lastActivity := ts)
    case DeleteLine(id, ts) =>
      var i := LiveIndex(w, id);
      if i < 0 then w else Touched(w, i, w.posts[i].(deleted := true), ts)
    case CommentLine(id, cid, c, ts) =>
      var i := LiveIndex(w, id);
      if i < 0 then w else Touched(w, i, w.posts[i].(comments := w.posts[i].comments + [c.(cid := cid)]), ts)
    case CommentDeleteLine(id, commentId, ts) =>
      var i := LiveIndex(w, id);
      if i < 0 then w
      else Touched(w, i, w.posts[i].(comments := WithoutComment(w.posts[i].comments, commentId)), ts)
    case ReactionLine(id, reaction, ts) =>
      var i := LiveIndex(w, id);
      if i < 0 then w else Touched(w, i, Reacted(w.posts[i], reaction), ts)
    case ModLine(id, commentId, state, ts) =>
      var i := LiveIndex(w, id);
      if i < 0 then w else Touched(w, i, Moderated(w.posts[i], commentId, state), ts)
    case TrackLine(t) => Rotate(w).(current := Some(t))
    case ClearLine => Rotate(w).(current := None)
    case DropLine(t) => Dropped(w, t)
    case ThumbLine(mediaId, thumb, ts) =>
      w.(posts := LiveThumbs(w.posts, mediaId, thumb, ts), lastActivity := ts)
    case IgnoredLine => w
  }

  function Touched(w: Wall, i: nat, p: Post, ts: int): Wall
    requires i < |w.posts|
  {
    w.(posts := w.posts[i := p.(act := ts)], lastActivity := ts)
  }

  function WithoutComment(comments: seq<Comment>, id: string): seq<Comment> {
    var i := IndexOfComment(comments, id);
    if i < 0 then comments else comments[..i] + comments[i + 1..]
  }

  function Reacted(p: Post, reaction: string): Post {
    p.(reactions := p.reactions[reaction := (if reaction in p.reactions then p.reactions[reaction] else 0) + 1])
  }

  function Moderated(p: Post, commentId: string, state: State): Post {
    if commentId == "" then p.(state := state) else CommentModerated(p, commentId, state)
  }

  function CommentModerated(p: Post, commentId: string, state: State): Post {
    var i := IndexOfComment(p.comments, commentId);
    if i < 0 then p else p.(comments := p.comments[i := p.comments[i].(state := state)])
  }

  predicate NeedsThumb(p: Post, mediaId: string, thumb: string) {
    !p.deleted && exists i :: 0 <= i < |p.media| && p.media[i].id == mediaId && p.media[i].thumb != thumb
  }

  predicate SomeNeedsThumb(posts: seq<Post>, mediaId: string, thumb: string) {
    exists i :: 0 <= i < |posts| && NeedsThumb(posts[i], mediaId, thumb)
  }

  function ThumbMedia(media: seq<Media>, mediaId: string, thumb: string): (r: seq<Media>)
    ensures |r| == |media|
    ensures forall i :: 0 <= i < |r| ==> r[i] == if media[i].id == mediaId then media[i].(thumb := thumb) else media[i]
  {
    if media == [] then []
    else
      [if media[0].id == mediaId then media[0].(thumb := thumb) else media[0]] + ThumbMedia(media[1..], mediaId, thumb)
  }

  function LiveThumb(p: Post, mediaId: string, thumb: string, ts: int): Post {
    if NeedsThumb(p, mediaId, thumb) then p.(media := ThumbMedia(p.media, mediaId, thumb), act := ts) else p
  }

  function LiveThumbs(posts: seq<Post>, mediaId: string, thumb: string, ts: int): (r: seq<Post>)
    ensures |r| == |posts|
    ensures forall i :: 0 <= i < |r| ==> r[i] == LiveThumb(posts[i], mediaId, thumb, ts)
  {
    if posts == [] then [] else [LiveThumb(posts[0], mediaId, thumb, ts)] + LiveThumbs(posts[1..], mediaId, thumb, ts)
  }

  // ---------------------------------------------------------------- replay

  /** One turn of the replay loop. */
  function Replayed(env: Env, w: Wall, l: Line): Wall {
    match l
    case PostLine(cid, post, ts) =>
      var p := post.(cid := cid, state := Normalize(post.state), comments := NormalizedComments(post.comments));
      w.(posts := w.posts + [p.(act := if ts > 0 then ts else Max(p.act, p.ts))])
    case DeleteLine(id, ts) =>
      var i := IndexOfPost(w.posts, id);
      if i < 0 then w else Raised(w, i, w.posts[i].(deleted := true), ts)
    case CommentLine(id, cid, comment, ts) =>
      var i := IndexOfPost(w.posts, id);
      var c := comment.(cid := cid, state := Normalize(comment.state));
      if i < 0 then w else Raised(w, i, w.posts[i].(comments := w.posts[i].comments + [c]), Max(c.ts, ts))
    case CommentDeleteLine(id, commentId, ts) =>
      var i := IndexOfPost(w.posts, id);
      if i < 0 then w
      else Raised(w, i, w.posts[i].(comments := WithoutComment(w.posts[i].comments, commentId)), ts)
    case ReactionLine(id, reaction, ts) =>
      var i := IndexOfPost(w.posts, id);
      if !ValidReaction(reaction) || i < 0 then w else Raised(w, i, Reacted(w.posts[i], reaction), ts)
    case ModLine(id, commentId, state, ts) =>
      var i := IndexOfPost(w.posts, id);
      if !ValidState(state) || i < 0 then w else Raised(w, i, Moderated(w.posts[i], commentId, state), ts)
    case TrackLine(t) =>
      var clean := CleanTrack(env, t);
      if clean.title == "" then Rotate(w) else Rotate(w).(current := Some(clean))
    case ClearLine => Rotate(w).(current := None)
    case DropLine(t) => Dropped(w, CleanTrack(env, t))
    case ThumbLine(mediaId, thumb, ts) => w.(posts := ReplayThumbs(w.posts, mediaId, thumb, ts))
    case IgnoredLine => w
  }

  function Raised(w: Wall, i: nat, p: Post, ts: int): Wall
    requires i < |w.posts|
  {
    w.(posts := w.posts[i := p.(act := Max(p.act, ts))])
  }

  function NormalizedComments(comments: seq<Comment>): (r: seq<Comment>)
    ensures |r| == |comments|
    ensures forall i :: 0 <= i < |r| ==> r[i] == comments[i].(state := Normalize(comments[i].state))
  {
    if comments == [] then []
    else [comments[0].(state := Normalize(comments[0].state))] + NormalizedComments(comments[1..])
  }

  predicate HasMedia(p: Post, mediaId: string) {
    exists i :: 0 <= i < |p.media| && p.media[i].id == mediaId
  }

  function ReplayThumb(p: Post, mediaId: string, thumb: string, ts: int): Post {
    if HasMedia(p, mediaId) then p.(media := ThumbMedia(p.media, mediaId, thumb), act := Max(p.act, ts)) else p
  }

  function ReplayThumbs(posts: seq<Post>, mediaId: string, thumb: string, ts: int): (r: seq<Post>)
    ensures |r| == |posts|
    ensures forall i :: 0 <= i < |r| ==> r[i] == ReplayThumb(posts[i], mediaId, thumb, ts)
  {
    if posts == [] then []
    else [ReplayThumb(posts[0], mediaId, thumb, ts)] + ReplayThumbs(posts[1..], mediaId, thumb, ts)
  }

  function Loop(env: Env, lines: seq<Line>): Wall {
    if lines == [] then EMPTY else Replayed(env, Loop(env, lines[..|lines| - 1]), lines[|lines| - 1])
  }

  function MaxAct(posts: seq<Post>): int {
    if posts == [] then 0 else Max(MaxAct(posts[..|posts| - 1]), posts[|posts| - 1].act)
  }

  /** The store a restart builds from the journal. */
  function Replay(env: Env, lines: seq<Line>): Wall {
    var w := Loop(env, lines);
    w.(lastActivity := MaxAct(w.posts))
  }

  // ---------------------------------------------------------------- what the store writes

  /** What a journal object can carry: no client id, which travels beside it, and no tombstone. */
  predicate Encodable(l: Line) {
    match l
    case PostLine(_, post, _) => post.cid == "" && !post.deleted && post.state == Approved && post.comments == []
    case CommentLine(_, _, c, _) => c.cid == "" && c.state == Approved
    case ModLine(_, _, state, _) => ValidState(state)
    case IgnoredLine => false
    case _ => true
  }

  /** A line the live store can have written in state `w`. */
  ghost predicate Writable(w: Wall, l: Line) {
    Encodable(l) && WritableIn(w, l)
  }

  ghost predicate WritableIn(w: Wall, l: Line) {
    match l
    case PostLine(_, post, ts) => ts > w.lastActivity && post.act == ts
    case DeleteLine(id, ts) => ts > w.lastActivity && LiveIndex(w, id) >= 0
    case CommentLine(id, _, c, ts) =>
      ts > w.lastActivity && c.ts <= ts && LiveIndex(w, id) >= 0
    case CommentDeleteLine(id, commentId, ts) => ts > w.lastActivity && LiveIndex(w, id) >= 0
    case ReactionLine(id, reaction, ts) => ts > w.lastActivity && ValidReaction(reaction) && LiveIndex(w, id) >= 0
    case ModLine(id, _, state, ts) => ts > w.lastActivity && LiveIndex(w, id) >= 0
    case TrackLine(t) => t.title != "" && !IsSpace(t.title[0])
    case ClearLine => w.current.Some? && w.current.value.title != ""
    case DropLine(t) => t.title != "" && Dropped(w, t) != w
    case ThumbLine(mediaId, thumb, ts) =>
      ts > w.lastActivity && SomeNeedsThumb(w.posts, mediaId, thumb)
    case IgnoredLine => false
  }

  /** The lines that replay to their live effect: cleaning a track a second time may change
      it, and a thumbnail line is replayed onto posts it did not touch live. */
  predicate Faithful(env: Env, w: Wall, l: Line) {
    match l
    case TrackLine(t) => CleanTrack(env, t) == t
    case DropLine(t) => SameTrack(CleanTrack(env, t), t)
    case ThumbLine(mediaId, thumb, _) =>
      forall i :: 0 <= i < |w.posts| && HasMedia(w.posts[i], mediaId) ==> NeedsThumb(w.posts[i], mediaId, thumb)
    case _ => true
  }

  ghost predicate Sane(w: Wall) {
    && w.lastActivity >= 0 && w.lastActivity == MaxAct(w.posts)
    && RecentMatches(w)
    && (w.current.Some? ==> w.current.value.title != "")
  }

  function Reversed(s: seq<Track>): seq<Track> {
    if s == [] then [] else [s[|s| - 1]] + Reversed(s[..|s| - 1])
  }

  /** recentTracks is a prefix, at most 15 long, of the reversed setlist. */
  ghost predicate RecentMatches(w: Wall) {
    |w.recent| <= TRACK_HISTORY && w.recent <= Reversed(w.setlist)
  }

  ghost predicate Wrote(w: Wall, l: Line, next: Wall) {
    Writable(w, l) && next == Mutated(w, l)
  }

  /** A run of the live store: each line was written in the state it then changed. */
  ghost predicate Ran(ws: seq<Wall>, lines: seq<Line>) {
    && |ws| == |lines| + 1
    && forall i {:trigger Wrote(ws[i], lines[i], ws[i + 1])} :: 0 <= i < |lines| ==> Wrote(ws[i], lines[i], ws[i + 1])
  }

  lemma WroteAt(ws: seq<Wall>, lines: seq<Line>, n: nat)
    requires Ran(ws, lines) && n < |lines|
    ensures Wrote(ws[n], lines[n], ws[n + 1])
  {
  }

  /** A run of the store opened on the journal `before`. */
  ghost predicate Lived(env: Env, before: seq<Line>, ws: seq<Wall>, lines: seq<Line>) {
    Ran(ws, lines) && ws[0] == Replay(env, before)
  }
}

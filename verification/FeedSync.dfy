/** Incremental feed sync: what a peer merges from the changes since its cursor is the feed
a full snapshot would have given it. */
module FeedSync {
  import opened Text
  import opened EventStore
  import opened EventReplay
  import opened PartyStore
  import opened Sorting

  // ---------------------------------------------------------------- the feed

  /** One answer of the feed, and what a peer keeps of it. */
  datatype Room = Room(posts: seq<Post>, ids: seq<string>, cursor: int)

  /** Who reads the feed: a DJ or a guest, on this Mac or through an encoded answer, which
      leaves client ids out. */
  datatype Viewer = Viewer(dj: bool, wire: bool)

  const PEER := Viewer(false, true)

  const STREAM_EMOJI := "\U{1F3A7}"

  /** Stream notices that old versions wrote as posts. */
  predicate LegacyNotice(p: Post) {
    && p.cid == "dj" && p.dj && p.emoji == STREAM_EMOJI && p.media == [] && p.comments == []
    && (p.text == "Started the stream." || p.text == "Stopped the stream.")
  }

  predicate Listed(p: Post, who: Viewer) {
    !p.deleted && !LegacyNotice(p) && (who.dj || Normalize(p.state) == Approved)
  }

  function VisibleComments(comments: seq<Comment>, who: Viewer): seq<Comment> {
    if comments == [] then []
    else
      var state := Normalize(comments[0].state);
      var rest := VisibleComments(comments[1..], who);
      if !who.dj && state == Hidden then rest
      else [comments[0].(state := state, cid := if who.wire then "" else comments[0].cid)] + rest
  }

  function Shown(p: Post, who: Viewer): (r: Post)
    ensures r.id == p.id && r.act == p.act && r.ts == p.ts
  {
    p.(state := Normalize(p.state), comments := VisibleComments(p.comments, who),
       cid := if who.wire then "" else p.cid)
  }

  predicate Fresh(p: Post, since: int, who: Viewer) {
    Listed(p, who) && p.act > since
  }

  function FeedPosts(posts: seq<Post>, since: int, who: Viewer): seq<Post> {
    if posts == [] then []
    else
      var n := |posts| - 1;
      FeedPosts(posts[..n], since, who) + if Fresh(posts[n], since, who) then [Shown(posts[n], who)] else []
  }

  function FeedIds(posts: seq<Post>, who: Viewer): seq<string> {
    if posts == [] then []
    else
      var n := |posts| - 1;
      FeedIds(posts[..n], who) + if Listed(posts[n], who) then [posts[n].id] else []
  }

  ghost predicate Distinct(posts: seq<Post>) {
    forall i, j :: 0 <= i < j < |posts| ==> posts[i].id != posts[j].id
  }

  /** What FeedFor promises; posts of one time stamp may come in any order. */
  ghost predicate Answers(w: Wall, since: int, who: Viewer, r: Room) {
    && multiset(r.posts) == multiset(FeedPosts(w.posts, since, who))
    && r.ids == FeedIds(w.posts, who) && r.cursor == w.lastActivity
  }

  // ---------------------------------------------------------------- ordering

  predicate ByTime(a: Post, b: Post) {
    a.ts <= b.ts
  }

  predicate ByTimeThenId(a: Post, b: Post) {
    a.ts < b.ts || (a.ts == b.ts && StrLe(a.id, b.id))
  }

  lemma Orders()
    ensures TotalOrder(ByTime) && TotalOrder(ByTimeThenId)
  {
    forall a: Post, b: Post ensures ByTimeThenId(a, b) || ByTimeThenId(b, a) {
      StrLeTotal(a.id, b.id);
    }
    forall a: Post, b: Post, c: Post | ByTimeThenId(a, b) && ByTimeThenId(b, c) ensures ByTimeThenId(a, c) {
      if a.ts == b.ts == c.ts { StrLeTransitive(a.id, b.id, c.id); }
    }
  }

  // ---------------------------------------------------------------- FeedFor

  method FeedFor(s: Store, since: int, dj: bool) returns (r: Room)
    requires s.Valid()
    ensures Answers(s.Value(), since, Viewer(dj, false), r) && Ordered(ByTime, r.posts)
    ensures Distinct(s.posts) ==> Gives(s.posts, since, Viewer(dj, false), r)
  {
    var who := Viewer(dj, false);
    var posts, ids, cursor := [], [], s.lastActivity;
    MaxActBounds(s.posts);
    for i := 0 to |s.posts|
      invariant posts == FeedPosts(s.posts[..i], since, who) && ids == FeedIds(s.posts[..i], who)
      invariant cursor == s.lastActivity
    {
      ghost var done := s.posts[..i + 1];
      assert done[..i] == s.posts[..i] && done[i] == s.posts[i];
      var p := s.posts[i];
      if p.act > cursor {
        cursor := p.act;
      }
      if Listed(p, who) {
        ids := ids + [p.id];
        if p.act > since {
          posts := posts + [Shown(p, who)];
        }
      }
    }
    assert s.posts[..|s.posts|] == s.posts;
    Orders();
    posts := Sort(ByTime, posts);
    r := Room(posts, ids, cursor);
    if Distinct(s.posts) {
      AnswersGive(s.Value(), since, who, r);
    }
  }

  // ---------------------------------------------------------------- on the wire

  function WireComments(comments: seq<Comment>): (r: seq<Comment>)
    ensures |r| == |comments| && forall i :: 0 <= i < |r| ==> r[i] == comments[i].(cid := "")
  {
    if comments == [] then [] else [comments[0].(cid := "")] + WireComments(comments[1..])
  }

  /** A post as an encoded answer carries it. */
  function Wire(p: Post): Post {
    p.(cid := "", comments := WireComments(p.comments))
  }

  function WireAll(posts: seq<Post>): (r: seq<Post>)
    ensures |r| == |posts| && forall i :: 0 <= i < |r| ==> r[i] == Wire(posts[i])
  {
    if posts == [] then [] else WireAll(posts[..|posts| - 1]) + [Wire(posts[|posts| - 1])]
  }

  lemma {:induction false} WireVisible(comments: seq<Comment>, dj: bool)
    ensures WireComments(VisibleComments(comments, Viewer(dj, false))) == VisibleComments(comments, Viewer(dj, true))
  {
    if comments != [] {
      WireVisible(comments[1..], dj);
    }
  }

  lemma {:induction false} WireFeed(posts: seq<Post>, since: int, dj: bool)
    ensures WireAll(FeedPosts(posts, since, Viewer(dj, false))) == FeedPosts(posts, since, Viewer(dj, true))
    ensures FeedIds(posts, Viewer(dj, false)) == FeedIds(posts, Viewer(dj, true))
  {
    if posts != [] {
      var n := |posts| - 1;
      WireFeed(posts[..n], since, dj);
      WireVisible(posts[n].comments, dj);
    }
  }

  lemma WireSnoc(posts: seq<Post>, p: Post)
    ensures WireAll(posts + [p]) == WireAll(posts) + [Wire(p)]
  {
  }

  lemma WireConcat(a: seq<Post>, b: seq<Post>)
    ensures WireAll(a + b) == WireAll(a) + WireAll(b)
  {
  }

  lemma WireSplit(a: seq<Post>, p: Post, b: seq<Post>)
    ensures multiset(WireAll(a + [p] + b)) == multiset(WireAll(a + b)) + multiset{Wire(p)}
  {
    WireConcat(a + [p], b);
    WireConcat(a, b);
    WireSnoc(a, p);
  }

  /** One occurrence of a post taken out. */
  lemma TakenOut(s: seq<Post>, p: Post) returns (k: nat)
    requires p in multiset(s)
    ensures k < |s| && s == s[..k] + [p] + s[k + 1..]
    ensures multiset(s) == multiset(s[..k] + s[k + 1..]) + multiset{p}
  {
    k :| 0 <= k < |s| && s[k] == p;
    assert s == s[..k] + [p] + s[k + 1..];
  }

  lemma WireTaken(s: seq<Post>, p: Post, k: nat)
    requires k < |s| && s == s[..k] + [p] + s[k + 1..]
    ensures multiset(WireAll(s)) == multiset(WireAll(s[..k] + s[k + 1..])) + multiset{Wire(p)}
  {
    WireSplit(s[..k], p, s[k + 1..]);
  }

  lemma EmptyIsEmpty(b: seq<Post>)
    requires multiset(b) == multiset{}
    ensures b == []
  {
    assert |multiset(b)| == |b|;
  }

  /** Encoding keeps the order out of it: the same posts give the same encoded posts. */
  lemma {:induction false} WireSame(a: seq<Post>, b: seq<Post>)
    requires multiset(a) == multiset(b)
    ensures multiset(WireAll(a)) == multiset(WireAll(b))
    decreases |a|
  {
    if a == [] {
      EmptyIsEmpty(b);
    } else {
      var p := a[0];
      assert p in multiset(a);
      var i := TakenOut(a, p);
      var k := TakenOut(b, p);
      var a', b' := a[..i] + a[i + 1..], b[..k] + b[k + 1..];
      SameRest(multiset(a'), multiset(b'), p);
      WireSame(a', b');
      WireTaken(a, p, i);
      WireTaken(b, p, k);
    }
  }

  lemma SameRest(a: multiset<Post>, b: multiset<Post>, p: Post)
    requires a + multiset{p} == b + multiset{p}
    ensures a == b
  {
    assert a == (a + multiset{p}) - multiset{p} && b == (b + multiset{p}) - multiset{p};
  }

  /** The answer another Mac gets: the guest's feed, encoded. */
  method AnswerPeer(s: Store, since: int) returns (r: Room)
    requires s.Valid()
    ensures Answers(s.Value(), since, PEER, r)
    ensures Distinct(s.posts) ==> Gives(s.posts, since, PEER, r)
  {
    var feed := FeedFor(s, since, false);
    WireFeed(s.posts, since, false);
    WireSame(feed.posts, FeedPosts(s.posts, since, Viewer(false, false)));
    r := feed.(posts := WireAll(feed.posts));
    if Distinct(s.posts) {
      AnswersGive(s.Value(), since, PEER, r);
    }
  }

  // ---------------------------------------------------------------- merging

  /** Posts by id; a later one replaces an earlier. */
  function Index(posts: seq<Post>): (m: map<string, Post>)
    ensures forall id :: id in m ==> m[id].id == id && m[id] in posts
    ensures forall p :: p in posts ==> p.id in m
  {
    if posts == [] then map[]
    else
      var n := |posts| - 1;
      assert posts == posts[..n] + [posts[n]];
      Index(posts[..n])[posts[n].id := posts[n]]
  }

  function Kept(posts: map<string, Post>, ids: set<string>): map<string, Post> {
    map id | id in posts && id in ids :: posts[id]
  }

  function Merged(previous: seq<Post>, changed: seq<Post>, ids: seq<string>): map<string, Post> {
    Kept(Index(previous), set id | id in ids) + Index(changed)
  }

  method MergePosts(previous: seq<Post>, changed: seq<Post>, ids: seq<string>) returns (out: seq<Post>)
    ensures Distinct(out) && Index(out) == Merged(previous, changed, ids)
    ensures Ordered(ByTimeThenId, out)
  {
    var keep: set<string> := {};
    for i := 0 to |ids|
      invariant keep == set id | id in ids[..i]
    {
      keep := keep + {ids[i]};
    }
    assert ids[..|ids|] == ids;
    var posts := KeepPrevious(previous, keep);
    posts := ReplaceChanged(posts, changed);
    var all := Values(posts);
    Orders();
    out := Sort(ByTimeThenId, all);
    SameIndex(all, out);
  }

  method KeepPrevious(previous: seq<Post>, keep: set<string>) returns (posts: map<string, Post>)
    ensures posts == Kept(Index(previous), keep)
  {
    posts := map[];
    for i := 0 to |previous|
      invariant posts == Kept(Index(previous[..i]), keep)
    {
      IndexSnoc(previous, i);
      KeptPut(Index(previous[..i]), previous[i], keep);
      if previous[i].id in keep {
        posts := posts[previous[i].id := previous[i]];
      }
    }
    assert previous[..|previous|] == previous;
  }

  method ReplaceChanged(kept: map<string, Post>, changed: seq<Post>) returns (posts: map<string, Post>)
    ensures posts == kept + Index(changed)
  {
    posts := kept;
    for i := 0 to |changed|
      invariant posts == kept + Index(changed[..i])
    {
      IndexSnoc(changed, i);
      PutOver(kept, Index(changed[..i]), changed[i]);
      posts := posts[changed[i].id := changed[i]];
    }
    assert changed[..|changed|] == changed;
  }

  lemma IndexSnoc(s: seq<Post>, i: nat)
    requires i < |s|
    ensures Index(s[..i + 1]) == Index(s[..i])[s[i].id := s[i]]
  {
    assert s[..i + 1][..i] == s[..i];
  }

  lemma KeptPut(m: map<string, Post>, p: Post, keep: set<string>)
    ensures Kept(m[p.id := p], keep) == if p.id in keep then Kept(m, keep)[p.id := p] else Kept(m, keep)
  {
  }

  lemma PutOver(a: map<string, Post>, b: map<string, Post>, p: Post)
    ensures a + b[p.id := p] == (a + b)[p.id := p]
  {
  }

  lemma KeptGrows(m: map<string, Post>, keep: set<string>, id: string)
    requires id in m
    ensures Kept(m, keep + {id}) == Kept(m, keep)[id := m[id]]
  {
  }

  lemma OneMoreValue(posts: map<string, Post>, out: seq<Post>, left: set<string>, id: string)
    requires forall id :: id in posts ==> posts[id].id == id
    requires left <= posts.Keys && id in left && Distinct(out) && Index(out) == Kept(posts, posts.Keys - left)
    ensures Distinct(out + [posts[id]]) && Index(out + [posts[id]]) == Kept(posts, posts.Keys - (left - {id}))
  {
    AppendDistinct(out, posts[id]);
    KeptGrows(posts, posts.Keys - left, id);
    assert posts.Keys - (left - {id}) == posts.Keys - left + {id};
  }

  /** The values of the map, in some order. */
  method Values(posts: map<string, Post>) returns (out: seq<Post>)
    requires forall id :: id in posts ==> posts[id].id == id
    ensures Distinct(out) && Index(out) == posts
  {
    out := [];
    var left := posts.Keys;
    while left != {}
      invariant left <= posts.Keys && Distinct(out)
      invariant Index(out) == Kept(posts, posts.Keys - left)
      decreases |left|
    {
      var id :| id in left;
      OneMoreValue(posts, out, left, id);
      out := out + [posts[id]];
      left := left - {id};
    }
    assert Kept(posts, posts.Keys) == posts;
  }

  lemma AppendDistinct(s: seq<Post>, p: Post)
    requires Distinct(s) && p.id !in Index(s)
    ensures Distinct(s + [p]) && Index(s + [p]) == Index(s)[p.id := p]
  {
    assert (s + [p])[..|s|] == s;
    forall i | 0 <= i < |s| ensures s[i].id != p.id {
      assert s[i] in s;
    }
  }

  /** With distinct ids, a post is in the sequence exactly when its id maps to it. */
  lemma {:induction false} IndexMember(s: seq<Post>, p: Post)
    requires Distinct(s)
    ensures p in s <==> p.id in Index(s) && Index(s)[p.id] == p
  {
    if s != [] {
      var n := |s| - 1;
      DistinctInit(s, p);
      IndexMember(s[..n], p);
    }
  }

  lemma DistinctInit(s: seq<Post>, p: Post)
    requires s != [] && Distinct(s)
    ensures var n := |s| - 1;
            Distinct(s[..n]) && (p in s <==> p in s[..n] || p == s[n]) && (p in s[..n] ==> p.id != s[n].id)
  {
    var n := |s| - 1;
    assert s == s[..n] + [s[n]];
  }

  lemma SameMembers(a: seq<Post>, b: seq<Post>)
    requires multiset(a) == multiset(b)
    ensures Members(a) == Members(b)
  {
    assert forall p :: p in a <==> p in multiset(a);
    assert forall p :: p in b <==> p in multiset(b);
  }

  function Members(s: seq<Post>): set<Post> {
    set p | p in s
  }

  lemma IndexWithin(a: seq<Post>, b: seq<Post>)
    requires Distinct(b) && Members(a) <= Members(b)
    ensures forall id :: id in Index(a) ==> id in Index(b) && Index(b)[id] == Index(a)[id]
  {
    forall id | id in Index(a) ensures id in Index(b) && Index(b)[id] == Index(a)[id] {
      assert Index(a)[id] in Members(a);
      IndexMember(b, Index(a)[id]);
    }
  }

  lemma SameIndex(a: seq<Post>, b: seq<Post>)
    requires Distinct(a) && multiset(a) == multiset(b)
    ensures Distinct(b) && Index(a) == Index(b)
  {
    SameDistinct(a, b);
    SameMembers(a, b);
    IndexWithin(a, b);
    IndexWithin(b, a);
  }

  lemma {:induction false} SameDistinct(a: seq<Post>, b: seq<Post>)
    requires Distinct(a) && multiset(a) == multiset(b)
    ensures Distinct(b)
  {
    forall i, j | 0 <= i < j < |b| ensures b[i].id != b[j].id {
      if b[i].id == b[j].id {
        assert b[i] in multiset(a) && b[j] in multiset(a);
        var k :| 0 <= k < |a| && a[k] == b[i];
        var m :| 0 <= m < |a| && a[m] == b[j];
        assert k == m;
        TwiceInMultiset(b, i, j);
        OnceInMultiset(a, k);
      }
    }
  }

  lemma TwiceInMultiset(b: seq<Post>, i: nat, j: nat)
    requires i < j < |b| && b[i] == b[j]
    ensures multiset(b)[b[i]] >= 2
  {
    assert b == b[..i] + [b[i]] + b[i + 1..j] + [b[j]] + b[j + 1..];
  }

  lemma OnceInMultiset(a: seq<Post>, k: nat)
    requires Distinct(a) && k < |a|
    ensures multiset(a)[a[k]] == 1
  {
    assert a == a[..k] + [a[k]] + a[k + 1..];
    assert a[k] !in a[..k] && a[k] !in a[k + 1..];
  }

  // ---------------------------------------------------------------- what the feed holds

  lemma {:induction false} FeedMember(posts: seq<Post>, since: int, who: Viewer, p: Post)
    ensures p in FeedPosts(posts, since, who) <==>
              exists i :: 0 <= i < |posts| && Fresh(posts[i], since, who) && p == Shown(posts[i], who)
  {
    if posts != [] {
      var n := |posts| - 1;
      FeedMember(posts[..n], since, who, p);
      assert posts == posts[..n] + [posts[n]];
    }
  }

  lemma {:induction false} FeedDistinct(posts: seq<Post>, since: int, who: Viewer)
    requires Distinct(posts)
    ensures Distinct(FeedPosts(posts, since, who))
  {
    if posts != [] {
      var n := |posts| - 1;
      FeedDistinct(posts[..n], since, who);
      var init := FeedPosts(posts[..n], since, who);
      forall i | 0 <= i < |init| ensures init[i].id != posts[n].id {
        FeedMember(posts[..n], since, who, init[i]);
      }
    }
  }

  lemma {:induction false} IdMember(posts: seq<Post>, who: Viewer, id: string)
    ensures id in FeedIds(posts, who) <==> exists i :: 0 <= i < |posts| && Listed(posts[i], who) && posts[i].id == id
  {
    if posts != [] {
      var n := |posts| - 1;
      IdMember(posts[..n], who, id);
      assert posts == posts[..n] + [posts[n]];
    }
  }

  // ---------------------------------------------------------------- what a reader sees

  /** The comments a reader may see, in their order: all for a DJ, else those not hidden. */
  function Readable(comments: seq<Comment>, dj: bool): seq<Comment> {
    if comments == [] then []
    else (if dj || comments[0].state != Hidden then [comments[0]] else []) + Readable(comments[1..], dj)
  }

  /** A comment as read: a known state, and on the wire no client id. */
  function Read(c: Comment, who: Viewer): Comment {
    c.(state := if c.state == Hidden then Hidden else Approved, cid := if who.wire then "" else c.cid)
  }

  ghost predicate ReadAs(from: seq<Comment>, who: Viewer, to: seq<Comment>) {
    |to| == |from| && forall k :: 0 <= k < |from| ==> to[k] == Read(from[k], who)
  }

  lemma ReadCons(c: Comment, from: seq<Comment>, who: Viewer, to: seq<Comment>)
    requires ReadAs(from, who, to)
    ensures ReadAs([c] + from, who, [Read(c, who)] + to)
  {
  }

  lemma VisibleFirst(comments: seq<Comment>, who: Viewer)
    requires comments != []
    ensures var rest := VisibleComments(comments[1..], who);
            VisibleComments(comments, who) ==
            if who.dj || comments[0].state != Hidden then [Read(comments[0], who)] + rest else rest
  {
  }

  /** A DJ reads every comment, anyone else all but the hidden ones. */
  lemma {:induction false} CommentsRead(comments: seq<Comment>, who: Viewer)
    ensures ReadAs(Readable(comments, who.dj), who, VisibleComments(comments, who))
  {
    if comments != [] {
      CommentsRead(comments[1..], who);
      VisibleFirst(comments, who);
      if who.dj || comments[0].state != Hidden {
        ReadCons(comments[0], Readable(comments[1..], who.dj), who, VisibleComments(comments[1..], who));
      }
    }
  }

  /** A post is named exactly if it is not deleted, the DJ asks or has not hidden it, and it is
      not the DJ's bare word that the stream started or stopped; what is named is sent
      along exactly if it changed since the cursor. */
  ghost predicate NamesAndSends(p: Post, since: int, dj: bool, r: Room) {
    && (p.id in r.ids <==>
          && !p.deleted && (dj || p.state != Hidden)
          && !(p.dj && p.cid == "dj" && p.emoji == "\U{1F3A7}" && |p.media| == |p.comments| == 0
               && p.text in {"Started the stream.", "Stopped the stream."}))
    && ((exists q :: q in r.posts && q.id == p.id) <==> p.id in r.ids && p.act > since)
  }

  /** A post is sent as it stands, but for the comments its reader may not see. */
  ghost predicate SentAs(p: Post, who: Viewer, q: Post) {
    && q == p.(state := if p.state == Hidden then Hidden else Approved,
               cid := if who.wire then "" else p.cid, comments := q.comments)
    && ReadAs(Readable(p.comments, who.dj), who, q.comments)
  }

  /** What a reader is given, read off the posts: the right ones, each once, as they stand. */
  ghost predicate Gives(posts: seq<Post>, since: int, who: Viewer, r: Room) {
    && (forall i :: 0 <= i < |posts| ==> NamesAndSends(posts[i], since, who.dj, r))
    && (forall q :: q in r.posts ==> exists i :: 0 <= i < |posts| && SentAs(posts[i], who, q))
    && Distinct(r.posts) && NamedInOrder(posts, r.ids)
  }

  /** The ids are those of some of the posts, oldest first. */
  ghost predicate NamedInOrder(posts: seq<Post>, ids: seq<string>) {
    exists picks: seq<nat> :: Picks(posts, ids, picks)
  }

  ghost predicate Picks(posts: seq<Post>, ids: seq<string>, picks: seq<nat>) {
    && |picks| == |ids|
    && (forall a, b :: 0 <= a < b < |picks| ==> picks[a] < picks[b])
    && (forall a :: 0 <= a < |picks| ==> picks[a] < |posts| && posts[picks[a]].id == ids[a])
  }

  lemma {:induction false} IdsInOrder(posts: seq<Post>, who: Viewer)
    ensures NamedInOrder(posts, FeedIds(posts, who))
  {
    if posts == [] {
      assert Picks(posts, [], []);
    } else {
      var n := |posts| - 1;
      IdsInOrder(posts[..n], who);
      var picks: seq<nat> :| Picks(posts[..n], FeedIds(posts[..n], who), picks);
      assert Picks(posts, FeedIds(posts, who), picks + if Listed(posts[n], who) then [n] else []);
    }
  }

  lemma NamedIff(posts: seq<Post>, since: int, who: Viewer, r: Room, i: nat)
    requires Distinct(posts) && i < |posts| && r.ids == FeedIds(posts, who)
    requires forall q :: q in r.posts <==> q in FeedPosts(posts, since, who)
    ensures NamesAndSends(posts[i], since, who.dj, r)
  {
    IdMember(posts, who, posts[i].id);
    if posts[i].id in r.ids && posts[i].act > since {
      FeedMember(posts, since, who, Shown(posts[i], who));
      assert Shown(posts[i], who) in r.posts;
    }
    if q :| q in r.posts && q.id == posts[i].id {
      FeedMember(posts, since, who, q);
    }
  }

  lemma SentRight(posts: seq<Post>, since: int, who: Viewer, q: Post)
    requires q in FeedPosts(posts, since, who)
    ensures exists i :: 0 <= i < |posts| && SentAs(posts[i], who, q)
  {
    FeedMember(posts, since, who, q);
    var i :| 0 <= i < |posts| && Fresh(posts[i], since, who) && q == Shown(posts[i], who);
    CommentsRead(posts[i].comments, who);
    assert SentAs(posts[i], who, q);
  }

  /** Every answer of the feed gives its reader what it should. */
  lemma AnswersGive(w: Wall, since: int, who: Viewer, r: Room)
    requires Answers(w, since, who, r) && Distinct(w.posts)
    ensures Gives(w.posts, since, who, r)
  {
    var feed := FeedPosts(w.posts, since, who);
    assert forall q :: q in r.posts <==> q in multiset(feed);
    forall i | 0 <= i < |w.posts| ensures NamesAndSends(w.posts[i], since, who.dj, r) {
      NamedIff(w.posts, since, who, r, i);
    }
    forall q | q in r.posts ensures exists i :: 0 <= i < |w.posts| && SentAs(w.posts[i], who, q) {
      SentRight(w.posts, since, who, q);
    }
    FeedDistinct(w.posts, since, who);
    SameDistinct(feed, r.posts);
    IdsInOrder(w.posts, who);
  }

  /** Nothing the DJ has hidden or deleted reaches a guest, neither post, id nor comment. */
  lemma GuestSeesNothingHidden(w: Wall, since: int, wire: bool, r: Room, q: Post)
    requires Answers(w, since, Viewer(false, wire), r) && Distinct(w.posts) && q in r.posts
    ensures q.id in r.ids && q.state == Approved && !q.deleted && q.act > since
    ensures forall c :: c in q.comments ==> c.state == Approved
    ensures forall p :: p in w.posts && (p.state == Hidden || p.deleted) ==> p.id != q.id && p.id !in r.ids
  {
    var who := Viewer(false, wire);
    AnswersGive(w, since, who, r);
    var i :| 0 <= i < |w.posts| && SentAs(w.posts[i], who, q);
    assert NamesAndSends(w.posts[i], since, false, r);
    ReadableAreNot(w.posts[i].comments);
    forall p | p in w.posts && (p.state == Hidden || p.deleted) ensures p.id != q.id && p.id !in r.ids {
      var j :| 0 <= j < |w.posts| && w.posts[j] == p;
      assert NamesAndSends(w.posts[j], since, false, r);
    }
  }

  lemma {:induction false} ReadableAreNot(comments: seq<Comment>)
    ensures forall c :: c in Readable(comments, false) ==> c.state != Hidden
  {
    if comments != [] {
      ReadableAreNot(comments[1..]);
    }
  }

  // ---------------------------------------------------------------- cursors

  /** Every post at or behind the cursor is still as it was when the cursor was taken. */
  ghost predicate Behind(w: Wall, next: Wall, cursor: int) {
    && |w.posts| <= |next.posts| && next.lastActivity >= cursor
    && (forall i :: 0 <= i < |w.posts| ==> next.posts[i].id == w.posts[i].id)
    && (forall i :: 0 <= i < |next.posts| && next.posts[i].act <= cursor ==>
                      i < |w.posts| && next.posts[i] == w.posts[i])
  }

  lemma TouchAdvances(w: Wall, i: nat, p: Post, ts: int)
    requires i < |w.posts| && p.id == w.posts[i].id && ts > w.lastActivity
    ensures Behind(w, Touched(w, i, p, ts), w.lastActivity)
  {
  }

  lemma MutationAdvances(w: Wall, l: Line)
    requires Writable(w, l)
    ensures Behind(w, Mutated(w, l), w.lastActivity)
  {
    match l
    case DeleteLine(id, ts) =>
      var i := LiveIndex(w, id);
      TouchAdvances(w, i, w.posts[i].(deleted := true), ts);
    case CommentLine(id, cid, c, ts) =>
      var i := LiveIndex(w, id);
      TouchAdvances(w, i, w.posts[i].(comments := w.posts[i].comments + [c.(cid := cid)]), ts);
    case CommentDeleteLine(id, commentId, ts) =>
      var i := LiveIndex(w, id);
      TouchAdvances(w, i, w.posts[i].(comments := WithoutComment(w.posts[i].comments, commentId)), ts);
    case ReactionLine(id, reaction, ts) =>
      var i := LiveIndex(w, id);
      TouchAdvances(w, i, Reacted(w.posts[i], reaction), ts);
    case ModLine(id, commentId, state, ts) =>
      var i := LiveIndex(w, id);
      TouchAdvances(w, i, Moderated(w.posts[i], commentId, state), ts);
    case _ =>
  }

  lemma StepAdvances(w: Wall, l: Line, next: Wall)
    requires Sane(w) && EventStore.Wrote(w, l, next)
    ensures Sane(next) && Behind(w, next, w.lastActivity)
  {
    MutationAdvances(w, l);
    MutationKeepsSane(w, l);
  }

  lemma BehindTransitive(a: Wall, b: Wall, c: Wall)
    requires Behind(a, b, a.lastActivity) && Behind(b, c, b.lastActivity) && Sane(b)
    ensures Behind(a, c, a.lastActivity)
  {
  }

  lemma OneMoreAdvances(a: Wall, b: Wall, l: Line, c: Wall)
    requires Sane(b) && Behind(a, b, a.lastActivity) && EventStore.Wrote(b, l, c)
    ensures Sane(c) && Behind(a, c, a.lastActivity)
  {
    StepAdvances(b, l, c);
    BehindTransitive(a, b, c);
  }

  lemma {:induction false} RunAdvances(ws: seq<Wall>, lines: seq<Line>, i: nat, j: nat)
    requires Ran(ws, lines) && i <= j <= |lines| && Sane(ws[i])
    ensures Sane(ws[j]) && Behind(ws[i], ws[j], ws[i].lastActivity)
  {
    if i < j {
      RunAdvances(ws, lines, i, j - 1);
      WroteAt(ws, lines, j - 1);
      OneMoreAdvances(ws[i], ws[j - 1], lines[j - 1], ws[j]);
    }
  }

  // ---------------------------------------------------------------- sync

  /** A replica of the feed as of state `w`. */
  ghost predicate Replica(w: Wall, who: Viewer, m: map<string, Post>) {
    m == Index(FeedPosts(w.posts, 0, who))
  }

  /** Where post `id` stands in the feed. */
  ghost predicate ListedAt(posts: seq<Post>, i: int, who: Viewer, id: string) {
    0 <= i < |posts| && posts[i].id == id && Listed(posts[i], who)
  }

  lemma FeedAt(posts: seq<Post>, since: int, who: Viewer, i: nat)
    requires i < |posts| && Distinct(posts) && Listed(posts[i], who) && posts[i].act > since
    ensures var m := Index(FeedPosts(posts, since, who));
            posts[i].id in m && m[posts[i].id] == Shown(posts[i], who)
  {
    var feed, p := FeedPosts(posts, since, who), Shown(posts[i], who);
    assert Fresh(posts[i], since, who);
    FeedDistinct(posts, since, who);
    FeedMember(posts, since, who, p);
    IndexMember(feed, p);
  }

  lemma FeedFrom(posts: seq<Post>, since: int, who: Viewer, id: string) returns (i: int)
    requires id in Index(FeedPosts(posts, since, who))
    ensures ListedAt(posts, i, who, id) && posts[i].act > since
    ensures Index(FeedPosts(posts, since, who))[id] == Shown(posts[i], who)
  {
    var p := Index(FeedPosts(posts, since, who))[id];
    FeedMember(posts, since, who, p);
    i :| 0 <= i < |posts| && Fresh(posts[i], since, who) && p == Shown(posts[i], who);
  }

  /** Merging the changes since the cursor into the replica gives the feed now. */
  lemma MergeIsFull(w: Wall, next: Wall, who: Viewer, previous: seq<Post>, r: Room)
    requires Sane(w) && Behind(w, next, w.lastActivity) && Distinct(next.posts)
    requires Replica(w, who, Index(previous)) && Answers(next, w.lastActivity, who, r)
    ensures Replica(next, who, Merged(previous, r.posts, r.ids))
  {
    var c := w.lastActivity;
    DistinctBefore(w, next, c);
    FeedDistinct(next.posts, c, who);
    SameIndex(FeedPosts(next.posts, c, who), r.posts);
    MergedIsWanted(w, next, who, Index(previous), r.posts, r.ids);
    WantedIsMerged(w, next, who, Index(previous), r.posts, r.ids);
    SameMap(Merged(previous, r.posts, r.ids), Index(FeedPosts(next.posts, 0, who)));
  }

  lemma SameMap(a: map<string, Post>, b: map<string, Post>)
    requires forall id :: id in a ==> id in b && b[id] == a[id]
    requires forall id :: id in b ==> id in a
    ensures a == b
  {
  }

  lemma WantedIsMerged(w: Wall, next: Wall, who: Viewer, had: map<string, Post>, changed: seq<Post>, ids: seq<string>)
    requires Sane(w) && Behind(w, next, w.lastActivity) && Distinct(next.posts) && Distinct(w.posts)
    requires Replica(w, who, had) && ids == FeedIds(next.posts, who)
    requires Index(changed) == Index(FeedPosts(next.posts, w.lastActivity, who))
    ensures forall id :: id in Index(FeedPosts(next.posts, 0, who)) ==>
                           id in Kept(had, set id | id in ids) + Index(changed)
  {
    forall id | id in Index(FeedPosts(next.posts, 0, who))
      ensures id in Kept(had, set id | id in ids) + Index(changed)
    {
      MergeComplete(w, next, who, id);
    }
  }

  lemma MergedIsWanted(w: Wall, next: Wall, who: Viewer, had: map<string, Post>, changed: seq<Post>, ids: seq<string>)
    requires Sane(w) && Behind(w, next, w.lastActivity) && Distinct(next.posts) && Distinct(w.posts)
    requires Replica(w, who, had) && ids == FeedIds(next.posts, who)
    requires Index(changed) == Index(FeedPosts(next.posts, w.lastActivity, who))
    ensures var got, want := Kept(had, set id | id in ids) + Index(changed), Index(FeedPosts(next.posts, 0, who));
            forall id :: id in got ==> id in want && want[id] == got[id]
  {
    var got, want := Kept(had, set id | id in ids) + Index(changed), Index(FeedPosts(next.posts, 0, who));
    forall id | id in got ensures id in want && want[id] == got[id] {
      if id in Index(changed) {
        ChangedIsWanted(next, w.lastActivity, who, id);
      } else {
        KeptIsWanted(w, next, who, id);
      }
    }
  }

  lemma DistinctBefore(w: Wall, next: Wall, c: int)
    requires Behind(w, next, c) && Distinct(next.posts)
    ensures Distinct(w.posts)
  {
    forall i, j | 0 <= i < j < |w.posts| ensures w.posts[i].id != w.posts[j].id {
      assert next.posts[i].id != next.posts[j].id;
    }
  }

  /** A changed post is taken from the changes. */
  lemma ChangedIsWanted(next: Wall, c: int, who: Viewer, id: string)
    requires Distinct(next.posts) && c >= 0
    requires id in Index(FeedPosts(next.posts, c, who))
    ensures id in Index(FeedPosts(next.posts, 0, who))
    ensures Index(FeedPosts(next.posts, 0, who))[id] == Index(FeedPosts(next.posts, c, who))[id]
  {
    var i := FeedFrom(next.posts, c, who, id);
    FeedAt(next.posts, 0, who, i);
  }

  /** An unchanged post that is still listed is kept as it was. */
  lemma KeptIsWanted(w: Wall, next: Wall, who: Viewer, id: string)
    requires Sane(w) && Behind(w, next, w.lastActivity) && Distinct(next.posts) && Distinct(w.posts)
    requires id in Index(FeedPosts(w.posts, 0, who)) && id in FeedIds(next.posts, who)
    requires id !in Index(FeedPosts(next.posts, w.lastActivity, who))
    ensures id in Index(FeedPosts(next.posts, 0, who))
    ensures Index(FeedPosts(next.posts, 0, who))[id] == Index(FeedPosts(w.posts, 0, who))[id]
  {
    var i := FeedFrom(w.posts, 0, who, id);
    IdMember(next.posts, who, id);
    var j :| 0 <= j < |next.posts| && Listed(next.posts[j], who) && next.posts[j].id == id;
    if next.posts[j].act > w.lastActivity {
      FeedAt(next.posts, w.lastActivity, who, j);
    }
    assert i == j by {
      assert next.posts[i].id == next.posts[j].id;
    }
    FeedAt(next.posts, 0, who, j);
  }

  lemma MergeComplete(w: Wall, next: Wall, who: Viewer, id: string)
    requires Sane(w) && Behind(w, next, w.lastActivity) && Distinct(next.posts) && Distinct(w.posts)
    requires id in Index(FeedPosts(next.posts, 0, who))
    ensures id in FeedIds(next.posts, who)
    ensures id in Index(FeedPosts(next.posts, w.lastActivity, who)) || id in Index(FeedPosts(w.posts, 0, who))
  {
    var i := FeedFrom(next.posts, 0, who, id);
    IdMember(next.posts, who, id);
    if next.posts[i].act > w.lastActivity {
      FeedAt(next.posts, w.lastActivity, who, i);
    } else {
      FeedAt(w.posts, 0, who, i);
    }
  }

  // ---------------------------------------------------------------- the peer directory

  /** One peer: its last room, if it has one. */
  class Peer {
    var room: Option<Room>

    constructor ()
      ensures room == None
    {
      room := None;
    }

    /** The cursor the next probe asks from. */
    function Since(): int
      reads this
    {
      if room.Some? then room.value.cursor else 0
    }

    /** A probe's answer, asked for from Since(). */
    method Receive(answer: Room)
      modifies this
      ensures room.Some? && room.value == answer.(posts := room.value.posts)
      ensures Index(room.value.posts) == Received(old(room), answer)
    {
      var posts := answer.posts;
      if room.Some? && room.value.cursor > 0 {
        posts := MergePosts(room.value.posts, answer.posts, answer.ids);
      }
      room := Some(answer.(posts := posts));
    }
  }

  function Received(previous: Option<Room>, answer: Room): map<string, Post> {
    if previous.Some? && previous.value.cursor > 0 then Merged(previous.value.posts, answer.posts, answer.ids)
    else Index(answer.posts)
  }

  function SinceOf(room: Option<Room>): int {
    if room.Some? then room.value.cursor else 0
  }

  /** One poll: the state it saw, the answer it got and the room the peer then held. */
  datatype Poll = Poll(at: nat, answer: Room, after: Room)

  function Before(polls: seq<Poll>, k: nat): Option<Room>
    requires k <= |polls|
  {
    if k == 0 then None else Some(polls[k - 1].after)
  }

  /** A run of polls, each asking from the cursor of the room held before it. */
  ghost predicate Polled(ws: seq<Wall>, polls: seq<Poll>) {
    forall k {:trigger PolledAt(ws, polls, k)} :: 0 <= k < |polls| ==> PolledAt(ws, polls, k)
  }

  ghost predicate PolledAt(ws: seq<Wall>, polls: seq<Poll>, k: nat)
    requires k < |polls|
  {
    && polls[k].at < |ws| && (k > 0 ==> polls[k - 1].at <= polls[k].at)
    && PolledOnce(ws[polls[k].at], Before(polls, k), polls[k].answer, polls[k].after)
  }

  ghost predicate PolledOnce(w: Wall, room: Option<Room>, answer: Room, next: Room) {
    && Answers(w, SinceOf(room), PEER, answer)
    && next.cursor == answer.cursor && Index(next.posts) == Received(room, answer)
  }

  /** The first answer, and every answer to a peer that has seen no activity, is a full feed. */
  lemma FirstIsFull(w: Wall, answer: Room)
    requires Distinct(w.posts) && Answers(w, 0, PEER, answer)
    ensures Replica(w, PEER, Index(answer.posts))
  {
    FeedDistinct(w.posts, 0, PEER);
    SameIndex(FeedPosts(w.posts, 0, PEER), answer.posts);
  }

  /** A peer holds the guest-visible feed of state `w`. */
  ghost predicate HoldsFeedOf(w: Wall, room: Room) {
    room.cursor == w.lastActivity && Replica(w, PEER, Index(room.posts))
  }

  lemma FirstPoll(w: Wall, answer: Room, next: Room)
    requires Distinct(w.posts) && PolledOnce(w, None, answer, next)
    ensures HoldsFeedOf(w, next)
  {
    FirstIsFull(w, answer);
  }

  /** A peer that held the feed of an earlier state holds the one it polls. */
  lemma NextPoll(before: Wall, w: Wall, room: Room, answer: Room, next: Room)
    requires Sane(before) && Behind(before, w, before.lastActivity) && Distinct(w.posts)
    requires HoldsFeedOf(before, room) && PolledOnce(w, Some(room), answer, next)
    ensures HoldsFeedOf(w, next)
  {
    if before.lastActivity == 0 {
      FirstIsFull(w, answer);
    } else {
      MergeIsFull(before, w, PEER, room.posts, answer);
    }
  }

  lemma DistinctAt(ws: seq<Wall>, lines: seq<Line>, i: nat)
    requires Ran(ws, lines) && Sane(ws[0]) && i <= |lines| && Distinct(ws[|lines|].posts)
    ensures Distinct(ws[i].posts)
  {
    RunAdvances(ws, lines, 0, i);
    RunAdvances(ws, lines, i, |lines|);
    DistinctBefore(ws[i], ws[|lines|], ws[i].lastActivity);
  }

  lemma PollKeeps(ws: seq<Wall>, lines: seq<Line>, polls: seq<Poll>, k: nat)
    requires Ran(ws, lines) && Sane(ws[0]) && Distinct(ws[|lines|].posts)
    requires 0 < k < |polls| && PolledAt(ws, polls, k)
    requires polls[k - 1].at < |ws| && HoldsFeedOf(ws[polls[k - 1].at], polls[k - 1].after)
    ensures HoldsFeedOf(ws[polls[k].at], polls[k].after)
  {
    var i, j := polls[k - 1].at, polls[k].at;
    RunAdvances(ws, lines, 0, i);
    RunAdvances(ws, lines, i, j);
    DistinctAt(ws, lines, j);
    NextPoll(ws[i], ws[j], polls[k - 1].after, polls[k].answer, polls[k].after);
  }

  lemma PollBegins(ws: seq<Wall>, lines: seq<Line>, polls: seq<Poll>)
    requires Ran(ws, lines) && Sane(ws[0]) && Distinct(ws[|lines|].posts)
    requires 0 < |polls| && PolledAt(ws, polls, 0)
    ensures HoldsFeedOf(ws[polls[0].at], polls[0].after)
  {
    DistinctAt(ws, lines, polls[0].at);
    FirstPoll(ws[polls[0].at], polls[0].answer, polls[0].after);
  }

  lemma AtPoll(ws: seq<Wall>, polls: seq<Poll>, k: nat)
    requires Polled(ws, polls) && k < |polls|
    ensures PolledAt(ws, polls, k)
  {
  }

  /** After every poll, whatever was mutated or missed in between, the peer holds exactly
      the guest-visible feed of the state it polled. Ids are never changed, so it is enough
      that they are distinct in the end. */
  lemma {:induction false} PeerHoldsTheFeed(ws: seq<Wall>, lines: seq<Line>, polls: seq<Poll>, k: nat)
    requires Ran(ws, lines) && Sane(ws[0]) && Distinct(ws[|lines|].posts)
    requires Polled(ws, polls) && k < |polls|
    ensures polls[k].at < |ws| && HoldsFeedOf(ws[polls[k].at], polls[k].after)
  {
    AtPoll(ws, polls, k);
    if k == 0 {
      PollBegins(ws, lines, polls);
    } else {
      PeerHoldsTheFeed(ws, lines, polls, k - 1);
      PollKeeps(ws, lines, polls, k);
    }
  }
}

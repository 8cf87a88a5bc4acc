/** The relay origin's bounded live window: which uploads a room still holds.

Unpinned ("loose") media rolls off oldest first; pinned names are rotated out of
the eviction loop's way. `Room` is the object itself, `Window` its value, and the
predicates `Stored`, `PhotoPinned`, ... say what one critical section does. */
module OriginWindow {

  const MAX_MEDIA := 512
  const MAX_PHOTOS := 32

  datatype Object = Object(body: string, contentType: string)

  datatype Window = Window(
    media: map<string, Object>,
    order: seq<string>,
    pinned: set<string>,
    sticky: set<string>,
    photos: seq<string>)

  // ---------------------------------------------------------------- names in order

  ghost predicate NoRepeats(s: seq<string>) {
    forall i, j :: 0 <= i < j < |s| ==> s[i] != s[j]
  }

  function Names(s: seq<string>): (r: set<string>)
    ensures forall n :: n in r <==> n in s
  {
    set n | n in s
  }

  /** The unpinned names, oldest first. */
  function Loose(order: seq<string>, pinned: set<string>): seq<string> {
    if order == [] then []
    else if order[0] in pinned then Loose(order[1..], pinned)
    else [order[0]] + Loose(order[1..], pinned)
  }

  /** `s` without the first occurrence of `n`. */
  function Without(s: seq<string>, n: string): seq<string> {
    if s == [] then [] else if s[0] == n then s[1..] else [s[0]] + Without(s[1..], n)
  }

  lemma {:induction false} LooseMembers(order: seq<string>, pinned: set<string>)
    ensures forall n :: n in Loose(order, pinned) <==> n in order && n !in pinned
    ensures |Loose(order, pinned)| <= |order|
  {
    if order != [] {
      LooseMembers(order[1..], pinned);
      assert order == [order[0]] + order[1..];
    }
  }

  lemma {:induction false} LooseConcat(a: seq<string>, b: seq<string>, pinned: set<string>)
    ensures Loose(a + b, pinned) == Loose(a, pinned) + Loose(b, pinned)
  {
    if a == [] {
      assert a + b == b;
    } else {
      LooseConcat(a[1..], b, pinned);
      assert (a + b)[1..] == a[1..] + b;
    }
  }

  lemma LooseOne(name: string, pinned: set<string>)
    ensures Loose([name], pinned) == if name in pinned then [] else [name]
  {
    assert [name][1..] == [];
  }

  lemma {:induction false} LooseNoRepeats(order: seq<string>, pinned: set<string>)
    requires NoRepeats(order)
    ensures NoRepeats(Loose(order, pinned))
  {
    if order != [] {
      LooseNoRepeats(order[1..], pinned);
      LooseMembers(order[1..], pinned);
    }
  }

  lemma CountNew(names: set<string>, pinned: set<string>, n: string)
    requires n !in names
    ensures |names + {n}| == |names| + 1
    ensures |(names + {n}) * pinned| == |names * pinned| + if n in pinned then 1 else 0
  {
    assert (names + {n}) * pinned == if n in pinned then names * pinned + {n} else names * pinned;
  }

  /** Without repeats, the loose names are as many as the order minus the pinned ones in it. */
  lemma {:induction false} LooseCount(order: seq<string>, pinned: set<string>)
    requires NoRepeats(order)
    ensures |Loose(order, pinned)| == |order| - |Names(order) * pinned|
    ensures |Names(order)| == |order|
  {
    if order != [] {
      LooseCount(order[1..], pinned);
      assert order == [order[0]] + order[1..];
      assert Names(order) == Names(order[1..]) + {order[0]};
      CountNew(Names(order[1..]), pinned, order[0]);
    }
  }

  lemma {:induction false} WithoutNames(s: seq<string>, n: string)
    requires NoRepeats(s)
    ensures NoRepeats(Without(s, n)) && Names(Without(s, n)) == Names(s) - {n}
  {
    if s != [] {
      WithoutNames(s[1..], n);
      assert s == [s[0]] + s[1..];
      assert s[0] !in s[1..];
      var rest := Without(s[1..], n);
      assert forall x :: x in rest <==> x in Names(rest);
      assert s[0] !in rest;
      assert NoRepeats([s[0]] + rest);
    }
  }

  /** How many pinned names stand before the first loose one. */
  ghost function LeadingPinned(order: seq<string>, pinned: set<string>): nat {
    if order == [] || order[0] !in pinned then 0 else 1 + LeadingPinned(order[1..], pinned)
  }

  lemma {:induction false} LeadingPinnedRotates(order: seq<string>, pinned: set<string>, tail: seq<string>)
    requires Loose(order, pinned) != []
    ensures LeadingPinned(order + tail, pinned) == LeadingPinned(order, pinned)
  {
    assert (order + tail)[0] == order[0];
    if order[0] in pinned {
      assert (order + tail)[1..] == order[1..] + tail;
      LeadingPinnedRotates(order[1..], pinned, tail);
    }
  }

  // ---------------------------------------------------------------- one critical section each

  /** The window invariant: order lists exactly the stored names, once each. */
  ghost predicate Consistent(w: Window) {
    NoRepeats(w.order) && Names(w.order) == w.media.Keys
  }

  /** How many of the oldest loose names make way for one new name. */
  function Excess(w: Window): nat {
    var n := |Loose(w.order, w.pinned)| + 1;
    if n > MAX_MEDIA then n - MAX_MEDIA else 0
  }

  /** What storing `name` does: a known name is replaced where it stands, a new one
      goes to the back and exactly the oldest excess loose names disappear. */
  ghost predicate Stored(w: Window, name: string, obj: Object, w': Window) {
    && Consistent(w')
    && w'.pinned == w.pinned && w'.sticky == w.sticky && w'.photos == w.photos
    && if name in w.media then
         w'.order == w.order && w'.media == w.media[name := obj]
       else
         var loose := Loose(w.order, w.pinned);
         && Excess(w) <= |loose|
         && w'.media == (w.media - Names(loose[..Excess(w)]))[name := obj]
         && Loose(w'.order, w.pinned) == loose[Excess(w)..] + Loose([name], w.pinned)
  }

  /** The eviction loop's state after the `gone` oldest loose names have left. */
  ghost predicate Evicting(order: seq<string>, media: map<string, Object>, pinned: set<string>,
                           name: string, loose: seq<string>, gone: nat)
  {
    && gone <= |loose| && name !in loose
    && NoRepeats(order) && Names(order) == media.Keys + {name}
    && Loose(order, pinned) == loose[gone..] + Loose([name], pinned)
  }

  lemma SomeLoose(order: seq<string>, media: map<string, Object>, pinned: set<string>,
                  name: string, loose: seq<string>, gone: nat)
    requires Evicting(order, media, pinned, name, loose, gone) && gone < |loose|
    ensures order != []
  {
    LooseMembers(order, pinned);
  }

  lemma DropOne(media: map<string, Object>, gone: set<string>, oldest: string)
    ensures media - gone - {oldest} == media - (gone + {oldest})
  {
  }

  lemma RotatePinned(order: seq<string>, media: map<string, Object>, pinned: set<string>,
                     name: string, loose: seq<string>, gone: nat)
    requires Evicting(order, media, pinned, name, loose, gone) && gone < |loose|
    requires order != [] && order[0] in pinned
    ensures Evicting(order[1..] + [order[0]], media, pinned, name, loose, gone)
    ensures LeadingPinned(order[1..] + [order[0]], pinned) < LeadingPinned(order, pinned)
  {
    var rest := order[1..];
    assert order == [order[0]] + rest;
    assert Loose(rest, pinned) == Loose(order, pinned);
    LeadingPinnedRotates(rest, pinned, [order[0]]);
    LooseConcat(rest, [order[0]], pinned);
    LooseOne(order[0], pinned);
    assert forall n :: n in Names(order) <==> n in Names(rest + [order[0]]);
  }

  lemma DropOldest(order: seq<string>, media: map<string, Object>, pinned: set<string>,
                   name: string, loose: seq<string>, gone: nat)
    requires Evicting(order, media, pinned, name, loose, gone) && gone < |loose|
    requires order != [] && order[0] !in pinned
    ensures order[0] == loose[gone] && order[0] != name
    ensures Evicting(order[1..], media - {order[0]}, pinned, name, loose, gone + 1)
    ensures Names(loose[..gone + 1]) == Names(loose[..gone]) + {order[0]}
  {
    var rest := order[1..];
    assert order == [order[0]] + rest;
    assert Loose(order, pinned)[0] == order[0];
    assert Loose(rest, pinned) == Loose(order, pinned)[1..];
    assert loose[gone + 1..] == loose[gone..][1..];
    assert Loose(rest, pinned) == loose[gone + 1..] + Loose([name], pinned);
    assert order[0] !in rest;
    assert forall n :: n in Names(rest) <==> n in Names(order) && n != order[0];
    assert loose[..gone + 1] == loose[..gone] + [loose[gone]];
  }

  lemma StartEvicting(w: Window, name: string)
    requires Consistent(w) && name !in w.media
    ensures Evicting(w.order + [name], w.media, w.pinned, name, Loose(w.order, w.pinned), 0)
    ensures |w.order| + 1 - |w.media.Keys * w.pinned| == |Loose(w.order, w.pinned)| + 1
  {
    LooseCount(w.order, w.pinned);
    LooseMembers(w.order, w.pinned);
    LooseConcat(w.order, [name], w.pinned);
    NamesSnoc(w.order, name);
  }

  lemma NamesSnoc(order: seq<string>, name: string)
    ensures Names(order + [name]) == Names(order) + {name}
  {
  }

  lemma EvictedThenStored(w: Window, name: string, obj: Object, order: seq<string>, media: map<string, Object>)
    requires name !in w.media
    requires Evicting(order, media, w.pinned, name, Loose(w.order, w.pinned), Excess(w))
    requires media == w.media - Names(Loose(w.order, w.pinned)[..Excess(w)])
    ensures Stored(w, name, obj, w.(order := order, media := media[name := obj]))
  {
    assert media[name := obj].Keys == media.Keys + {name};
  }

  function DropPhotoSpec(w: Window, name: string): Window {
    w.(media := w.media - {name}, pinned := w.pinned - {name},
       photos := Without(w.photos, name), order := Without(w.order, name))
  }

  /** Trimming the photo list to its cap removes the oldest photos entirely. */
  function TrimPhotos(w: Window): Window
    decreases |w.photos|
  {
    if |w.photos| <= MAX_PHOTOS then w
    else
      var oldest := w.photos[0];
      TrimPhotos(w.(photos := w.photos[1..], pinned := w.pinned - {oldest},
                    media := w.media - {oldest}, order := Without(w.order, oldest)))
  }

  function PinPhotoSpec(w: Window, name: string): Window {
    TrimPhotos(w.(pinned := w.pinned + {name}, photos := w.photos + [name]))
  }

  function PinSpec(w: Window, names: seq<string>): Window {
    w.(pinned := w.sticky + (Names(names) - {""}))
  }

  function PinStickySpec(w: Window, name: string): Window {
    if name == "" then w else w.(sticky := w.sticky + {name}, pinned := w.pinned + {name})
  }

  lemma DropKeepsConsistent(w: Window, name: string)
    requires Consistent(w)
    ensures Consistent(DropPhotoSpec(w, name))
  {
    WithoutNames(w.order, name);
  }

  lemma {:induction false} TrimKeepsConsistent(w: Window)
    requires Consistent(w)
    ensures Consistent(TrimPhotos(w))
    decreases |w.photos|
  {
    if |w.photos| > MAX_PHOTOS {
      WithoutNames(w.order, w.photos[0]);
      TrimKeepsConsistent(w.(photos := w.photos[1..], pinned := w.pinned - {w.photos[0]},
                             media := w.media - {w.photos[0]}, order := Without(w.order, w.photos[0])));
    }
  }

  // ---------------------------------------------------------------- the room object

  class Room {
    var media: map<string, Object>
    var order: seq<string>
    var pinned: set<string>
    var sticky: set<string>
    var photos: seq<string>
    var playlistName: string
    var playlist: string
    var version: nat

    ghost function Value(): Window
      reads this
    {
      Window(media, order, pinned, sticky, photos)
    }

    ghost predicate Valid()
      reads this
    {
      Consistent(Value())
    }

    constructor ()
      ensures Valid()
      ensures Value() == Window(map[], [], {"index.html"}, {}, [])
      ensures playlist == "" && version == 0
    {
      media, order, pinned, sticky, photos := map[], [], {"index.html"}, {}, [];
      playlistName, playlist, version := "", "", 0;
    }

    /** Pinned names that are stored, counted one by one. */
    method PinnedCount() returns (n: nat)
      ensures n == |media.Keys * pinned|
    {
      n := 0;
      var rest := pinned;
      var counted: set<string> := {};
      while rest != {}
        invariant rest <= pinned
        invariant counted == media.Keys * (pinned - rest)
        invariant n == |counted|
        decreases rest
      {
        var name :| name in rest;
        rest := rest - {name};
        if name in media {
          counted := counted + {name};
          n := n + 1;
        }
      }
      assert media.Keys * pinned == counted;
    }

    /** The eviction loop: the oldest loose names go, pinned ones rotate to the back. */
    method EvictLoose(name: string, evictable: nat, ghost w: Window)
      requires evictable == |Loose(w.order, w.pinned)| + 1
      requires Evicting(order, media, pinned, name, Loose(w.order, w.pinned), 0)
      requires media == w.media && pinned == w.pinned
      modifies `media, `order
      ensures Evicting(order, media, w.pinned, name, Loose(w.order, w.pinned), Excess(w))
      ensures media == w.media - Names(Loose(w.order, w.pinned)[..Excess(w)])
    {
      var left := evictable;
      ghost var gone, loose := 0, Loose(w.order, w.pinned);
      assert media == w.media - Names(loose[..0]);
      while left > MAX_MEDIA
        invariant left == evictable - gone && gone <= Excess(w)
        invariant Evicting(order, media, pinned, name, loose, gone)
        invariant media == w.media - Names(loose[..gone])
        decreases left, LeadingPinned(order, pinned)
      {
        SomeLoose(order, media, pinned, name, loose, gone);
        var oldest := order[0];
        if oldest in pinned {
          RotatePinned(order, media, pinned, name, loose, gone);
          order := order[1..] + [oldest];
        } else {
          DropOldest(order, media, pinned, name, loose, gone);
          DropOne(w.media, Names(loose[..gone]), oldest);
          order := order[1..];
          media := media - {oldest};
          left := left - 1;
          gone := gone + 1;
        }
      }
      assert gone == Excess(w);
    }

    method PutMedia(name: string, obj: Object)
      requires Valid()
      modifies `media, `order
      ensures Valid()
      ensures Stored(old(Value()), name, obj, Value())
    {
      ghost var w := Value();
      if name !in media {
        var held := PinnedCount();
        order := order + [name];
        StartEvicting(w, name);
        EvictLoose(name, |order| - held, w);
        EvictedThenStored(w, name, obj, order, media);
      } else {
        assert Stored(w, name, obj, w.(media := media[name := obj]));
      }
      media := media[name := obj];
    }

    /** The second critical section of storing a guest photo. */
    method PinPhoto(name: string)
      requires Valid()
      modifies `media, `order, `pinned, `photos
      ensures Valid()
      ensures Value() == PinPhotoSpec(old(Value()), name)
    {
      pinned := pinned + {name};
      photos := photos + [name];
      while |photos| > MAX_PHOTOS
        invariant Valid()
        invariant TrimPhotos(Value()) == PinPhotoSpec(old(Value()), name)
        invariant sticky == old(sticky)
        decreases |photos|
      {
        var oldest := photos[0];
        WithoutNames(order, oldest);
        photos := photos[1..];
        pinned := pinned - {oldest};
        media := media - {oldest};
        RemoveFromOrder(oldest);
      }
    }

    /** The index loop that cuts the first match out of `order`. */
    method RemoveFromOrder(name: string)
      modifies `order
      ensures order == Without(old(order), name)
    {
      var i := 0;
      while i < |order|
        invariant 0 <= i <= |order|
        invariant order == old(order)
        invariant Without(order, name) == order[..i] + Without(order[i..], name)
      {
        if order[i] == name {
          order := order[..i] + order[i + 1..];
          return;
        }
        assert order[..i + 1] == order[..i] + [order[i]];
        i := i + 1;
      }
      assert order[..i] == order;
    }

    method DropPhoto(name: string)
      requires Valid()
      modifies `media, `order, `pinned, `photos
      ensures Valid()
      ensures Value() == DropPhotoSpec(old(Value()), name)
    {
      DropKeepsConsistent(Value(), name);
      media := media - {name};
      pinned := pinned - {name};
      RemoveFromPhotos(name);
      RemoveFromOrder(name);
    }

    method RemoveFromPhotos(name: string)
      modifies `photos
      ensures photos == Without(old(photos), name)
    {
      var i := 0;
      while i < |photos| && photos[i] != name
        invariant 0 <= i <= |photos|
        invariant Without(photos, name) == photos[..i] + Without(photos[i..], name)
      {
        assert photos[..i + 1] == photos[..i] + [photos[i]];
        i := i + 1;
      }
      if i < |photos| {
        photos := photos[..i] + photos[i + 1..];
      } else {
        assert photos[..i] == photos;
      }
    }

    method Pin(names: seq<string>)
      requires Valid()
      modifies `pinned
      ensures Valid()
      ensures Value() == PinSpec(old(Value()), names)
    {
      var next := sticky;
      for i := 0 to |names|
        invariant next == sticky + (Names(names[..i]) - {""})
      {
        assert names[..i + 1] == names[..i] + [names[i]];
        if names[i] != "" {
          next := next + {names[i]};
        }
      }
      assert names[..|names|] == names;
      pinned := next;
    }

    method PinSticky(name: string)
      requires Valid()
      modifies `sticky, `pinned
      ensures Valid()
      ensures Value() == PinStickySpec(old(Value()), name)
    {
      if name != "" {
        sticky := sticky + {name};
        pinned := pinned + {name};
      }
    }

    method PutPlaylist(name: string, body: string)
      modifies `playlistName, `playlist, `version
      ensures playlistName == name && playlist == body && version == old(version) + 1
    {
      playlistName, playlist := name, body;
      version := version + 1;
    }
  }

  // ---------------------------------------------------------------- whole runs

  datatype Op =
    | PutMedia(name: string, obj: Object)
    | PinPhoto(name: string)
    | DropPhoto(name: string)
    | Pin(names: seq<string>)
    | PinSticky(name: string)

  ghost predicate Next(w: Window, op: Op, w': Window) {
    match op
    case PutMedia(name, obj) => Stored(w, name, obj, w')
    case PinPhoto(name) => w' == PinPhotoSpec(w, name)
    case DropPhoto(name) => w' == DropPhotoSpec(w, name)
    case Pin(names) => w' == PinSpec(w, names)
    case PinSticky(name) => w' == PinStickySpec(w, name)
  }

  /** A run: ws[0] is the starting window and ops[i] leads from ws[i] to ws[i + 1]. */
  ghost predicate Run(ws: seq<Window>, ops: seq<Op>) {
    && |ws| == |ops| + 1
    && forall i {:trigger ops[i]} :: 0 <= i < |ops| ==> Next(ws[i], ops[i], ws[i + 1])
  }

  lemma NextKeepsConsistent(w: Window, op: Op, w': Window)
    requires Consistent(w) && Next(w, op, w')
    ensures Consistent(w')
  {
    match op
    case PutMedia(_, _) =>
    case PinPhoto(name) =>
      TrimKeepsConsistent(w.(pinned := w.pinned + {name}, photos := w.photos + [name]));
    case DropPhoto(name) => DropKeepsConsistent(w, name);
    case Pin(_) =>
    case PinSticky(_) =>
  }

  /** In every reachable window, order lists exactly the stored names without repeats. */
  lemma {:induction false} RunKeepsConsistent(ws: seq<Window>, ops: seq<Op>)
    requires Run(ws, ops) && Consistent(ws[0])
    ensures forall i :: 0 <= i < |ws| ==> Consistent(ws[i])
    decreases |ops|
  {
    if ops != [] {
      var n := |ops| - 1;
      assert ws[..n + 1][0] == ws[0];
      RunKeepsConsistent(ws[..n + 1], ops[..n]);
      assert ws[..n + 1][n] == ws[n];
      NextKeepsConsistent(ws[n], ops[n], ws[n + 1]);
      forall i | 0 <= i < |ws| ensures Consistent(ws[i]) {
        if i <= n { assert ws[..n + 1][i] == ws[i]; }
      }
    }
  }

  /** Storing never takes a pinned name or the name being stored, takes loose names
      strictly oldest first, and leaves at most 512 loose ones after a new name. */
  lemma StoreEvictsOldestLoose(w: Window, name: string, obj: Object, w': Window)
    requires Consistent(w) && Stored(w, name, obj, w')
    ensures name in w'.media && w'.media[name] == obj
    ensures forall n :: n in w.media && n in w.pinned ==> n in w'.media
    ensures forall n :: n in w'.media && n != name ==> n in w.media && w'.media[n] == w.media[n]
    ensures forall i :: 0 <= i < |Loose(w.order, w.pinned)| ==>
              (Loose(w.order, w.pinned)[i] in w'.media <==> name in w.media || i >= Excess(w))
    ensures name !in w.media ==> |Loose(w'.order, w'.pinned)| <= 512
    ensures name !in w.media && |Loose(w.order, w.pinned)| < 512 ==> w.media.Keys <= w'.media.Keys
  {
    var loose := Loose(w.order, w.pinned);
    LooseMembers(w.order, w.pinned);
    LooseNoRepeats(w.order, w.pinned);
    LooseOne(name, w.pinned);
    if name !in w.media {
      var k := Excess(w);
      assert forall n :: n in loose[..k] ==> n in loose;
      forall i | 0 <= i < |loose| ensures loose[i] in loose[..k] <==> i < k {
        if i < k { assert loose[..k][i] == loose[i]; }
      }
    }
  }

  /** `op` cannot strip the protection of `name`: photo traffic uses other names, and a
      playlist's pin set lists it unless it is sticky. */
  ghost predicate Respects(op: Op, name: string) {
    match op
    case PutMedia(_, _) => true
    case PinPhoto(n) => n != name
    case DropPhoto(n) => n != name
    case Pin(names) => name in names
    case PinSticky(_) => true
  }

  ghost predicate Protected(w: Window, name: string) {
    name != "" && name in w.media && name in w.pinned && name !in w.photos
  }

  lemma {:induction false} TrimKeepsOthers(w: Window, name: string)
    requires name !in w.photos
    ensures name in w.media ==> name in TrimPhotos(w).media
    ensures name in w.pinned ==> name in TrimPhotos(w).pinned
    ensures TrimPhotos(w).sticky == w.sticky
    ensures name !in TrimPhotos(w).photos
    decreases |w.photos|
  {
    if |w.photos| > MAX_PHOTOS {
      var oldest := w.photos[0];
      TrimKeepsOthers(w.(photos := w.photos[1..], pinned := w.pinned - {oldest},
                         media := w.media - {oldest}, order := Without(w.order, oldest)), name);
    }
  }

  lemma {:induction false} WithoutOthers(s: seq<string>, n: string, other: string)
    requires other !in s
    ensures other !in Without(s, n)
  {
    if s != [] && s[0] != n {
      WithoutOthers(s[1..], n, other);
    }
  }

  lemma NextKeepsProtected(w: Window, op: Op, w': Window, name: string)
    requires Consistent(w) && Next(w, op, w')
    requires Protected(w, name)
    requires Respects(op, name) || (name in w.sticky && op.Pin?)
    ensures Protected(w', name)
    ensures w.sticky <= w'.sticky
  {
    match op
    case PutMedia(n, obj) => StoreEvictsOldestLoose(w, n, obj, w');
    case PinPhoto(n) =>
      TrimKeepsOthers(w.(pinned := w.pinned + {n}, photos := w.photos + [n]), name);
    case DropPhoto(n) => WithoutOthers(w.photos, n, name);
    case Pin(_) =>
    case PinSticky(_) =>
  }

  /** A protected page asset is never evicted: once stored it stays through any run whose
      photo traffic uses other names, if it is sticky or every playlist pins it
      (as the upload handler does for index.html). */
  lemma {:induction false} ProtectedNeverEvicted(ws: seq<Window>, ops: seq<Op>, name: string)
    requires Run(ws, ops) && Consistent(ws[0])
    requires Protected(ws[0], name)
    requires forall i :: 0 <= i < |ops| ==>
                           Respects(ops[i], name) || (name in ws[0].sticky && ops[i].Pin?)
    ensures forall i :: 0 <= i < |ws| ==> Protected(ws[i], name) && ws[0].sticky <= ws[i].sticky
    decreases |ops|
  {
    RunKeepsConsistent(ws, ops);
    if ops != [] {
      var n := |ops| - 1;
      var init := ws[..n + 1];
      assert init[0] == ws[0];
      ProtectedNeverEvicted(init, ops[..n], name);
      assert init[n] == ws[n];
      NextKeepsProtected(ws[n], ops[n], ws[n + 1], name);
      forall i | 0 <= i < |ws| ensures Protected(ws[i], name) && ws[0].sticky <= ws[i].sticky {
        if i <= n { assert init[i] == ws[i]; }
      }
    }
  }
}

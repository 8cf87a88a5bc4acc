/** What each operation on the relay origin's window changes, read off its fields. */
module WindowEffects {
  import opened OriginWindow

  // ---------------------------------------------------------------- photos

  /** How many of the oldest photos are over the cap of 32. */
  function Over(photos: seq<string>): nat {
    if |photos| > 32 then |photos| - 32 else 0
  }

  /** `next` is `w` with these names gone from the store, the pins and the order, the rest of
      the order standing as it was. */
  ghost predicate Gone(w: Window, names: set<string>, next: Window) {
    && next.media == w.media - names && next.pinned == w.pinned - names && next.sticky == w.sticky
    && next.order == Loose(w.order, names)
  }

  lemma {:induction false} WithoutThenLoose(order: seq<string>, n: string, names: set<string>)
    requires NoRepeats(order)
    ensures Loose(Without(order, n), names) == Loose(order, names + {n})
  {
    if order != [] {
      if order[0] == n {
        LooseAbsent(order[1..], n, names);
      } else {
        WithoutThenLoose(order[1..], n, names);
      }
    }
  }

  lemma {:induction false} LooseAbsent(order: seq<string>, n: string, names: set<string>)
    requires n !in order
    ensures Loose(order, names + {n}) == Loose(order, names)
  {
    if order != [] {
      LooseAbsent(order[1..], n, names);
    }
  }

  lemma {:induction false} NothingGone(order: seq<string>)
    ensures Loose(order, {}) == order
  {
    if order != [] {
      NothingGone(order[1..]);
    }
  }

  lemma GoneTwice(w: Window, n: string, names: set<string>, mid: Window, next: Window)
    requires Consistent(w) && Gone(mid, names, next)
    requires mid.media == w.media - {n} && mid.pinned == w.pinned - {n} && mid.sticky == w.sticky
    requires mid.order == Without(w.order, n)
    ensures Gone(w, names + {n}, next)
  {
    WithoutThenLoose(w.order, n, names);
    assert w.media - {n} - names == w.media - (names + {n});
  }

  lemma {:induction false} TrimEffect(w: Window)
    requires Consistent(w)
    ensures var next := TrimPhotos(w);
            next.photos == w.photos[Over(w.photos)..] && Gone(w, Names(w.photos[..Over(w.photos)]), next)
    decreases |w.photos|
  {
    if |w.photos| <= 32 {
      NothingGone(w.order);
      assert Names(w.photos[..0]) == {};
      assert w.media - {} == w.media;
    } else {
      var oldest := w.photos[0];
      var mid := w.(photos := w.photos[1..], pinned := w.pinned - {oldest}, media := w.media - {oldest},
                    order := Without(w.order, oldest));
      WithoutNames(w.order, oldest);
      TrimEffect(mid);
      var k := Over(w.photos);
      assert mid.photos[..Over(mid.photos)] == w.photos[1..k];
      assert w.photos[..k] == [oldest] + w.photos[1..k];
      assert Names(w.photos[..k]) == Names(w.photos[1..k]) + {oldest};
      GoneTwice(w, oldest, Names(w.photos[1..k]), mid, TrimPhotos(w));
    }
  }

  /** A stored guest photo is pinned and joins the photo list; of more than 32 the oldest go
      from list, store, pins and order, and nothing else does. */
  lemma PinPhotoEffect(w: Window, name: string, next: Window)
    requires Consistent(w) && Next(w, PinPhoto(name), next)
    ensures var photos := w.photos + [name];
            var gone := Names(photos[..Over(photos)]);
            && next.photos == photos[Over(photos)..]
            && Gone(w.(pinned := w.pinned + {name}), gone, next)
  {
    TrimEffect(w.(pinned := w.pinned + {name}, photos := w.photos + [name]));
  }

  /** The first of these names, if it is there, is cut out of the list. */
  ghost predicate CutOut(s: seq<string>, n: string, next: seq<string>) {
    && (n !in s ==> next == s)
    && forall k: nat :: k < |s| && s[k] == n && n !in s[..k] ==> next == s[..k] + s[k + 1..]
  }

  lemma {:induction false} WithoutNone(s: seq<string>, n: string)
    requires n !in s
    ensures Without(s, n) == s
  {
    if s != [] {
      WithoutNone(s[1..], n);
    }
  }

  lemma {:induction false} WithoutAt(s: seq<string>, n: string, k: nat)
    requires k < |s| && s[k] == n && n !in s[..k]
    ensures Without(s, n) == s[..k] + s[k + 1..]
  {
    if k > 0 {
      assert s[..k] == [s[0]] + s[1..][..k - 1];
      WithoutAt(s[1..], n, k - 1);
    }
  }

  lemma WithoutCutsOut(s: seq<string>, n: string)
    ensures CutOut(s, n, Without(s, n))
  {
    if n !in s {
      WithoutNone(s, n);
    }
    forall k: nat | k < |s| && s[k] == n && n !in s[..k] ensures Without(s, n) == s[..k] + s[k + 1..] {
      WithoutAt(s, n, k);
    }
  }

  /** A dropped photo leaves store, pins and order, and its oldest place in the photo list. */
  lemma DropPhotoEffect(w: Window, name: string, next: Window)
    requires Consistent(w) && Next(w, DropPhoto(name), next)
    ensures Gone(w, {name}, next) && CutOut(w.photos, name, next.photos)
  {
    WithoutThenLoose(w.order, name, {});
    NothingGone(Without(w.order, name));
    assert {} + {name} == {name};
    WithoutCutsOut(w.photos, name);
  }

  // ---------------------------------------------------------------- pins

  /** A playlist's pin set replaces the old one, sticky assets apart. */
  lemma PinEffect(w: Window, names: seq<string>, next: Window)
    requires Next(w, Pin(names), next)
    ensures forall n :: n in next.pinned <==> n in w.sticky || (n in names && n != "")
    ensures next.media == w.media && next.order == w.order && next.sticky == w.sticky && next.photos == w.photos
  {
  }

  /** A sticky asset is pinned now and by every later pin set. */
  lemma PinStickyEffect(w: Window, name: string, next: Window, names: seq<string>, later: Window)
    requires Next(w, PinSticky(name), next) && Next(next, Pin(names), later) && name != ""
    ensures name in next.pinned && name in later.pinned && next.sticky == w.sticky + {name}
    ensures next.pinned == w.pinned + {name}
    ensures next.media == w.media && next.order == w.order && next.photos == w.photos
  {
  }

  /** The empty name is never pinned. */
  lemma EmptyIsNotPinned(w: Window, next: Window)
    requires Next(w, PinSticky(""), next)
    ensures next == w
  {
  }
}

/** How long an upload stays in a room's live window, and what never leaves a room that was
new when it began. */
module LiveWindow {
  import opened OriginWindow

  // ---------------------------------------------------------------- how many are newer

  /** How many names stand after `name`. */
  function After(s: seq<string>, name: string): nat {
    if s == [] then 0 else if s[0] == name then |s| - 1 else After(s[1..], name)
  }

  function Newer(w: Window, name: string): nat {
    After(Loose(w.order, w.pinned), name)
  }

  lemma {:induction false} AfterIs(s: seq<string>, name: string, i: nat)
    requires NoRepeats(s) && i < |s| && s[i] == name
    ensures After(s, name) == |s| - 1 - i
  {
    if i > 0 {
      AfterIs(s[1..], name, i - 1);
    }
  }

  /** The stored names that a new pin set no longer protects. */
  function Unpinned(w: Window, pinned: set<string>): set<string> {
    Names(w.order) * (w.pinned - pinned)
  }

  /** What an operation can cost the names before it: one for a new upload, and one for every
      stored name that loses its pin. */
  function Cost(w: Window, op: Op): nat {
    match op
    case PutMedia(_, _) => 1
    case Pin(names) => |Unpinned(w, PinSpec(w, names).pinned)|
    case _ => 0
  }

  /** `name` is stored and either pinned or far enough from eviction for a cost of `left`. */
  predicate Safe(w: Window, name: string, left: nat) {
    name in w.media && (name in w.pinned || Newer(w, name) + left < MAX_MEDIA)
  }

  /** The operation neither unpins `name` nor treats it as a guest photo. */
  ghost predicate Leaves(w: Window, op: Op, name: string) {
    match op
    case PutMedia(_, _) => true
    case PinPhoto(n) => n != name
    case DropPhoto(n) => n != name
    case Pin(names) => name in w.pinned ==> name in PinSpec(w, names).pinned
    case PinSticky(_) => true
  }

  // ---------------------------------------------------------------- what each operation does to it

  /** Under another pin set at most the unpinned names come to stand after `name`. */
  lemma {:induction false} RepinAfter(order: seq<string>, p: set<string>, q: set<string>, name: string)
    requires NoRepeats(order) && name in order && name !in p && name !in q
    ensures After(Loose(order, q), name) <= After(Loose(order, p), name) + |Names(order) * (p - q)|
    decreases |order|
  {
    var rest := order[1..];
    assert order == [order[0]] + rest && forall n :: n in Names(order) <==> n == order[0] || n in Names(rest);
    if order[0] == name {
      LooseGrows(rest, p, q);
      assert Names(order) * (p - q) == Names(rest) * (p - q);
    } else {
      RepinAfter(rest, p, q, name);
      FewerUnpinned(rest, order, p - q);
    }
  }

  lemma FewerUnpinned(rest: seq<string>, order: seq<string>, lost: set<string>)
    requires forall n :: n in Names(rest) ==> n in Names(order)
    ensures |Names(rest) * lost| <= |Names(order) * lost|
  {
    var more := Names(order) * lost;
    assert more == Names(rest) * lost + (more - Names(rest) * lost);
  }

  /** A list of loose names grows by at most the unpinned ones. */
  lemma {:induction false} LooseGrows(order: seq<string>, p: set<string>, q: set<string>)
    requires NoRepeats(order)
    ensures |Loose(order, q)| <= |Loose(order, p)| + |Names(order) * (p - q)|
    decreases |order|
  {
    if order != [] {
      var rest := order[1..];
      assert order == [order[0]] + rest && order[0] !in rest;
      LooseGrows(rest, p, q);
      OneMoreName(rest, order[0], p - q);
      assert Names(order) == Names(rest) + {order[0]};
    }
  }

  lemma OneMoreName(rest: seq<string>, n: string, lost: set<string>)
    requires n !in rest
    ensures |(Names(rest) + {n}) * lost| == |Names(rest) * lost| + if n in lost then 1 else 0
  {
    CountNew(Names(rest), lost, n);
  }

  /** Taking another name out brings nothing behind `name`. */
  lemma {:induction false} WithoutAfter(order: seq<string>, p: set<string>, n: string, name: string)
    requires NoRepeats(order) && name in order && n != name && name !in p
    ensures name in Without(order, n)
    ensures After(Loose(Without(order, n), p - {n}), name) <= After(Loose(order, p), name)
    decreases |order|
  {
    var rest := order[1..];
    assert order == [order[0]] + rest && order[0] !in rest;
    if order[0] == n {
      SamePins(rest, p, n);
    } else if order[0] == name {
      WithoutShrinks(rest, p, n);
      assert Without(order, n)[1..] == Without(rest, n);
    } else {
      WithoutAfter(rest, p, n, name);
      assert Without(order, n)[1..] == Without(rest, n);
    }
  }

  lemma {:induction false} SamePins(order: seq<string>, p: set<string>, n: string)
    requires n !in order
    ensures Loose(order, p - {n}) == Loose(order, p)
  {
    if order != [] {
      assert order[0] in order && forall x :: x in order[1..] ==> x in order;
      SamePins(order[1..], p, n);
    }
  }

  lemma {:induction false} WithoutShrinks(order: seq<string>, p: set<string>, n: string)
    requires NoRepeats(order)
    ensures |Loose(Without(order, n), p - {n})| <= |Loose(order, p)|
    decreases |order|
  {
    if order != [] {
      var rest := order[1..];
      assert order == [order[0]] + rest && order[0] !in rest;
      if order[0] == n {
        SamePins(rest, p, n);
      } else {
        WithoutShrinks(rest, p, n);
        assert Without(order, n)[1..] == Without(rest, n);
      }
    }
  }

  lemma PutKeepsSafe(w: Window, name: string, n: string, obj: Object, w': Window, left: nat)
    requires Consistent(w) && Stored(w, n, obj, w') && Safe(w, name, left) && left > 0
    ensures Safe(w', name, left - 1)
  {
    StoreEvictsOldestLoose(w, n, obj, w');
    if name !in w.pinned && n !in w.media {
      var loose, k := Loose(w.order, w.pinned), Excess(w);
      LooseMembers(w.order, w.pinned);
      LooseNoRepeats(w.order, w.pinned);
      LooseOne(n, w.pinned);
      var i :| 0 <= i < |loose| && loose[i] == name;
      AfterIs(loose, name, i);
      assert i >= k;
      var loose' := Loose(w'.order, w'.pinned);
      LooseNoRepeats(w'.order, w'.pinned);
      assert loose'[i - k] == name;
      AfterIs(loose', name, i - k);
    }
  }

  lemma PinKeepsSafe(w: Window, name: string, pinned: set<string>, left: nat)
    requires Consistent(w) && Safe(w, name, left) && |Unpinned(w, pinned)| <= left
    requires name in w.pinned ==> name in pinned
    ensures Safe(w.(pinned := pinned), name, left - |Unpinned(w, pinned)|)
  {
    if name !in pinned {
      RepinAfter(w.order, w.pinned, pinned, name);
    }
  }

  lemma DropKeepsSafe(w: Window, n: string, name: string, photos: seq<string>, left: nat)
    requires Consistent(w) && Safe(w, name, left) && n != name
    ensures Safe(Window(w.media - {n}, Without(w.order, n), w.pinned - {n}, w.sticky, photos), name, left)
  {
    if name !in w.pinned {
      WithoutAfter(w.order, w.pinned, n, name);
    }
  }

  lemma {:induction false} TrimKeepsSafe(w: Window, name: string, left: nat)
    requires Consistent(w) && Safe(w, name, left) && name !in w.photos
    ensures Safe(TrimPhotos(w), name, left)
    decreases |w.photos|
  {
    if |w.photos| > MAX_PHOTOS {
      var oldest := w.photos[0];
      var next := Window(w.media - {oldest}, Without(w.order, oldest), w.pinned - {oldest}, w.sticky, w.photos[1..]);
      DropKeepsSafe(w, oldest, name, w.photos[1..], left);
      WithoutNames(w.order, oldest);
      TrimKeepsSafe(next, name, left);
      assert next == w.(photos := w.photos[1..], pinned := w.pinned - {oldest},
                        media := w.media - {oldest}, order := Without(w.order, oldest));
    }
  }

  lemma MorePinsAreFree(w: Window, pinned: set<string>)
    requires w.pinned <= pinned
    ensures |Unpinned(w, pinned)| == 0
  {
    assert w.pinned - pinned == {};
  }

  lemma PhotoKeepsSafe(w: Window, n: string, name: string, left: nat)
    requires Consistent(w) && Safe(w, name, left) && name !in w.photos && n != name
    ensures Safe(PinPhotoSpec(w, n), name, left)
  {
    MorePinsAreFree(w, w.pinned + {n});
    PinKeepsSafe(w, name, w.pinned + {n}, left);
    TrimKeepsSafe(w.(pinned := w.pinned + {n}, photos := w.photos + [n]), name, left);
  }

  lemma StepKeepsSafe(w: Window, op: Op, w': Window, name: string, left: nat)
    requires Consistent(w) && Next(w, op, w') && Safe(w, name, left) && name !in w.photos
    requires Leaves(w, op, name) && Cost(w, op) <= left
    ensures Safe(w', name, left - Cost(w, op)) && name !in w'.photos
  {
    match op
    case PutMedia(n, obj) => PutKeepsSafe(w, name, n, obj, w', left);
    case PinPhoto(n) =>
      PhotoKeepsSafe(w, n, name, left);
      TrimKeepsOthers(w.(pinned := w.pinned + {n}, photos := w.photos + [n]), name);
    case DropPhoto(n) =>
      DropKeepsSafe(w, n, name, Without(w.photos, n), left);
      WithoutOthers(w.photos, n, name);
    case Pin(names) => PinKeepsSafe(w, name, PinSpec(w, names).pinned, left);
    case PinSticky(n) =>
      MorePinsAreFree(w, PinStickySpec(w, n).pinned);
      PinKeepsSafe(w, name, PinStickySpec(w, n).pinned, left);
  }

  // ---------------------------------------------------------------- the live window

  /** What the first `k` operations cost. */
  function Spent(ws: seq<Window>, ops: seq<Op>, k: nat): nat
    requires k <= |ops| < |ws|
  {
    if k == 0 then 0 else Spent(ws, ops, k - 1) + Cost(ws[k - 1], ops[k - 1])
  }

  lemma StepAt(ws: seq<Window>, ops: seq<Op>, n: nat)
    requires Run(ws, ops) && n < |ops|
    ensures Next(ws[n], ops[n], ws[n + 1])
  {
  }

  /** The live window. Through uploads, playlists, pins and photos alike, a stored name stays as
      long as the loose names after it, the uploads that follow and the pins that are lost come
      to less than 512, or as long as it is pinned itself. */
  lemma {:induction false} RecentNameSurvives(ws: seq<Window>, ops: seq<Op>, name: string, left: nat, k: nat)
    requires Run(ws, ops) && Consistent(ws[0]) && k <= |ops|
    requires Safe(ws[0], name, left) && name !in ws[0].photos && Spent(ws, ops, k) <= left
    requires forall i :: 0 <= i < k ==> Leaves(ws[i], ops[i], name)
    ensures Safe(ws[k], name, left - Spent(ws, ops, k)) && name !in ws[k].photos
  {
    if k > 0 {
      var n := k - 1;
      RecentNameSurvives(ws, ops, name, left, n);
      RunKeepsConsistent(ws, ops);
      StepAt(ws, ops, n);
      StepKeepsSafe(ws[n], ops[n], ws[k], name, left - Spent(ws, ops, n));
    }
  }

  // ---------------------------------------------------------------- from a new room on

  const NEW := Window(map[], [], {INDEX}, {}, [])
  const INDEX := "index.html"

  /** What the upload handler does: every playlist pins the guest page, and photos have names
      of their own. */
  ghost predicate Handled(op: Op, isPhoto: string -> bool) {
    match op
    case Pin(names) => INDEX in names
    case PinPhoto(n) => isPhoto(n)
    case DropPhoto(n) => isPhoto(n)
    case _ => true
  }

  ghost predicate Kept(w: Window, name: string, sticky: bool) {
    name in w.pinned && name !in w.photos && (sticky ==> name in w.sticky)
  }

  lemma HandledKeeps(w: Window, op: Op, w': Window, isPhoto: string -> bool, name: string, sticky: bool)
    requires Consistent(w) && Next(w, op, w') && Handled(op, isPhoto)
    requires Kept(w, name, sticky) && !isPhoto(name) && name != "" && (sticky || name == INDEX)
    ensures Kept(w', name, sticky)
    ensures name in w.media ==> name in w'.media
  {
    match op
    case PutMedia(n, obj) => StoreEvictsOldestLoose(w, n, obj, w');
    case PinPhoto(n) => TrimKeepsOthers(w.(pinned := w.pinned + {n}, photos := w.photos + [n]), name);
    case DropPhoto(n) => WithoutOthers(w.photos, n, name);
    case Pin(names) =>
    case PinSticky(_) =>
  }

  /** From the moment a page asset is pinned for good, storing it once keeps it: in every later
      window it is there. */
  lemma {:induction false} KeptFrom(ws: seq<Window>, ops: seq<Op>, isPhoto: string -> bool, name: string, sticky: bool,
                                    i: nat, j: nat)
    requires Run(ws, ops) && Consistent(ws[0]) && i <= j <= |ops|
    requires forall k :: 0 <= k < |ops| ==> Handled(ops[k], isPhoto)
    requires Kept(ws[i], name, sticky) && !isPhoto(name) && name != "" && (sticky || name == INDEX)
    ensures Kept(ws[j], name, sticky)
    ensures name in ws[i].media ==> name in ws[j].media
  {
    if i < j {
      var n := j - 1;
      KeptFrom(ws, ops, isPhoto, name, sticky, i, n);
      RunKeepsConsistent(ws, ops);
      StepAt(ws, ops, n);
      HandledKeeps(ws[n], ops[n], ws[j], isPhoto, name, sticky);
    }
  }

  /** The guest page: from a new room on, once uploaded it is in every later window. */
  lemma PageNeverLeaves(ws: seq<Window>, ops: seq<Op>, isPhoto: string -> bool, k: nat, j: nat)
    requires Run(ws, ops) && ws[0] == NEW && k < j <= |ops|
    requires forall i :: 0 <= i < |ops| ==> Handled(ops[i], isPhoto)
    requires !isPhoto(INDEX) && ops[k].PutMedia? && ops[k].name == INDEX
    ensures INDEX in ws[j].media
  {
    assert Loose([], {INDEX}) == [] && Names(NEW.order) == NEW.media.Keys;
    KeptFrom(ws, ops, isPhoto, INDEX, false, 0, k + 1);
    StepAt(ws, ops, k);
    RunKeepsConsistent(ws, ops);
    StoreEvictsOldestLoose(ws[k], INDEX, ops[k].obj, ws[k + 1]);
    KeptFrom(ws, ops, isPhoto, INDEX, false, k + 1, j);
  }

  /** A page asset pushed with the pin header: pinned, then stored, it is in every later window. */
  lemma AssetNeverLeaves(ws: seq<Window>, ops: seq<Op>, isPhoto: string -> bool, name: string, i: nat, k: nat, j: nat)
    requires Run(ws, ops) && ws[0] == NEW && i < k < j <= |ops|
    requires forall i :: 0 <= i < |ops| ==> Handled(ops[i], isPhoto)
    requires name != "" && !isPhoto(name)
    requires ops[i] == PinSticky(name) && ops[k].PutMedia? && ops[k].name == name
    ensures name in ws[j].media
  {
    assert Names(NEW.order) == NEW.media.Keys;
    StepAt(ws, ops, i);
    PhotosAreNamed(ws, ops, isPhoto, name, i);
    KeptFrom(ws, ops, isPhoto, name, true, i + 1, k + 1);
    StepAt(ws, ops, k);
    RunKeepsConsistent(ws, ops);
    StoreEvictsOldestLoose(ws[k], name, ops[k].obj, ws[k + 1]);
    KeptFrom(ws, ops, isPhoto, name, true, k + 1, j);
  }

  /** Only photo names are ever listed as photos. */
  lemma {:induction false} PhotosAreNamed(ws: seq<Window>, ops: seq<Op>, isPhoto: string -> bool, name: string, k: nat)
    requires Run(ws, ops) && ws[0] == NEW && k <= |ops| && !isPhoto(name)
    requires forall i :: 0 <= i < |ops| ==> Handled(ops[i], isPhoto)
    ensures name !in ws[k].photos
  {
    if k > 0 {
      var n := k - 1;
      PhotosAreNamed(ws, ops, isPhoto, name, n);
      StepAt(ws, ops, n);
      match ops[n]
      case PinPhoto(p) => TrimKeepsOthers(ws[n].(pinned := ws[n].pinned + {p}, photos := ws[n].photos + [p]), name);
      case DropPhoto(p) => WithoutOthers(ws[n].photos, p, name);
      case _ =>
    }
  }
}

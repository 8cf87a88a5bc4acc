/** The certificate store: content-addressed pair files behind one atomically renamed
manifest, and the aliases old readers open. A crash may fall between any two file operations. */
module CertStore {
  import opened Text

  /** SHA-256 in hex, and whether two PEM texts form a certificate and its key. */
  datatype Env = Env(digest: string -> string, valid: (string, string) -> bool)

  const NONE := ""

  /** The one file a pair is stored as. */
  function Combine(cert: string, key: string): string {
    (if cert != "" && cert[|cert| - 1] != '\n' then cert + "\n" else cert) + key
  }

  /** What is assumed of the digest and of PEM parsing: no collisions, and a bundle serves as
      either half of its own pair. */
  ghost predicate Sound(env: Env) {
    && (forall a, b :: Apart(env, a, b))
    && (forall c, k :: Serves(env, c, k))
  }

  predicate Apart(env: Env, a: string, b: string) {
    env.digest(a) != NONE && (env.digest(a) == env.digest(b) ==> a == b)
  }

  predicate Serves(env: Env, c: string, k: string) {
    var bundle := Combine(c, k);
    env.valid(c, k) ==> env.valid(bundle, bundle) && env.valid(bundle, k) && env.valid(c, bundle)
  }

  datatype Manifest = Missing | Broken | Named(current: string, previous: string)

  /** One of the two legacy names: nothing, an old file of its own, or a link to live-current. */
  datatype Alias = Absent | Regular(data: string) | Link

  datatype Disk = Disk(pairs: map<string, string>, manifest: Manifest, current: Option<string>, cert: Alias, key: Alias)

  // ---------------------------------------------------------------- file operations

  /** An operation the disk already satisfies changes nothing. NameCurrent keeps the former
      current generation as the previous one; Repair forgets it. */
  datatype Op =
    | WritePair(gen: string, data: string)
    | NameCurrent(gen: string)
    | Repair(gen: string)
    | PointCurrent(gen: string)
    | LinkCert
    | LinkKey

  function CurrentName(m: Manifest): string {
    if m.Named? then m.current else NONE
  }

  function Renamed(m: Manifest, gen: string): Manifest {
    if CurrentName(m) == gen then m else Named(gen, CurrentName(m))
  }

  function Apply(d: Disk, op: Op): Disk {
    match op
    case WritePair(gen, data) => d.(pairs := d.pairs[gen := data])
    case NameCurrent(gen) => d.(manifest := Renamed(d.manifest, gen))
    case Repair(gen) => d.(manifest := Named(gen, NONE))
    case PointCurrent(gen) => d.(current := Some(gen))
    case LinkCert => d.(cert := Link)
    case LinkKey => d.(key := Link)
  }

  /** The disk when the process gets through `cut` of its operations. */
  function Interrupted(d: Disk, ops: seq<Op>, cut: nat): Disk
    decreases if cut > |ops| then |ops| + 1 else cut
  {
    if cut == 0 then d
    else if cut > |ops| then Interrupted(d, ops, |ops|)
    else Apply(Interrupted(d, ops, cut - 1), ops[cut - 1])
  }

  predicate Complete(env: Env, d: Disk, gen: string) {
    gen in d.pairs && env.digest(d.pairs[gen]) == gen && env.valid(d.pairs[gen], d.pairs[gen])
  }

  predicate Refused(env: Env, d: Disk, cert: string, key: string) {
    var bundle := Combine(cert, key);
    !env.valid(cert, key) || (env.digest(bundle) in d.pairs && d.pairs[env.digest(bundle)] != bundle)
  }

  function PublishOps(env: Env, d: Disk, cert: string, key: string): seq<Op> {
    var bundle := Combine(cert, key);
    var gen := env.digest(bundle);
    if Refused(env, d, cert, key) then []
    else [WritePair(gen, bundle), NameCurrent(gen), PointCurrent(gen), LinkCert, LinkKey]
  }

  /** What opening an alias yields. */
  function Resolve(d: Disk, a: Alias): Option<string> {
    match a
    case Absent => None
    case Regular(data) => Some(data)
    case Link => if d.current.Some? && d.current.value in d.pairs then Some(d.pairs[d.current.value]) else None
  }

  predicate LegacyReadable(env: Env, d: Disk) {
    Resolve(d, d.cert).Some? && Resolve(d, d.key).Some? && env.valid(Resolve(d, d.cert).value, Resolve(d, d.key).value)
  }

  function ReadOps(env: Env, d: Disk): seq<Op> {
    match d.manifest
    case Missing =>
      if LegacyReadable(env, d) then PublishOps(env, d, Resolve(d, d.cert).value, Resolve(d, d.key).value) else []
    case Broken => []
    case Named(current, previous) =>
      if Complete(env, d, current) then [PointCurrent(current), LinkCert, LinkKey]
      else if previous == NONE || !Complete(env, d, previous) then []
      else [Repair(previous), PointCurrent(previous), LinkCert, LinkKey]
  }

  /** The generation a read serves; None is an error. */
  function ReadResult(env: Env, d: Disk): Option<string> {
    match d.manifest
    case Missing =>
      if LegacyReadable(env, d) && !Refused(env, d, Resolve(d, d.cert).value, Resolve(d, d.key).value)
      then Some(env.digest(Combine(Resolve(d, d.cert).value, Resolve(d, d.key).value)))
      else None
    case Broken => None
    case Named(current, previous) =>
      if Complete(env, d, current) then Some(current)
      else if previous != NONE && Complete(env, d, previous) then Some(previous)
      else None
  }

  // ---------------------------------------------------------------- the store, file by file

  class Store {
    const env: Env
    var pairs: map<string, string>
    var manifest: Manifest
    var current: Option<string>
    var cert: Alias
    var key: Alias
    var fuel: nat   // file operations left before the process dies

    function Value(): Disk
      reads this
    {
      Disk(pairs, manifest, current, cert, key)
    }

    constructor (env: Env, d: Disk, fuel: nat)
      ensures Value() == d && this.env == env && this.fuel == fuel
    {
      this.env, this.fuel := env, fuel;
      pairs, manifest, current, cert, key := d.pairs, d.manifest, d.current, d.cert, d.key;
    }

    /** One step of the store: look, and write only what is not there yet. */
    method Do(op: Op) returns (alive: bool)
      modifies this
      ensures alive <==> old(fuel) > 0
      ensures Value() == if alive then Apply(old(Value()), op) else old(Value())
      ensures fuel == if alive then old(fuel) - 1 else 0
    {
      if fuel == 0 {
        return false;
      }
      match op {
        case WritePair(gen, data) =>
          if gen !in pairs || pairs[gen] != data {
            pairs := pairs[gen := data];
          }
        case NameCurrent(gen) =>
          if CurrentName(manifest) != gen {
            manifest := Named(gen, CurrentName(manifest));
          }
        case Repair(gen) => manifest := Named(gen, NONE);
        case PointCurrent(gen) =>
          if current != Some(gen) {
            current := Some(gen);
          }
        case LinkCert => cert := Link;
        case LinkKey => key := Link;
      }
      fuel := fuel - 1;
      alive := true;
    }

    method UpdateAliases(gen: string) returns (alive: bool)
      modifies this
      ensures Value() == Interrupted(old(Value()), [PointCurrent(gen), LinkCert, LinkKey], old(fuel))
      ensures alive <==> old(fuel) >= 3
    {
      alive := Do(PointCurrent(gen));
      if alive {
        alive := Do(LinkCert);
      }
      if alive {
        alive := Do(LinkKey);
      }
      ghost var d, ops := old(Value()), [PointCurrent(gen), LinkCert, LinkKey];
      assert Interrupted(d, ops, 1) == Apply(Interrupted(d, ops, 0), PointCurrent(gen));
      assert Interrupted(d, ops, 2) == Apply(Interrupted(d, ops, 1), LinkCert);
    }

    /** `ok` is None when the process died before returning. */
    method Publish(certPem: string, keyPem: string) returns (ok: Option<bool>)
      modifies this
      ensures Value() == Interrupted(old(Value()), PublishOps(env, old(Value()), certPem, keyPem), old(fuel))
      ensures ok.Some? <==> old(fuel) >= |PublishOps(env, old(Value()), certPem, keyPem)|
      ensures ok.Some? ==> ok.value == !Refused(env, old(Value()), certPem, keyPem)
    {
      if !env.valid(certPem, keyPem) {
        return Some(false);
      }
      var bundle := Combine(certPem, keyPem);
      var gen := env.digest(bundle);
      if gen in pairs && pairs[gen] != bundle {
        return Some(false);
      }
      ghost var d, ops, steps := Value(), PublishOps(env, Value(), certPem, keyPem), fuel;
      assert Interrupted(d, ops, 1) == Apply(Interrupted(d, ops, 0), ops[0]);
      assert Interrupted(d, ops, 2) == Apply(Interrupted(d, ops, 1), ops[1]);
      var alive := Do(WritePair(gen, bundle));
      if alive {
        alive := Do(NameCurrent(gen));
      }
      if !alive {
        return None;
      }
      AliasesLast(d, ops, gen, steps);
      alive := UpdateAliases(gen);
      ok := if alive then Some(true) else None;
    }

    /** `served` is None when the process died before returning. */
    method Read() returns (served: Option<Option<string>>)
      modifies this
      ensures Value() == Interrupted(old(Value()), ReadOps(env, old(Value())), old(fuel))
      ensures served.Some? ==> served.value == ReadResult(env, old(Value()))
    {
      var d := Value();
      match manifest {
        case Missing =>
          var c, k := Resolve(d, cert), Resolve(d, key);
          if c.None? || k.None? || !env.valid(c.value, k.value) {
            return Some(None);
          }
          var ok := Publish(c.value, k.value);
          served := if ok.None? then None
                    else Some(if ok.value then Some(env.digest(Combine(c.value, k.value))) else None);
        case Broken => served := Some(None);
        case Named(now, before) =>
          if Complete(env, d, now) {
            var _ := UpdateAliases(now);
            return Some(Some(now));
          }
          if before == NONE || !Complete(env, d, before) {
            return Some(None);
          }
          ghost var ops, steps := ReadOps(env, d), fuel;
          assert Interrupted(d, ops, 1) == Apply(Interrupted(d, ops, 0), ops[0]);
          var alive := Do(Repair(before));
          if !alive {
            return None;
          }
          AliasesLast(d, ops, before, steps);
          alive := UpdateAliases(before);
          served := if alive then Some(Some(before)) else None;
      }
    }
  }

  /** Operations that end in the three alias updates. */
  lemma AliasesLast(d: Disk, ops: seq<Op>, gen: string, cut: nat)
    requires |ops| >= 3 && ops[|ops| - 3..] == [PointCurrent(gen), LinkCert, LinkKey] && cut >= |ops| - 3
    ensures Interrupted(d, ops, cut)
            == Interrupted(Interrupted(d, ops, |ops| - 3), [PointCurrent(gen), LinkCert, LinkKey], cut - (|ops| - 3))
  {
    var n, last := |ops| - 3, [PointCurrent(gen), LinkCert, LinkKey];
    var d0 := Interrupted(d, ops, n);
    assert ops[n] == ops[n..][0] && ops[n + 1] == ops[n..][1] && ops[n + 2] == ops[n..][2];
    assert Interrupted(d, ops, n + 1) == Interrupted(d0, last, 1);
    assert Interrupted(d, ops, n + 2) == Interrupted(d0, last, 2);
    assert Interrupted(d, ops, n + 3) == Interrupted(d0, last, 3);
  }

  // ---------------------------------------------------------------- what one call leaves behind

  function AfterPublish(env: Env, d: Disk, cert: string, key: string, cut: nat): Disk {
    Interrupted(d, PublishOps(env, d, cert, key), cut)
  }

  function Reaching(d: Disk, bundle: string, gen: string, cut: nat): Disk {
    Disk(if cut >= 1 then d.pairs[gen := bundle] else d.pairs,
         if cut >= 2 then Renamed(d.manifest, gen) else d.manifest,
         if cut >= 3 then Some(gen) else d.current,
         if cut >= 4 then Link else d.cert,
         if cut >= 5 then Link else d.key)
  }

  lemma RefusedWritesNothing(env: Env, d: Disk, cert: string, key: string, cut: nat)
    requires Refused(env, d, cert, key)
    ensures AfterPublish(env, d, cert, key, cut) == d
  {
    assert Interrupted(d, [], 0) == d;
  }

  lemma PublishReaches(env: Env, d: Disk, cert: string, key: string, cut: nat)
    requires !Refused(env, d, cert, key)
    ensures AfterPublish(env, d, cert, key, cut) == Reaching(d, Combine(cert, key), env.digest(Combine(cert, key)), cut)
  {
    var ops := PublishOps(env, d, cert, key);
    var bundle := Combine(cert, key);
    var gen := env.digest(bundle);
    assert Interrupted(d, ops, 1) == Reaching(d, bundle, gen, 1);
    assert Interrupted(d, ops, 2) == Reaching(d, bundle, gen, 2);
    assert Interrupted(d, ops, 3) == Reaching(d, bundle, gen, 3);
    assert Interrupted(d, ops, 4) == Reaching(d, bundle, gen, 4);
    assert Interrupted(d, ops, 5) == Reaching(d, bundle, gen, 5);
  }

  function Serving(d: Disk, gen: string, cut: nat): Disk {
    d.(current := if cut >= 1 then Some(gen) else d.current,
       cert := if cut >= 2 then Link else d.cert,
       key := if cut >= 3 then Link else d.key)
  }

  lemma AliasesReach(d: Disk, gen: string, cut: nat)
    ensures Interrupted(d, [PointCurrent(gen), LinkCert, LinkKey], cut) == Serving(d, gen, cut)
  {
    var ops := [PointCurrent(gen), LinkCert, LinkKey];
    assert Interrupted(d, ops, 1) == Serving(d, gen, 1);
    assert Interrupted(d, ops, 2) == Serving(d, gen, 2);
    assert Interrupted(d, ops, 3) == Serving(d, gen, 3);
  }

  function Repairing(d: Disk, gen: string, cut: nat): Disk {
    if cut == 0 then d else Serving(d.(manifest := Named(gen, NONE)), gen, cut - 1)
  }

  lemma RepairReaches(d: Disk, gen: string, cut: nat)
    ensures Interrupted(d, [Repair(gen), PointCurrent(gen), LinkCert, LinkKey], cut) == Repairing(d, gen, cut)
  {
    var ops := [Repair(gen), PointCurrent(gen), LinkCert, LinkKey];
    assert Interrupted(d, ops, 1) == Repairing(d, gen, 1);
    if cut > 0 {
      AliasesLast(d, ops, gen, cut);
      AliasesReach(Repairing(d, gen, 1), gen, cut - 1);
    }
  }

  /** The three things a read can do to the disk: migrate, serve, repair. */
  function Reads(env: Env, d: Disk, cut: nat): Disk {
    match d.manifest
    case Missing =>
      if LegacyReadable(env, d) then AfterPublish(env, d, Resolve(d, d.cert).value, Resolve(d, d.key).value, cut) else d
    case Broken => d
    case Named(current, previous) =>
      if Complete(env, d, current) then Serving(d, current, cut)
      else if previous == NONE || !Complete(env, d, previous) then d
      else Repairing(d, previous, cut)
  }

  lemma ReadReaches(env: Env, d: Disk, cut: nat)
    ensures Interrupted(d, ReadOps(env, d), cut) == Reads(env, d, cut)
  {
    if d.manifest.Named? {
      AliasesReach(d, d.manifest.current, cut);
      RepairReaches(d, d.manifest.previous, cut);
    }
  }

  // ---------------------------------------------------------------- runs with crashes and damage

  /** Besides the store's own calls, a pair file may rot or vanish. */
  datatype Event =
    | Publication(cert: string, key: string, cut: nat)
    | Reading(cut: nat)
    | Damage(gen: string, left: Option<string>)

  /** The disk, and which pair files have been damaged since they were last written. */
  datatype World = World(d: Disk, damaged: set<string>)

  /** The pair file a run of operations writes, or finds there as it should be. */
  function Secured(ops: seq<Op>, cut: nat): set<string> {
    if cut > 0 && ops != [] && ops[0].WritePair? then {ops[0].gen} else {}
  }

  function Damaged(d: Disk, gen: string, left: Option<string>): Disk {
    d.(pairs := match left case Some(data) => d.pairs[gen := data] case None => d.pairs - {gen})
  }

  function Next(env: Env, w: World, e: Event): World {
    match e
    case Publication(cert, key, cut) =>
      World(AfterPublish(env, w.d, cert, key, cut), w.damaged - Secured(PublishOps(env, w.d, cert, key), cut))
    case Reading(cut) =>
      World(Interrupted(w.d, ReadOps(env, w.d), cut), w.damaged - Secured(ReadOps(env, w.d), cut))
    case Damage(gen, left) =>
      World(Damaged(w.d, gen, left), w.damaged + {gen})
  }

  ghost predicate Run(env: Env, ws: seq<World>, es: seq<Event>) {
    && |ws| == |es| + 1
    && forall i {:trigger es[i]} :: 0 <= i < |es| ==> ws[i + 1] == Next(env, ws[i], es[i])
  }

  /** A generation whose file is complete, unless it was damaged from outside. */
  predicate Kept(env: Env, w: World, gen: string) {
    Complete(env, w.d, gen) || gen in w.damaged
  }

  ghost predicate Inv(env: Env, w: World) {
    && (w.d.manifest.Named? ==> Kept(env, w, w.d.manifest.current))
    && (w.d.manifest.Named? && w.d.manifest.previous != NONE ==> Kept(env, w, w.d.manifest.previous))
    && (w.d.current.Some? ==> Kept(env, w, w.d.current.value) && w.d.manifest.Named?)
    && (w.d.cert == Link || w.d.key == Link ==> w.d.current.Some?)
  }

  lemma Stored(env: Env, d: Disk, cert: string, key: string, cut: nat)
    requires Sound(env) && !Refused(env, d, cert, key)
    ensures env.digest(Combine(cert, key)) != NONE
    ensures cut >= 1 ==> Complete(env, AfterPublish(env, d, cert, key, cut), env.digest(Combine(cert, key)))
    ensures forall gen :: Complete(env, d, gen) ==> Complete(env, AfterPublish(env, d, cert, key, cut), gen)
  {
    PublishReaches(env, d, cert, key, cut);
    assert Serves(env, cert, key);
    assert Apart(env, Combine(cert, key), "");
  }

  lemma PublishKeepsInv(env: Env, w: World, cert: string, key: string, cut: nat)
    requires Sound(env) && Inv(env, w)
    ensures Inv(env, Next(env, w, Publication(cert, key, cut)))
  {
    if Refused(env, w.d, cert, key) {
      RefusedWritesNothing(env, w.d, cert, key, cut);
    } else {
      Stored(env, w.d, cert, key, cut);
      PublishReaches(env, w.d, cert, key, cut);
      KeptByPublish(env, w, cert, key, cut);
    }
  }

  lemma KeptByPublish(env: Env, w: World, cert: string, key: string, cut: nat)
    requires Sound(env) && !Refused(env, w.d, cert, key)
    ensures forall gen :: Kept(env, w, gen) ==> Kept(env, Next(env, w, Publication(cert, key, cut)), gen)
  {
    Stored(env, w.d, cert, key, cut);
  }

  lemma ReadKeepsInv(env: Env, w: World, cut: nat)
    requires Sound(env) && Inv(env, w)
    ensures Inv(env, Next(env, w, Reading(cut)))
  {
    ReadReaches(env, w.d, cut);
    if w.d.manifest == Missing && LegacyReadable(env, w.d) {
      PublishKeepsInv(env, w, Resolve(w.d, w.d.cert).value, Resolve(w.d, w.d.key).value, cut);
    }
  }

  lemma StepKeepsInv(env: Env, w: World, e: Event)
    requires Sound(env) && Inv(env, w)
    ensures Inv(env, Next(env, w, e))
  {
    match e
    case Publication(cert, key, cut) => PublishKeepsInv(env, w, cert, key, cut);
    case Reading(cut) => ReadKeepsInv(env, w, cut);
    case Damage(gen, left) =>
  }

  /** Through publishes, migrations, repairs, crashes and damage, the manifest and the alias
      name only pairs whose files were completely written. */
  lemma {:induction false} RunKeepsInv(env: Env, ws: seq<World>, es: seq<Event>, i: nat)
    requires Sound(env) && Run(env, ws, es) && Inv(env, ws[0]) && i <= |es|
    ensures Inv(env, ws[i])
  {
    if i > 0 {
      RunKeepsInv(env, ws, es, i - 1);
      StepKeepsInv(env, ws[i - 1], es[i - 1]);
      assert ws[i - 1 + 1] == Next(env, ws[i - 1], es[i - 1]);
    }
  }

  // ---------------------------------------------------------------- what a read serves

  /** In every run a read serves the generation the last manifest rename named, or the one
      before it when that file was damaged since; only damage to both makes it fail. */
  lemma ReadServesTheManifest(env: Env, ws: seq<World>, es: seq<Event>, i: nat)
    requires Sound(env) && Run(env, ws, es) && Inv(env, ws[0]) && i <= |es| && ws[i].d.manifest.Named?
    ensures var w, served := ws[i], ReadResult(env, ws[i].d);
            var m := w.d.manifest;
            && (m.current !in w.damaged ==> served == Some(m.current))
            && (m.previous != NONE && m.previous !in w.damaged ==>
                  served == Some(m.current) || served == Some(m.previous))
            && (served.Some? ==> Complete(env, w.d, served.value))
  {
    RunKeepsInv(env, ws, es, i);
  }

  /** Putting the pair file back alone, before the rename, brings a generation back that the
      manifest still names but whose file had gone. */
  predicate Revives(env: Env, d: Disk, gen: string) {
    && d.manifest.Named? && gen !in d.pairs
    && (d.manifest.current == gen || (!Complete(env, d, d.manifest.current) && d.manifest.previous == gen))
  }

  /** A publish cut anywhere, over any disk, leaves a store that reads as the new pair from the
      manifest rename, its second operation, on; before it the store reads as it did, except that
      the file written may already revive its own generation. */
  lemma CrashIsOldOrNew(env: Env, d: Disk, cert: string, key: string, cut: nat)
    requires Sound(env) && !Refused(env, d, cert, key)
    requires d.manifest == Missing ==> d.cert != Link && d.key != Link
    ensures var gen, after := env.digest(Combine(cert, key)), AfterPublish(env, d, cert, key, cut);
            var isNew := cut >= 2 || (cut == 1 && Revives(env, d, gen));
            && ReadResult(env, after) == (if isNew then Some(gen) else ReadResult(env, d))
            && (isNew ==> gen in after.pairs && after.pairs[gen] == Combine(cert, key))
  {
    Stored(env, d, cert, key, cut);
    PublishReaches(env, d, cert, key, cut);
    if d.manifest == Missing && LegacyReadable(env, d) {
      assert Apart(env, Combine(Resolve(d, d.cert).value, Resolve(d, d.key).value), Combine(cert, key));
    }
    if d.manifest.Named? && cut < 2 {
      OthersComplete(env, d, cert, key, cut, d.manifest.current);
      OthersComplete(env, d, cert, key, cut, d.manifest.previous);
    }
  }

  /** A publish completes its own pair file and no other. */
  lemma OthersComplete(env: Env, d: Disk, cert: string, key: string, cut: nat, gen: string)
    requires Sound(env) && !Refused(env, d, cert, key)
    ensures var own := env.digest(Combine(cert, key));
            Complete(env, AfterPublish(env, d, cert, key, cut), gen)
            <==> Complete(env, d, gen) || (cut > 0 && gen == own && gen !in d.pairs)
  {
    Stored(env, d, cert, key, cut);
    PublishReaches(env, d, cert, key, cut);
  }

  /** In particular, over a store that reads well, the crash leaves the old pair or the new one,
      bytes included. */
  lemma CrashKeepsAPair(env: Env, d: Disk, cert: string, key: string, cut: nat)
    requires Sound(env) && d.manifest.Named? && Complete(env, d, d.manifest.current)
    requires !Refused(env, d, cert, key)
    ensures var after := AfterPublish(env, d, cert, key, cut);
            var served := ReadResult(env, after);
            && served == Some(if cut < 2 then d.manifest.current else env.digest(Combine(cert, key)))
            && served.value in after.pairs
            && after.pairs[served.value] == if cut < 2 then d.pairs[d.manifest.current] else Combine(cert, key)
  {
    Stored(env, d, cert, key, cut);
    PublishReaches(env, d, cert, key, cut);
    assert Apart(env, d.pairs[d.manifest.current], Combine(cert, key));
  }

  /** A publish that returned success is what the next read serves, whatever was there before,
      and both aliases then lead to it. */
  lemma PublishedIsServed(env: Env, d: Disk, cert: string, key: string)
    requires Sound(env) && !Refused(env, d, cert, key)
    ensures var gen, after := env.digest(Combine(cert, key)), AfterPublish(env, d, cert, key, 5);
            && ReadResult(env, after) == Some(gen) && gen in after.pairs && after.pairs[gen] == Combine(cert, key)
            && Linked(after) && after.current == Some(gen)
  {
    Stored(env, d, cert, key, 5);
    PublishReaches(env, d, cert, key, 5);
  }

  /** A read may be cut anywhere, even while it migrates or repairs: reading again serves the same. */
  lemma ReadSurvivesItself(env: Env, d: Disk, cut: nat)
    requires Sound(env) && (d.manifest == Missing ==> d.cert != Link && d.key != Link)
    ensures ReadResult(env, Interrupted(d, ReadOps(env, d), cut)) == ReadResult(env, d)
  {
    ReadReaches(env, d, cut);
    if d.manifest == Missing && LegacyReadable(env, d) {
      var c, k := Resolve(d, d.cert).value, Resolve(d, d.key).value;
      if Refused(env, d, c, k) {
        RefusedWritesNothing(env, d, c, k, cut);
      } else {
        Stored(env, d, c, k, cut);
        PublishReaches(env, d, c, k, cut);
      }
    }
  }

  /** With the current file damaged, a read serves the previous pair and makes it current. */
  lemma ReadFallsBack(env: Env, d: Disk, cut: nat)
    requires d.manifest.Named? && !Complete(env, d, d.manifest.current)
    requires d.manifest.previous != NONE && Complete(env, d, d.manifest.previous) && cut > 0
    ensures ReadResult(env, d) == Some(d.manifest.previous)
    ensures Interrupted(d, ReadOps(env, d), cut).manifest == Named(d.manifest.previous, NONE)
  {
    ReadReaches(env, d, cut);
  }

  /** Publishing the same certificate again repairs its file exactly when the file is gone;
      a damaged file that is still there refuses it and the disk stays as it was. */
  lemma RepublishHealsIff(env: Env, d: Disk, cert: string, key: string)
    requires Sound(env) && env.valid(cert, key)
    requires !Complete(env, d, env.digest(Combine(cert, key)))
    ensures var gen, after := env.digest(Combine(cert, key)), AfterPublish(env, d, cert, key, 5);
            && (Complete(env, after, gen) <==> gen !in d.pairs)
            && (gen in d.pairs ==> after == d)
  {
    var bundle := Combine(cert, key);
    assert Serves(env, cert, key);
    if Refused(env, d, cert, key) {
      RefusedWritesNothing(env, d, cert, key, 5);
    } else {
      Stored(env, d, cert, key, 5);
    }
  }

  /** The key starts a line of its own behind the whole certificate. */
  lemma CombineLines(cert: string, key: string)
    ensures var bundle, at := Combine(cert, key), |Combine(cert, key)| - |key|;
            && cert <= bundle && 0 <= at <= |cert| + 1 && bundle[at..] == key
            && (at == 0 || bundle[at - 1] == '\n') && (at == |cert| + 1 ==> cert != "" && cert[|cert| - 1] != '\n')
  {
  }

  /** A store without a manifest takes over a usable legacy pair at its first read. */
  lemma LegacyIsMigrated(env: Env, d: Disk, cert: string, key: string)
    requires Sound(env) && d.manifest == Missing && d.cert == Regular(cert) && d.key == Regular(key)
    ensures var bundle, after := Combine(cert, key), Interrupted(d, ReadOps(env, d), 5);
            var gen := env.digest(bundle);
            if env.valid(cert, key) && (gen in d.pairs ==> d.pairs[gen] == bundle) then
              && ReadResult(env, d) == Some(gen) && after.manifest == Named(gen, NONE)
              && gen in after.pairs && after.pairs[gen] == bundle && Linked(after) && after.current == Some(gen)
            else ReadResult(env, d) == None && after == d
  {
    ReadReaches(env, d, 5);
    if Refused(env, d, cert, key) {
      RefusedWritesNothing(env, d, cert, key, 5);
    } else {
      PublishReaches(env, d, cert, key, 5);
      assert Apart(env, Combine(cert, key), "");
    }
  }

  // ---------------------------------------------------------------- the generation before

  /** A complete file can only hold what it was published with. */
  lemma CompleteHolds(env: Env, d: Disk, gen: string, bundle: string)
    requires Sound(env) && Complete(env, d, gen) && env.digest(bundle) == gen
    ensures d.pairs[gen] == bundle && gen != NONE
  {
    assert Apart(env, d.pairs[gen], bundle);
  }

  /** A publish keeps the generation it replaces as its reserve: when the new file is lost or
      damaged afterwards, a read serves the old pair with its old bytes. */
  lemma FormerIsServed(env: Env, d: Disk, cert: string, key: string, cut: nat, left: Option<string>)
    requires Sound(env) && !Refused(env, d, cert, key) && cut >= 2
    requires d.manifest.Named? && Complete(env, d, d.manifest.current)
    requires d.manifest.current != env.digest(Combine(cert, key)) && left != Some(Combine(cert, key))
    ensures var former, gen := d.manifest.current, env.digest(Combine(cert, key));
            var after := Damaged(AfterPublish(env, d, cert, key, cut), gen, left);
            && ReadResult(env, after) == Some(former)
            && former in after.pairs && after.pairs[former] == d.pairs[former]
  {
    PublishReaches(env, d, cert, key, cut);
    CompleteHolds(env, d, d.manifest.current, d.pairs[d.manifest.current]);
    if left.Some? {
      assert Apart(env, left.value, Combine(cert, key));
    }
  }

  /** The manifest names `former`, as current or in reserve behind `gen`. */
  ghost predicate Reserved(env: Env, d: Disk, former: string, gen: string) {
    && Complete(env, d, former) && d.manifest.Named? && former != NONE
    && (d.manifest == Named(gen, former) || d.manifest.current == former)
  }

  /** An event that leaves the file of `former` alone and names no third generation. */
  predicate LeavesFormer(env: Env, w: World, e: Event, former: string, gen: string) {
    match e
    case Damage(g, _) => g != former
    case Reading(_) => true
    case Publication(cert, key, cut) =>
      Refused(env, w.d, cert, key) || cut < 2 || env.digest(Combine(cert, key)) in {former, gen}
  }

  lemma PublishReserves(env: Env, w: World, cert: string, key: string, cut: nat, former: string, gen: string)
    requires Sound(env) && Reserved(env, w.d, former, gen)
    requires LeavesFormer(env, w, Publication(cert, key, cut), former, gen)
    ensures Reserved(env, AfterPublish(env, w.d, cert, key, cut), former, gen)
  {
    if Refused(env, w.d, cert, key) {
      RefusedWritesNothing(env, w.d, cert, key, cut);
    } else {
      Stored(env, w.d, cert, key, cut);
      PublishReaches(env, w.d, cert, key, cut);
    }
  }

  lemma StepReserves(env: Env, w: World, e: Event, former: string, gen: string)
    requires Sound(env) && Reserved(env, w.d, former, gen) && LeavesFormer(env, w, e, former, gen)
    ensures Reserved(env, Next(env, w, e).d, former, gen)
  {
    match e
    case Publication(cert, key, cut) => PublishReserves(env, w, cert, key, cut, former, gen);
    case Reading(cut) => ReadReaches(env, w.d, cut);
    case Damage(_, _) =>
  }

  /** The events after a publish, from state i on, up to state j. */
  ghost predicate FormerLeft(env: Env, ws: seq<World>, es: seq<Event>, i: nat, j: nat, former: string, gen: string)
    requires j <= |es| && j < |ws|
  {
    forall k {:trigger LeavesFormer(env, ws[k], es[k], former, gen)} :: i <= k < j ==>
      LeavesFormer(env, ws[k], es[k], former, gen)
  }

  lemma {:induction false} StaysReserved(
      env: Env, ws: seq<World>, es: seq<Event>, i: nat, j: nat, former: string, gen: string)
    requires Sound(env) && Run(env, ws, es) && i <= j <= |es| && FormerLeft(env, ws, es, i, j, former, gen)
    requires Reserved(env, ws[i].d, former, gen)
    ensures Reserved(env, ws[j].d, former, gen)
  {
    if i < j {
      StaysReserved(env, ws, es, i, j - 1, former, gen);
      assert LeavesFormer(env, ws[j - 1], es[j - 1], former, gen);
      StepReserves(env, ws[j - 1], es[j - 1], former, gen);
      assert ws[j - 1 + 1] == Next(env, ws[j - 1], es[j - 1]);
    }
  }

  /** In every run, after a publish over a complete pair: until a third generation is named, and
      as long as the old file itself is left alone, no loss, no damage, no crash and no repair
      leaves the store without one of the two pairs; with the new file incomplete a read serves
      the old pair, with the bytes it had. */
  lemma FormerIsReserve(env: Env, ws: seq<World>, es: seq<Event>, i: nat, j: nat, former: string, gen: string)
    requires Sound(env) && Run(env, ws, es) && i < j <= |es| && FormerLeft(env, ws, es, i + 1, j, former, gen)
    requires ws[i].d.manifest.Named? && ws[i].d.manifest.current == former && Complete(env, ws[i].d, former)
    requires es[i].Publication? && es[i].cut >= 2 && !Refused(env, ws[i].d, es[i].cert, es[i].key)
    requires env.digest(Combine(es[i].cert, es[i].key)) == gen
    ensures ReadResult(env, ws[j].d) in {Some(former), Some(gen)}
    ensures !Complete(env, ws[j].d, gen) ==> ReadResult(env, ws[j].d) == Some(former)
    ensures former in ws[j].d.pairs && ws[j].d.pairs[former] == ws[i].d.pairs[former]
  {
    var w, e := ws[i], es[i];
    Stored(env, w.d, e.cert, e.key, e.cut);
    PublishReaches(env, w.d, e.cert, e.key, e.cut);
    CompleteHolds(env, w.d, former, w.d.pairs[former]);
    assert ws[i + 1] == Next(env, ws[i], es[i]);
    StaysReserved(env, ws, es, i + 1, j, former, gen);
    CompleteHolds(env, ws[j].d, former, w.d.pairs[former]);
  }

  // ---------------------------------------------------------------- the aliases

  predicate Linked(d: Disk) {
    d.cert == Link && d.key == Link
  }

  lemma PublishKeepsLinks(env: Env, d: Disk, cert: string, key: string, cut: nat)
    ensures Linked(d) ==> Linked(AfterPublish(env, d, cert, key, cut))
  {
    if Refused(env, d, cert, key) {
      RefusedWritesNothing(env, d, cert, key, cut);
    } else {
      PublishReaches(env, d, cert, key, cut);
    }
  }

  lemma LinksStay(env: Env, w: World, e: Event)
    requires Linked(w.d)
    ensures Linked(Next(env, w, e).d)
  {
    match e
    case Damage(_, _) =>
    case Publication(cert, key, cut) => PublishKeepsLinks(env, w.d, cert, key, cut);
    case Reading(cut) =>
      ReadReaches(env, w.d, cut);
      if w.d.manifest == Missing && LegacyReadable(env, w.d) {
        PublishKeepsLinks(env, w.d, Resolve(w.d, w.d.cert).value, Resolve(w.d, w.d.key).value, cut);
      }
  }

  /** Once both aliases are set they stay set, and at every later point, crashes included, they
      resolve to the bundle of one generation; if its file was never damaged, to a valid pair. */
  lemma {:induction false} AliasesAgree(env: Env, ws: seq<World>, es: seq<Event>, i: nat, j: nat)
    requires Sound(env) && Run(env, ws, es) && Inv(env, ws[0]) && i <= j <= |es| && Linked(ws[i].d)
    ensures Linked(ws[j].d) && ws[j].d.current.Some?
    ensures Resolve(ws[j].d, ws[j].d.cert) == Resolve(ws[j].d, ws[j].d.key)
    ensures ws[j].d.current.value !in ws[j].damaged ==> LegacyReadable(env, ws[j].d)
  {
    RunKeepsInv(env, ws, es, j);
    if i < j {
      AliasesAgree(env, ws, es, i, j - 1);
      LinksStay(env, ws[j - 1], es[j - 1]);
      assert ws[j - 1 + 1] == Next(env, ws[j - 1], es[j - 1]);
    }
  }

  /** Before they are set for the first time they can disagree: a crash between the two links,
      while the old key file still stands alone, pairs the new certificate with that key, which
      is usable exactly when the new bundle happens to match it. */
  lemma MixedLinks(env: Env, d: Disk, cert: string, key: string, oldKey: string)
    requires !Refused(env, d, cert, key) && d.key == Regular(oldKey)
    ensures var after := AfterPublish(env, d, cert, key, 4);
            after.cert == Link && after.key == Regular(oldKey)
            && (LegacyReadable(env, after) <==> env.valid(Combine(cert, key), oldKey))
  {
    PublishReaches(env, d, cert, key, 4);
  }

  /** The first publish over a legacy pair, cut anywhere: the aliases yield a usable pair, unless
      the crash fell between the two links and the old key does not match the new bundle. */
  lemma FirstLinkGap(env: Env, d: Disk, cert: string, key: string, oldCert: string, oldKey: string, cut: nat)
    requires Sound(env) && !Refused(env, d, cert, key)
    requires d.cert == Regular(oldCert) && d.key == Regular(oldKey) && env.valid(oldCert, oldKey)
    ensures LegacyReadable(env, AfterPublish(env, d, cert, key, cut))
            <==> cut != 4 || env.valid(Combine(cert, key), oldKey)
  {
    Stored(env, d, cert, key, cut);
    PublishReaches(env, d, cert, key, cut);
    assert Serves(env, cert, key);
  }
}

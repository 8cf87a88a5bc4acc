/** The install identity: one record file under one lock, shared by every broker user on the
Mac. The identity of a record is compared by digest; digests are taken to be collision free,
so a generation is the normalised record itself. */
module InstallIdentity {
  import opened Text

  datatype Record = Record(id: string, secret: string, base: string, hostLabel: string, slug: string)

  datatype File = Missing | Unreadable | Garbage | Stored(rec: Record)

  /** A broker user: what it read or registered. */
  datatype Client = Client(id: string, secret: string, base: string, hostLabel: string)

  /** The broker's answer to a registration. */
  datatype Answer = Refusal | Registration(id: string, secret: string, base: string, hostLabel: string)

  /** Whether a base belongs to the broker in use. */
  datatype Env = Env(owns: string -> bool)

  function Label(r: Record): string {
    if r.hostLabel != "" then r.hostLabel else r.slug
  }

  function Generation(r: Record): Record {
    r.(hostLabel := Label(r), slug := "")
  }

  function RecordOf(c: Client): Record {
    Record(c.id, c.secret, c.base, c.hostLabel, "")
  }

  function ClientOf(r: Record): Client {
    Client(r.id, r.secret, r.base, Label(r))
  }

  predicate Usable(env: Env, f: File) {
    f.Stored? && f.rec.id != "" && f.rec.secret != "" && Label(f.rec) != "" && env.owns(f.rec.base)
  }

  predicate WellFormed(a: Answer) {
    a.Registration? && a.id != "" && a.secret != "" && a.base != "" && a.hostLabel != ""
  }

  function Registered(a: Answer): Record
    requires a.Registration?
  {
    Record(a.id, a.secret, a.base, a.hostLabel, "")
  }

  // ---------------------------------------------------------------- one locked section each

  /** The file afterwards, the client handed out, and whether a registration was stored. */
  datatype Outcome = Outcome(file: File, client: Option<Client>, registered: bool)

  function Register(f: File, a: Answer, writes: bool): Outcome {
    if WellFormed(a) && writes then Outcome(Stored(Registered(a)), Some(ClientOf(Registered(a))), true)
    else Outcome(f, None, false)
  }

  function Load(env: Env, f: File, a: Answer, writes: bool): Outcome {
    if Usable(env, f)
    then Outcome(if writes then Stored(Generation(f.rec)) else f, Some(ClientOf(f.rec)), false)
    else Register(f, a, writes)
  }

  function Recover(env: Env, f: File, stale: Client, a: Answer, writes: bool): Outcome {
    if Usable(env, f) && (f.rec.id != stale.id || f.rec.secret != stale.secret)
    then Outcome(f, Some(ClientOf(f.rec)), false)
    else Register(f, a, writes)
  }

  function TrimDot(s: string): string {
    if s != "" && s[|s| - 1] == '.' then s[..|s| - 1] else s
  }

  /** brokerBaseFromHost. */
  function BaseFromHost(host: string, hostLabel: string): Option<string> {
    var h, name := Trim(TrimDot(host)), Trim(TrimDot(hostLabel));
    if h == "" || name == "" || !(name + "." <= h) then None
    else
      var base := h[|name| + 1..];
      if base == "" || '/' in base then None else Some(base)
  }

  datatype Remembered = Ignored | Changed | ReadFailed | WriteFailed | Kept(base: string)

  function Remember(f: File, c: Client, host: string, writes: bool): (File, Remembered) {
    var base := BaseFromHost(host, c.hostLabel);
    if base == None then (f, Ignored)
    else if f.Stored? && f.rec.id != "" && Generation(f.rec) != Generation(RecordOf(c)) then (f, Changed)
    else if f.Unreadable? then (f, ReadFailed)
    else
      var rec := Record(c.id, c.secret, base.value, c.hostLabel, "");
      if f == Stored(rec) then (f, Kept(base.value))
      else if writes then (Stored(rec), Kept(base.value))
      else (f, WriteFailed)
  }

  /** CommitResult and CommitRelayRegistration: the callback runs only on this. */
  predicate MayCommit(f: File, generation: Record) {
    f.Stored? && Generation(f.rec) == generation
  }

  predicate ValidSnapshot(r: Record) {
    r.id != "" && r.secret != "" && Label(r) != ""
  }

  class Install {
    const env: Env
    var file: File
    var commits: nat   // callbacks run so far

    constructor (env: Env, file: File)
      ensures this.env == env && this.file == file && commits == 0
    {
      this.env, this.file, commits := env, file, 0;
    }

    method RegisterLocked(a: Answer, writes: bool) returns (c: Option<Client>, registered: bool)
      modifies this`file
      ensures Outcome(file, c, registered) == Register(old(file), a, writes)
    {
      c, registered := None, false;
      if a.Refusal? || a.id == "" || a.secret == "" || a.base == "" || a.hostLabel == "" || !writes {
        return;
      }
      file := Stored(Record(a.id, a.secret, a.base, a.hostLabel, ""));
      c, registered := Some(Client(a.id, a.secret, a.base, a.hostLabel)), true;
    }

    method LoadOrRegister(a: Answer, writes: bool) returns (c: Option<Client>, registered: bool)
      modifies this`file
      ensures Outcome(file, c, registered) == Load(env, old(file), a, writes)
    {
      if file.Stored? && file.rec.id != "" && file.rec.secret != ""
         && Label(file.rec) != "" && env.owns(file.rec.base) {
        var rec := file.rec;
        var name := Label(rec);
        if (rec.hostLabel != name || rec.slug != "") && writes {
          file := Stored(rec.(hostLabel := name, slug := ""));
        }
        return Some(Client(rec.id, rec.secret, rec.base, name)), false;
      }
      c, registered := RegisterLocked(a, writes);
    }

    method RecoverUnknown(stale: Client, a: Answer, writes: bool) returns (c: Option<Client>, registered: bool)
      modifies this`file
      ensures Outcome(file, c, registered) == Recover(env, old(file), stale, a, writes)
    {
      if file.Stored? && file.rec.id != "" && file.rec.secret != "" && Label(file.rec) != "" && env.owns(file.rec.base)
         && (file.rec.id != stale.id || file.rec.secret != stale.secret) {
        return Some(ClientOf(file.rec)), false;
      }
      c, registered := RegisterLocked(a, writes);
    }

    method RememberHost(c: Client, host: string, writes: bool) returns (r: Remembered)
      modifies this`file
      ensures (file, r) == Remember(old(file), c, host, writes)
    {
      var base := BaseFromHost(host, c.hostLabel);
      if base == None {
        return Ignored;
      }
      if file.Stored? && file.rec.id != "" {
        if Generation(file.rec) != Generation(RecordOf(c)) {
          return Changed;
        }
      } else if file.Unreadable? {
        return ReadFailed;
      }
      var rec := Record(c.id, c.secret, base.value, c.hostLabel, "");
      if file.Stored? && file.rec == rec {
        return Kept(base.value);
      }
      if !writes {
        return WriteFailed;
      }
      file := Stored(rec);
      r := Kept(base.value);
    }

    /** A result that carries no install commits directly. */
    method Commit(generation: Option<Record>) returns (ran: bool)
      modifies this`commits
      ensures ran <==> generation.None? || MayCommit(file, generation.value)
      ensures commits == old(commits) + if ran then 1 else 0
    {
      if generation.Some? {
        if !file.Stored? || Generation(file.rec) != generation.value {
          return false;
        }
      }
      commits := commits + 1;
      ran := true;
    }

    /** A relay registration has to carry the install it was made with; the callback is given
        that install's own credentials. */
    method CommitRelay(snapshot: Option<Record>) returns (ran: bool, ghost given: Option<(string, string)>)
      modifies this`commits
      ensures ran <==> snapshot.Some? && ValidSnapshot(snapshot.value) && MayCommit(file, Generation(snapshot.value))
      ensures commits == old(commits) + if ran then 1 else 0
      ensures ran ==> given == Some((snapshot.value.id, snapshot.value.secret))
                      && file.rec.id == snapshot.value.id && file.rec.secret == snapshot.value.secret
    {
      given := None;
      if snapshot.None? || !ValidSnapshot(snapshot.value) {
        return false, given;
      }
      ran := Commit(Some(Generation(snapshot.value)));
      if ran {
        given := Some((snapshot.value.id, snapshot.value.secret));
      }
    }
  }

  // ---------------------------------------------------------------- any number of broker users

  datatype Event =
    | Loading(answer: Answer, writes: bool)
    | Recovering(stale: Client, answer: Answer, writes: bool)
    | Remembering(client: Client, host: string, writes: bool)

  function Next(env: Env, f: File, e: Event): File {
    match e
    case Loading(a, writes) => Load(env, f, a, writes).file
    case Recovering(stale, a, writes) => Recover(env, f, stale, a, writes).file
    case Remembering(c, host, writes) => Remember(f, c, host, writes).0
  }

  /** The event stored a new registration. */
  predicate Registers(env: Env, f: File, e: Event) {
    match e
    case Loading(a, writes) => Load(env, f, a, writes).registered
    case Recovering(stale, a, writes) => Recover(env, f, stale, a, writes).registered
    case Remembering(_, _, _) => false
  }

  ghost predicate Run(env: Env, fs: seq<File>, es: seq<Event>) {
    && |fs| == |es| + 1
    && forall i {:trigger es[i]} :: 0 <= i < |es| ==> fs[i + 1] == Next(env, fs[i], es[i])
  }

  predicate HasIdentity(f: File) {
    f.Stored? && f.rec.id != ""
  }

  predicate SameIdentity(f: File, id: string, secret: string) {
    HasIdentity(f) && f.rec.id == id && f.rec.secret == secret
  }

  /** Only a stored registration changes the identity on file: no client, however stale, can
      put an older one back. */
  lemma IdentityChangesOnlyByRegistering(env: Env, f: File, e: Event)
    requires HasIdentity(f) && !Registers(env, f, e)
    ensures SameIdentity(Next(env, f, e), f.rec.id, f.rec.secret)
    ensures e.Remembering? && Generation(f.rec) != Generation(RecordOf(e.client)) ==> Next(env, f, e) == f
  {
  }

  // ---------------------------------------------------------------- at most one replacement

  lemma NextAt(env: Env, fs: seq<File>, es: seq<Event>, n: nat)
    requires Run(env, fs, es) && n < |es|
    ensures fs[n + 1] == Next(env, fs[n], es[n])
  {
  }

  /** A record in the form registrations and remembered hosts leave. */
  predicate WellKept(f: File) {
    HasIdentity(f) && f.rec.secret != "" && f.rec.hostLabel != "" && f.rec.slug == ""
  }

  /** What an event writes when it changes the record: a registration its answer, a remembered
      host the same client under the host's base. */
  function Leaves(e: Event): Record {
    match e
    case Loading(a, _) => if a.Registration? then Registered(a) else NOTHING
    case Recovering(_, a, _) => if a.Registration? then Registered(a) else NOTHING
    case Remembering(c, host, _) =>
      var base := BaseFromHost(host, c.hostLabel);
      if base.Some? then RecordOf(c).(base := base.value) else NOTHING
  }

  const NOTHING := Record("", "", "", "", "")

  /** On a well-kept record every event changes nothing or leaves its own record, well kept. */
  lemma LeavesIts(env: Env, f: File, e: Event)
    requires WellKept(f)
    ensures WellKept(Next(env, f, e))
    ensures Next(env, f, e) == f || Next(env, f, e) == Stored(Leaves(e))
  {
    if e.Remembering? && BaseFromHost(e.host, e.client.hostLabel).Some? {
      LabelNeeded(e.host, e.client.hostLabel);
    }
  }

  lemma LabelNeeded(host: string, name: string)
    requires BaseFromHost(host, name).Some?
    ensures name != ""
  {
  }

  lemma RegisteredIsWellKept(env: Env, f: File, e: Event)
    requires Registers(env, f, e)
    ensures WellKept(Next(env, f, e)) && Next(env, f, e) == Stored(Leaves(e))
  {
  }

  /** The refused identity, or a base that is not the broker's. */
  predicate Unusable(env: Env, r: Record, id: string, secret: string) {
    !env.owns(r.base) || (r.id == id && r.secret == secret)
  }

  lemma {:induction false} WellKeptLasts(env: Env, fs: seq<File>, es: seq<Event>, i: nat, j: nat)
    requires Run(env, fs, es) && i <= j <= |es| && WellKept(fs[i])
    ensures WellKept(fs[j])
  {
    if i < j {
      WellKeptLasts(env, fs, es, i, j - 1);
      NextAt(env, fs, es, j - 1);
      LeavesIts(env, fs[j - 1], es[j - 1]);
    }
  }

  /** Since a registration, the record on file is what the last event that changed it left. */
  lemma {:induction false} LastChange(env: Env, fs: seq<File>, es: seq<Event>, i: nat, j: nat) returns (k: nat)
    requires Run(env, fs, es) && i < j <= |es| && Registers(env, fs[i], es[i])
    ensures i <= k < j && fs[j] == Stored(Leaves(es[k]))
    ensures forall m :: k < m < j ==> fs[m + 1] == fs[m]
    ensures k == i || fs[k + 1] != fs[k]
    decreases j
  {
    var n := j - 1;
    NextAt(env, fs, es, n);
    if n == i {
      RegisteredIsWellKept(env, fs[i], es[i]);
      k := i;
    } else {
      NextAt(env, fs, es, i);
      RegisteredIsWellKept(env, fs[i], es[i]);
      WellKeptLasts(env, fs, es, i + 1, n);
      LeavesIts(env, fs[n], es[n]);
      if fs[j] == fs[n] {
        k := LastChange(env, fs, es, i, n);
      } else {
        k := n;
      }
    }
  }

  predicate Refused(e: Event, id: string, secret: string) {
    e.Recovering? && e.stale.id == id && e.stale.secret == secret
  }

  lemma RegistersOnWellKept(env: Env, f: File, e: Event, id: string, secret: string)
    requires WellKept(f) && Refused(e, id, secret) && WellFormed(e.answer) && e.writes
    ensures Registers(env, f, e) <==> Unusable(env, f.rec, id, secret)
    ensures !Registers(env, f, e) ==> Recover(env, f, e.stale, e.answer, true).client == Some(ClientOf(f.rec))
  {
  }

  /** When a user refused with an identity registers although another already replaced it:
      exactly when the last event that changed the record left a base that is not the
      broker's, or the refused identity. Otherwise it is handed the record on file. */
  lemma RegistersAgainIff(env: Env, fs: seq<File>, es: seq<Event>, i: nat, j: nat) returns (k: nat)
    requires Run(env, fs, es) && i < j < |es| && es[i].Recovering? && Registers(env, fs[i], es[i])
    requires Refused(es[j], es[i].stale.id, es[i].stale.secret) && WellFormed(es[j].answer) && es[j].writes
    ensures i <= k < j && (k == i || fs[k + 1] != fs[k]) && forall m :: k < m < j ==> fs[m + 1] == fs[m]
    ensures Registers(env, fs[j], es[j]) <==> Unusable(env, Leaves(es[k]), es[i].stale.id, es[i].stale.secret)
    ensures !Registers(env, fs[j], es[j]) ==>
              fs[j].Stored? && Recover(env, fs[j], es[j].stale, es[j].answer, true).client == Some(ClientOf(fs[j].rec))
  {
    k := LastChange(env, fs, es, i, j);
    NextAt(env, fs, es, i);
    RegisteredIsWellKept(env, fs[i], es[i]);
    WellKeptLasts(env, fs, es, i + 1, j);
    RegistersOnWellKept(env, fs[j], es[j], es[i].stale.id, es[i].stale.secret);
  }

  /** Of all the broker users refused with one identity, whatever their number and order, at
      most one registers a replacement, as long as no change of the record from the first
      replacement on leaves a base that is not the broker's, or the refused identity. */
  lemma AtMostOneReplacement(env: Env, fs: seq<File>, es: seq<Event>, i: nat, j: nat)
    requires Run(env, fs, es) && i < j < |es| && es[i].Recovering? && Registers(env, fs[i], es[i])
    requires Refused(es[j], es[i].stale.id, es[i].stale.secret)
    requires forall k :: i <= k < j && (k == i || fs[k + 1] != fs[k])
                         ==> !Unusable(env, Leaves(es[k]), es[i].stale.id, es[i].stale.secret)
    ensures !Registers(env, fs[j], es[j])
    ensures HasIdentity(fs[j])
    ensures Recover(env, fs[j], es[j].stale, es[j].answer, es[j].writes).client == Some(ClientOf(fs[j].rec))
  {
    var k := LastChange(env, fs, es, i, j);
    NextAt(env, fs, es, i);
    RegisteredIsWellKept(env, fs[i], es[i]);
    WellKeptLasts(env, fs, es, i + 1, j);
  }

  /** The first way to a second registration: the replacement itself is unusable. */
  lemma ReplacementReusedIff(env: Env, f: File, stale: Client, a: Answer, next: Answer)
    requires WellFormed(a) && WellFormed(next) && Recover(env, f, stale, a, true).registered
    ensures !Recover(env, Recover(env, f, stale, a, true).file, stale, next, true).registered
            <==> env.owns(a.base) && !(a.id == stale.id && a.secret == stale.secret)
  {
  }

  /** The second: the replacement's own client remembers a host under another broker's base. */
  lemma RememberedBaseDecides(env: Env, f: File, stale: Client, a: Answer, host: string, next: Answer)
    requires WellFormed(a) && WellFormed(next) && Recover(env, f, stale, a, true).registered
    requires !(a.id == stale.id && a.secret == stale.secret) && BaseFromHost(host, a.hostLabel).Some?
    ensures var replaced := Recover(env, f, stale, a, true);
            replaced.client.Some?
            && (Recover(env, Remember(replaced.file, replaced.client.value, host, true).0, stale, next, true).registered
                <==> !env.owns(BaseFromHost(host, a.hostLabel).value))
  {
  }

  // ---------------------------------------------------------------- commits

  /** Every registration brings an id never on file before. */
  ghost predicate FreshIds(env: Env, fs: seq<File>, es: seq<Event>)
    requires |fs| == |es| + 1
  {
    forall i, k :: 0 <= i <= k < |es| && Registers(env, fs[k], es[k]) && HasIdentity(fs[i])
                   ==> es[k].answer.id != fs[i].rec.id
  }

  lemma IdAfterOne(env: Env, f: File, e: Event, next: File)
    requires HasIdentity(f) && next == Next(env, f, e)
    ensures if Registers(env, f, e) then HasIdentity(next) && next.rec.id == e.answer.id
            else SameIdentity(next, f.rec.id, f.rec.secret)
  {
    if !Registers(env, f, e) {
      IdentityChangesOnlyByRegistering(env, f, e);
    }
  }

  lemma {:induction false} IdentityLasts(env: Env, fs: seq<File>, es: seq<Event>, i: nat, j: nat)
    requires Run(env, fs, es) && i <= j <= |es| && HasIdentity(fs[i])
    ensures HasIdentity(fs[j])
  {
    if i < j {
      IdentityLasts(env, fs, es, i, j - 1);
      NextAt(env, fs, es, j - 1);
      IdAfterOne(env, fs[j - 1], es[j - 1], fs[j]);
    }
  }

  /** Once a registration has landed, the id that was on file before is gone for good. */
  lemma {:induction false} RegisteredIdIsNew(env: Env, fs: seq<File>, es: seq<Event>, i: nat, k: nat, j: nat)
    requires Run(env, fs, es) && FreshIds(env, fs, es) && i <= k < j <= |es| && HasIdentity(fs[i])
    requires Registers(env, fs[k], es[k])
    ensures HasIdentity(fs[j]) && fs[j].rec.id != fs[i].rec.id
  {
    var n := j - 1;
    IdentityLasts(env, fs, es, i, n);
    NextAt(env, fs, es, n);
    IdAfterOne(env, fs[n], es[n], fs[n + 1]);
    if k < n {
      RegisteredIdIsNew(env, fs, es, i, k, n);
    }
  }

  /** A commit callback runs only if no registration has landed since the record that produced
      the result was on file. */
  lemma CommitMeansNoReplacement(env: Env, fs: seq<File>, es: seq<Event>, i: nat, j: nat)
    requires Run(env, fs, es) && FreshIds(env, fs, es) && i <= j <= |es| && HasIdentity(fs[i])
    requires MayCommit(fs[j], Generation(fs[i].rec))
    ensures forall k :: i <= k < j ==> !Registers(env, fs[k], es[k])
  {
    forall k | i <= k < j ensures !Registers(env, fs[k], es[k]) {
      if Registers(env, fs[k], es[k]) {
        RegisteredIdIsNew(env, fs, es, i, k, j);
      }
    }
  }

  /** A host the broker names from name and base gives the base back. */
  lemma HostGivesBase(name: string, base: string)
    requires name != "" && base != "" && '/' !in base
    requires !IsSpace(name[0]) && !IsSpace(name[|name| - 1]) && name[|name| - 1] != '.'
    requires !IsSpace(base[|base| - 1]) && base[|base| - 1] != '.'
    ensures BaseFromHost(name + "." + base, name) == Some(base)
    ensures BaseFromHost(name + "." + base + ".", name) == Some(base)
  {
    var host := name + "." + base;
    assert (host + ".")[..|host|] == host;
    assert host[|host| - 1] == base[|base| - 1] && host[0] == name[0];
    TrimIdentity(host);
    TrimIdentity(name);
    assert host[|name| + 1..] == base;
  }

  // ---------------------------------------------------------------- what loading and recovering do

  /** A record that can be used: complete, with a label under either of its names, and of the
      broker in use. */
  predicate Complete(env: Env, f: File) {
    && f.Stored? && f.rec.id != "" && f.rec.secret != "" && env.owns(f.rec.base)
    && (f.rec.hostLabel != "" || f.rec.slug != "")
  }

  /** It is handed out as it is on file, its old name only where it has no new one. */
  predicate HandsOut(f: File, c: Option<Client>) {
    && f.Stored? && c.Some? && c.value.id == f.rec.id && c.value.secret == f.rec.secret && c.value.base == f.rec.base
    && c.value.hostLabel == if f.rec.hostLabel != "" then f.rec.hostLabel else f.rec.slug
  }

  /** A registration that answers in full and is written becomes the record and is handed out;
      any other leaves the file alone and hands out nothing. */
  predicate RegistersWith(f: File, a: Answer, writes: bool, o: Outcome) {
    if a.Registration? && a.id != "" && a.secret != "" && a.base != "" && a.hostLabel != "" && writes then
      && o.registered && o.client == Some(Client(a.id, a.secret, a.base, a.hostLabel))
      && o.file == Stored(Record(a.id, a.secret, a.base, a.hostLabel, ""))
    else !o.registered && o.client == None && o.file == f
  }

  /** Loading uses the record on file if it can and registers exactly if it cannot. */
  lemma LoadUsesTheRecord(env: Env, f: File, a: Answer, writes: bool)
    ensures var o := Load(env, f, a, writes);
            if Complete(env, f) then
              && !o.registered && HandsOut(f, o.client) && o.file.Stored?
              && o.file == (if writes then Stored(f.rec.(hostLabel := o.client.value.hostLabel, slug := "")) else f)
            else RegistersWith(f, a, writes, o)
  {
  }

  /** Recovering does the same with any record but the refused one, which it replaces. */
  lemma RecoverUsesAnotherRecord(env: Env, f: File, stale: Client, a: Answer, writes: bool)
    ensures var o := Recover(env, f, stale, a, writes);
            if Complete(env, f) && !(f.rec.id == stale.id && f.rec.secret == stale.secret) then
              !o.registered && HandsOut(f, o.client) && o.file == f
            else RegistersWith(f, a, writes, o)
  {
  }

  /** In every run after a registration, a user that loads is handed what the last change of the
      record left, without registering, exactly when that belongs to the broker in use. */
  lemma LoadUsesTheLast(env: Env, fs: seq<File>, es: seq<Event>, i: nat, j: nat) returns (k: nat)
    requires Run(env, fs, es) && i < j < |es| && Registers(env, fs[i], es[i])
    requires es[j].Loading? && WellFormed(es[j].answer) && es[j].writes
    ensures i <= k < j && (k == i || fs[k + 1] != fs[k]) && forall m :: k < m < j ==> fs[m + 1] == fs[m]
    ensures Registers(env, fs[j], es[j]) <==> !env.owns(Leaves(es[k]).base)
    ensures !Registers(env, fs[j], es[j]) ==>
              Load(env, fs[j], es[j].answer, true).client == Some(ClientOf(Leaves(es[k])))
  {
    k := LastChange(env, fs, es, i, j);
    NextAt(env, fs, es, i);
    RegisteredIsWellKept(env, fs[i], es[i]);
    WellKeptLasts(env, fs, es, i + 1, j);
  }

  /** Remembering a host writes exactly the caller's own credentials under the host's base, and
      only while the record on file is theirs or names nobody. */
  lemma RememberWritesItsOwn(f: File, c: Client, host: string, writes: bool)
    ensures var r := Remember(f, c, host, writes);
            && (r.0 != f ==>
                  && writes && r.1.Kept? && BaseFromHost(host, c.hostLabel) == Some(r.1.base)
                  && r.0 == Stored(Record(c.id, c.secret, r.1.base, c.hostLabel, ""))
                  && (f.Stored? && f.rec.id != "" ==>
                        && f.rec.id == c.id && f.rec.secret == c.secret
                        && f.rec.base == c.base && Label(f.rec) == c.hostLabel))
            && (r.1.Kept? ==> r.0 == Stored(Record(c.id, c.secret, r.1.base, c.hostLabel, "")))
  {
  }
}

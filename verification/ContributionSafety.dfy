/** Over every run of the pusher against a forgetful origin: in one life of a room, at most
one stored playlist names media that life never received, plus one per lost response. */
module ContributionSafety {
  import opened Text
  import opened Readers
  import opened Contribution

  /** Manager steps that only forget: `sent` shrinks, the epoch seen stays or is dropped. */
  lemma SetEnabledKeeps(w: World, on: bool)
    requires Inv(w)
    ensures Inv(w.(m := SetEnabledSpec(w.m, on)))
  {
    var w' := w.(m := SetEnabledSpec(w.m, on));
    assert forall b :: b in w.rooms && Aligned(w, b) ==> Aligned(w', b);
    assert forall b :: b in w.rooms && AnswerPending(w, b) ==> AnswerPending(w', b);
  }

  lemma SetTargetKeeps(w: World, target: Target)
    requires Inv(w)
    ensures Inv(w.(m := AdoptSpec(w.m, target)))
  {
    var w' := w.(m := AdoptSpec(w.m, target));
    assert forall b :: b in w.rooms && Aligned(w, b) ==> Aligned(w', b);
    assert forall b :: b in w.rooms && AnswerPending(w, b) ==> AnswerPending(w', b);
  }

  lemma RecordKeeps(w: World, generation: nat, failed: bool)
    requires Inv(w) && w.cycle.Idle?
    ensures Inv(w.(m := RecordSpec(w.m, generation, failed)))
  {
    var w' := w.(m := RecordSpec(w.m, generation, failed));
    assert forall b :: b in w.rooms && Aligned(w, b) ==> Aligned(w', b);
  }

  /** Ending a cycle whose answer is not pending forgets nothing that matters. */
  lemma EndCycleKeeps(w: World)
    requires Inv(w) && (Busy(w) ==> !w.cycle.phase.Delivered?)
    ensures Inv(w.(cycle := Idle))
  {
    var w' := w.(cycle := Idle);
    assert forall b :: b in w.rooms && Aligned(w, b) ==> Aligned(w', b);
  }

  lemma ForgetsKeeps(w: World, base: string)
    requires Inv(w)
    ensures Inv(w.(rooms := w.rooms - {base}))
  {
    var w' := w.(rooms := w.rooms - {base});
    assert forall b :: b in w'.rooms ==> b in w.rooms && w'.rooms[b] == w.rooms[b];
    assert forall b :: b in w'.rooms && Aligned(w, b) ==> Aligned(w', b);
    assert forall b :: b in w'.rooms && AnswerPending(w, b) ==> AnswerPending(w', b);
  }

  lemma CreatedKeepsSense(w: World, base: string)
    requires Inv(w) && base !in w.rooms
    ensures FreshEpochs(Arrived(w, base)) && SentIsTrue(Arrived(w, base))
    ensures CycleMakesSense(Arrived(w, base))
  {
    var w' := Arrived(w, base);
    assert Count(w.bad, w.nextEpoch) == 0;
    assert forall b :: b in w.rooms ==> b in w'.rooms && w'.rooms[b] == w.rooms[b];
  }

  lemma CreatedAccounts(w: World, base: string)
    requires Inv(w) && base !in w.rooms
    ensures Accounted(Arrived(w, base))
  {
    var w' := Arrived(w, base);
    assert Count(w.bad, w.nextEpoch) == 0;
    assert forall b :: b in w.rooms ==> b in w'.rooms && w'.rooms[b] == w.rooms[b];
    assert forall b :: b in w.rooms && Aligned(w, b) ==> Aligned(w', b);
    assert forall b :: b in w.rooms && AnswerPending(w, b) ==> AnswerPending(w', b);
  }

  lemma ArrivedKeeps(w: World, base: string)
    requires Inv(w)
    ensures Inv(Arrived(w, base)) && base in Arrived(w, base).rooms
    ensures Arrived(w, base).cycle == w.cycle && Arrived(w, base).m == w.m
  {
    if base !in w.rooms {
      CreatedKeepsSense(w, base);
      CreatedAccounts(w, base);
    }
  }

  lemma BeginKeeps(w: World)
    requires Inv(w) && Enabled(w, Begin)
    ensures Inv(Step(w, Begin))
  {
    var w' := Step(w, Begin);
    assert forall b :: b in w.rooms && Aligned(w, b) ==> Aligned(w', b);
  }

  /** Changing only the phase, while `done` stays and no playlist answer is pending. */
  lemma PhaseKeeps(w: World, c: Cycle)
    requires Inv(w) && Busy(w) && !w.cycle.phase.Delivered? && !w.cycle.phase.Finishing?
    requires c.Cycle? && c.generation == w.cycle.generation && c.base == w.cycle.base && c.done == w.cycle.done
    requires forall n :: n in c.required ==> n in c.names
    requires Covered(c) && PutIsKnown(w, c)
    ensures Inv(w.(cycle := c))
  {
    var w' := w.(cycle := c);
    assert forall b :: b in w.rooms && Aligned(w, b) ==> Aligned(w', b);
    assert forall b :: b in w.rooms ==> !AnswerPending(w, b);
  }

  lemma FetchedKeeps(w: World, lines: seq<string>)
    requires Inv(w) && Enabled(w, Fetched(lines))
    ensures Inv(Step(w, Fetched(lines)))
  {
    RequiredAreNamed(lines);
    PhaseKeeps(w, Step(w, Fetched(lines)).cycle);
  }

  /** Walking past a name already sent: it is in the room wherever the room is aligned. */
  lemma SkipSentKeeps(w: World)
    requires Inv(w) && Current(w) && w.cycle.phase.Walking? && w.cycle.phase.at < |w.cycle.names|
    requires w.cycle.names[w.cycle.phase.at] in w.m.sent
    ensures Inv(Walked(w, w.cycle, true))
  {
    var w' := Walked(w, w.cycle, true);
    assert DoneUpTo(w'.cycle, UpTo(w'.cycle));
    assert forall b :: b in w.rooms && Aligned(w, b) ==> Aligned(w', b);
    assert forall b :: b in w.rooms ==> !AnswerPending(w, b);
  }

  lemma WalkKeeps(w: World, fetchOk: bool)
    requires Inv(w) && Enabled(w, Walk(fetchOk))
    ensures Inv(Step(w, Walk(fetchOk)))
  {
    var c := w.cycle;
    var w' := Walked(w, c, fetchOk);
    if w'.cycle.Idle? {
      EndCycleKeeps(w);
    } else if c.names[c.phase.at] in w.m.sent {
      SkipSentKeeps(w);
    } else {
      assert DoneUpTo(w'.cycle, UpTo(w'.cycle));
      PhaseKeeps(w, w'.cycle);
    }
  }

  lemma SendKeeps(w: World, e: Event)
    requires Inv(w) && Enabled(w, e) && (e.SendExtra? || e.SendPlaylist?)
    ensures Inv(Step(w, e))
  {
    if Current(w) {
      PhaseKeeps(w, Step(w, e).cycle);
    } else {
      EndCycleKeeps(w);
    }
  }

  /** Rooms have only received more. */
  ghost predicate Grown(w: World, w': World) {
    && w'.rooms.Keys == w.rooms.Keys
    && (forall b :: b in w.rooms ==>
          w'.rooms[b].epoch == w.rooms[b].epoch && w.rooms[b].received <= w'.rooms[b].received)
    && w'.m == w.m && w'.nextEpoch == w.nextEpoch && w'.bad == w.bad && w'.lost == w.lost && w'.late == w.late
  }

  lemma GrownIsFresh(w: World, w': World)
    requires FreshEpochs(w) && SentIsTrue(w) && Grown(w, w')
    ensures FreshEpochs(w') && SentIsTrue(w')
  {
  }

  lemma GrownAccounts(w: World, w': World)
    requires Accounted(w) && Grown(w, w')
    requires forall b :: b in w.rooms && Aligned(w, b) ==> Aligned(w', b)
    requires forall b :: b in w.rooms && AnswerPending(w, b) ==> AnswerPending(w', b)
    ensures Accounted(w')
  {
    assert forall e :: Excused(w', e) == Excused(w, e);
  }

  lemma GrownAligns(w: World, w': World)
    requires Grown(w, w') && (w'.cycle == w.cycle || SameDone(w, w'))
    ensures forall b :: b in w.rooms && Aligned(w, b) ==> Aligned(w', b)
  {
  }

  /** The cycle has only moved on to another phase. */
  predicate SameDone(w: World, w': World) {
    Busy(w) && Busy(w') && w'.cycle.base == w.cycle.base && w'.cycle.done == w.cycle.done && !w.cycle.phase.Finishing?
  }

  lemma StoredFileIsGrown(w: World)
    requires Busy(w) && w.cycle.phase.Sending? && w.cycle.base in w.rooms && !w.cycle.phase.put.Playlist?
    ensures Grown(w, Stored(w, w.cycle)) && SameDone(w, Stored(w, w.cycle))
  {
  }

  lemma StoredFileKeepsSense(w: World)
    requires Inv(w) && Busy(w) && w.cycle.phase.Sending? && w.cycle.base in w.rooms
    requires !w.cycle.phase.put.Playlist?
    ensures CycleMakesSense(Stored(w, w.cycle))
  {
    var w' := Stored(w, w.cycle);
    assert DoneUpTo(w.cycle, UpTo(w.cycle));
    assert Covered(w'.cycle) && PutIsKnown(w', w'.cycle);
  }

  lemma StoredFileKeeps(w: World)
    requires Inv(w) && Busy(w) && w.cycle.phase.Sending? && w.cycle.base in w.rooms
    requires !w.cycle.phase.put.Playlist?
    ensures Inv(Stored(w, w.cycle))
  {
    var w' := Stored(w, w.cycle);
    StoredFileIsGrown(w);
    GrownIsFresh(w, w');
    GrownAligns(w, w');
    assert forall b :: b in w.rooms ==> !AnswerPending(w, b);
    GrownAccounts(w, w');
    StoredFileKeepsSense(w);
  }

  /** At playlist time every required name is in `done`, so an aligned room has them all. */
  lemma RequiredAreDone(w: World)
    requires Inv(w) && Busy(w) && w.cycle.phase == Sending(Playlist)
    ensures w.cycle.required <= w.cycle.done
  {
    var c := w.cycle;
    forall n | n in c.required ensures n in c.done {
      var j :| 0 <= j < |c.names| && c.names[j] == n;
    }
  }

  /** A playlist lacking something is stored only into a life that is not aligned, which has
      not had its exception yet. */
  lemma StoredPlaylistAccounts(w: World)
    requires Inv(w) && Busy(w) && w.cycle.phase == Sending(Playlist) && w.cycle.base in w.rooms
    ensures Accounted(Stored(w, w.cycle))
  {
    RequiredAreDone(w);
    var w' := Stored(w, w.cycle);
    var base := w.cycle.base;
    var e := w.rooms[base].epoch;
    assert Aligned(w, base) ==> w.cycle.required <= w.rooms[base].received;
    assert AnswerPending(w', base) && !AnswerPending(w, base);
    assert forall x :: x != e ==> Count(w'.bad, x) == Count(w.bad, x);
    assert Count(w'.bad, e) <= Excused(w, e) + 1;
    assert forall b :: b in w.rooms && b != base ==> w.rooms[b].epoch != e;
    assert forall b :: b in w.rooms && Aligned(w, b) ==> Aligned(w', b);
    assert forall b :: b in w.rooms ==> !AnswerPending(w, b);
  }

  lemma StoredPlaylistKeeps(w: World)
    requires Inv(w) && Busy(w) && w.cycle.phase == Sending(Playlist) && w.cycle.base in w.rooms
    ensures Inv(Stored(w, w.cycle))
  {
    StoredPlaylistAccounts(w);
    var w' := Stored(w, w.cycle);
    assert FreshEpochs(w') && SentIsTrue(w');
    assert Covered(w'.cycle) && PutIsKnown(w', w'.cycle);
  }

  lemma DeliverKeeps(w: World)
    requires Inv(w) && Enabled(w, Deliver)
    ensures Inv(Step(w, Deliver))
  {
    ArrivedKeeps(w, w.cycle.base);
    if w.cycle.phase.put.Playlist? {
      StoredPlaylistKeeps(Arrived(w, w.cycle.base));
    } else {
      StoredFileKeeps(Arrived(w, w.cycle.base));
    }
  }

  /** After an observed answer the pusher's belief about the room is true again. */
  lemma ObservedIsTrue(w: World, epoch: nat)
    requires FreshEpochs(w) && SentIsTrue(w)
    ensures SentIsTrue(w.(m := ObserveSpec(w.m, epoch)))
    ensures ObserveSpec(w.m, epoch).originEpoch == Some(epoch)
    ensures IsLife(w, w.m.target.base, epoch) ==> ObserveSpec(w.m, epoch).sent <= w.rooms[w.m.target.base].received
    ensures ObserveSpec(w.m, epoch).sent <= w.m.sent
  {
  }

  lemma PendingAligns(w: World, ok: bool, b: string)
    requires Inv(w) && Enabled(w, Respond(ok)) && b in w.rooms && AnswerPending(w, b)
    ensures Aligned(Answered(w, w.cycle, ok), b)
  {
    ObservedIsTrue(w, w.cycle.phase.epoch);
    assert IsLife(w, b, w.cycle.phase.epoch);
  }

  lemma StillAligned(w: World, ok: bool, b: string)
    requires Inv(w) && Enabled(w, Respond(ok)) && b in w.rooms && Aligned(w, b)
    ensures Aligned(Answered(w, w.cycle, ok), b)
  {
    ObservedIsTrue(w, w.cycle.phase.epoch);
  }

  lemma AnswerAligns(w: World, ok: bool, b: string)
    requires Inv(w) && Enabled(w, Respond(ok)) && b in w.rooms
    ensures Aligned(w, b) || AnswerPending(w, b) ==> Aligned(Answered(w, w.cycle, ok), b)
  {
    if AnswerPending(w, b) {
      PendingAligns(w, ok, b);
    } else if Aligned(w, b) {
      StillAligned(w, ok, b);
    }
  }

  lemma AnswerKeepsCovered(w: World, ok: bool)
    requires Inv(w) && Enabled(w, Respond(ok)) && Busy(Answered(w, w.cycle, ok))
    ensures Covered(Answered(w, w.cycle, ok).cycle)
  {
    var c' := Answered(w, w.cycle, ok).cycle;
    assert DoneUpTo(w.cycle, UpTo(w.cycle));
    assert DoneUpTo(c', UpTo(c'));
  }

  lemma AnswerKeepsPut(w: World, ok: bool)
    requires Inv(w) && Enabled(w, Respond(ok)) && Busy(Answered(w, w.cycle, ok))
    ensures PutIsKnown(Answered(w, w.cycle, ok), Answered(w, w.cycle, ok).cycle)
  {
    assert PutIsKnown(w, w.cycle);
  }

  lemma AnswerKeepsSense(w: World, ok: bool)
    requires Inv(w) && Enabled(w, Respond(ok))
    ensures CycleMakesSense(Answered(w, w.cycle, ok))
  {
    ObservedIsTrue(w, w.cycle.phase.epoch);
    if Busy(Answered(w, w.cycle, ok)) {
      AnswerKeepsCovered(w, ok);
      AnswerKeepsPut(w, ok);
    }
  }

  lemma AnswerEpochIsOld(w: World)
    requires Inv(w) && Busy(w) && w.cycle.phase.Delivered?
    ensures w.cycle.phase.epoch < w.nextEpoch
  {
    assert PutIsKnown(w, w.cycle);
  }

  lemma AnswerOnlyObserves(w: World, ok: bool)
    requires Busy(w) && w.cycle.phase.Delivered?
    ensures var w', epoch := Answered(w, w.cycle, ok), w.cycle.phase.epoch;
            && w'.rooms == w.rooms && w'.nextEpoch == w.nextEpoch
            && w'.bad == w.bad && w'.lost == w.lost && w'.late == w.late
            && (w'.m.originEpoch == w.m.originEpoch || w'.m.originEpoch == Some(epoch))
  {
  }

  lemma AnswerKeepsFresh(w: World, ok: bool)
    requires Inv(w) && Enabled(w, Respond(ok))
    ensures FreshEpochs(Answered(w, w.cycle, ok))
  {
    AnswerEpochIsOld(w);
    AnswerOnlyObserves(w, ok);
    OnlyManagerFresh(w, Answered(w, w.cycle, ok));
  }

  lemma OnlyManagerFresh(w: World, w': World)
    requires FreshEpochs(w) && w'.rooms == w.rooms && w'.nextEpoch == w.nextEpoch && w'.bad == w.bad
    requires w'.m.originEpoch.Some? ==> w'.m.originEpoch.value < w.nextEpoch
    ensures FreshEpochs(w')
  {
  }

  lemma AnswerIsTrue(w: World, ok: bool)
    requires Inv(w) && Enabled(w, Respond(ok))
    ensures SentIsTrue(Answered(w, w.cycle, ok))
  {
    ObservedIsTrue(w, w.cycle.phase.epoch);
  }

  lemma AnswerAccounts(w: World, ok: bool)
    requires Inv(w) && Enabled(w, Respond(ok))
    ensures Accounted(Answered(w, w.cycle, ok))
  {
    var w' := Answered(w, w.cycle, ok);
    AnswerOnlyObserves(w, ok);
    forall b | b in w.rooms
      ensures Aligned(w, b) || AnswerPending(w, b) ==> Aligned(w', b)
    {
      AnswerAligns(w, ok, b);
    }
    AccountsFollow(w, w');
  }

  lemma AccountsFollow(w: World, w': World)
    requires Accounted(w) && w'.rooms == w.rooms && w'.bad == w.bad && w'.lost == w.lost && w'.late == w.late
    requires forall b :: b in w.rooms && (Aligned(w, b) || AnswerPending(w, b)) ==> Aligned(w', b)
    ensures Accounted(w')
  {
    assert forall e :: Excused(w', e) == Excused(w, e);
  }

  lemma RespondKeeps(w: World, ok: bool)
    requires Inv(w) && Enabled(w, Respond(ok))
    ensures Inv(Step(w, Respond(ok)))
  {
    AnswerKeepsFresh(w, ok);
    AnswerIsTrue(w, ok);
    AnswerKeepsSense(w, ok);
    AnswerAccounts(w, ok);
    assert Step(w, Respond(ok)) == Answered(w, w.cycle, ok);
  }

  lemma LoseKeeps(w: World)
    requires Inv(w) && Enabled(w, LoseResponse)
    ensures Inv(Step(w, LoseResponse))
  {
    var w' := Step(w, LoseResponse);
    assert forall e :: Count(w'.lost, e) == Count(w.lost, e) + if e == w.cycle.phase.epoch then 1 else 0;
    assert forall b :: b in w.rooms && Aligned(w, b) ==> Aligned(w', b);
    assert forall b :: b in w.rooms && AnswerPending(w, b) ==> w.rooms[b].epoch == w.cycle.phase.epoch;
  }

  lemma MarkAligns(w: World, b: string)
    requires Inv(w) && Enabled(w, Mark) && Current(w) && b in w.rooms && Aligned(w, b)
    requires b == w.cycle.base ==> w.rooms[b].epoch == w.cycle.phase.epoch
    ensures Aligned(Step(w, Mark), b)
  {
    assert b == w.cycle.base ==> IsLife(w, b, w.cycle.phase.epoch);
  }

  lemma MarkAccounts(w: World)
    requires Inv(w) && Enabled(w, Mark) && Current(w)
    ensures Accounted(Step(w, Mark))
  {
    var w' := Step(w, Mark);
    forall b | b in w.rooms
      ensures Count(w.bad, w.rooms[b].epoch)
           <= Excused(w, w.rooms[b].epoch) + if Aligned(w', b) || AnswerPending(w', b) then 1 else 0
    {
      if b == w.cycle.base && w.rooms[b].epoch != w.cycle.phase.epoch {
        assert LaterLifeIsClean(w, b, w.cycle.phase.epoch);
      } else if Aligned(w, b) {
        MarkAligns(w, b);
      }
    }
  }

  lemma MarkKeepsSense(w: World)
    requires Inv(w) && Enabled(w, Mark) && Current(w)
    ensures FreshEpochs(Step(w, Mark)) && SentIsTrue(Step(w, Mark)) && CycleMakesSense(Step(w, Mark))
  {
    var w' := Step(w, Mark);
    assert DoneUpTo(w'.cycle, UpTo(w'.cycle));
  }

  lemma MarkKeeps(w: World)
    requires Inv(w) && Enabled(w, Mark)
    ensures Inv(Step(w, Mark))
  {
    if Current(w) {
      MarkAccounts(w);
      MarkKeepsSense(w);
    } else {
      EndCycleKeeps(w);
    }
  }

  lemma PruneKeeps(w: World)
    requires Inv(w) && Enabled(w, Prune)
    ensures Inv(Step(w, Prune))
  {
    var w' := Step(w, Prune);
    assert w'.m.sent <= w.m.sent;
    assert forall b :: b in w.rooms && Aligned(w, b) ==> Aligned(w', b);
    assert forall b :: b in w.rooms ==> !AnswerPending(w, b);
  }

  lemma AbortKeeps(w: World)
    requires Inv(w) && Enabled(w, Abort)
    ensures Inv(Step(w, Abort))
  {
    EndCycleKeeps(w);
    StraysAreFree(w.(cycle := Idle), Aborted(w).strays);
  }

  lemma StraysAreFree(w: World, strays: multiset<Stray>)
    requires Inv(w)
    ensures Inv(w.(strays := strays))
  {
    var w' := w.(strays := strays);
    assert forall b :: b in w.rooms && Aligned(w, b) ==> Aligned(w', b);
    assert forall b :: b in w.rooms && AnswerPending(w, b) ==> AnswerPending(w', b);
  }

  lemma LateFileIsGrown(w: World, s: Stray)
    requires s.base in w.rooms && !s.put.Playlist?
    ensures Grown(w, StoredLate(w, s)) && StoredLate(w, s).cycle == w.cycle
  {
  }

  lemma LateFileKeepsSense(w: World, w': World)
    requires Inv(w) && Grown(w, w') && w'.cycle == w.cycle
    ensures CycleMakesSense(w')
  {
    if Busy(w) {
      assert PutIsKnown(w, w.cycle);
      assert PutIsKnown(w', w.cycle);
    }
  }

  lemma LateFileKeeps(w: World, s: Stray)
    requires Inv(w) && s.base in w.rooms && !s.put.Playlist?
    ensures Inv(StoredLate(w, s))
  {
    var w' := StoredLate(w, s);
    LateFileIsGrown(w, s);
    GrownIsFresh(w, w');
    GrownAligns(w, w');
    assert forall b :: b in w.rooms && AnswerPending(w, b) ==> AnswerPending(w', b);
    GrownAccounts(w, w');
    LateFileKeepsSense(w, w');
  }

  lemma LateCounts(w: World, s: Stray)
    requires s.base in w.rooms && s.put.Playlist?
    ensures var w', e := StoredLate(w, s), w.rooms[s.base].epoch;
            && (forall x :: Excused(w', x) == Excused(w, x) + if x == e then 1 else 0)
            && (forall x :: Count(w'.late, x) == Count(w.late, x) + if x == e then 1 else 0)
            && (forall x :: Count(w'.bad, x) <= Count(w.bad, x) + if x == e then 1 else 0)
            && w'.rooms == w.rooms && w'.m == w.m && w'.cycle == w.cycle && w'.nextEpoch == w.nextEpoch
  {
  }

  lemma LateAccounts(w: World, s: Stray)
    requires Inv(w) && s.base in w.rooms && s.put.Playlist?
    ensures Accounted(StoredLate(w, s))
  {
    var w' := StoredLate(w, s);
    LateCounts(w, s);
    assert forall b :: b in w.rooms && Aligned(w, b) ==> Aligned(w', b);
    assert forall b :: b in w.rooms && AnswerPending(w, b) ==> AnswerPending(w', b);
  }

  lemma LateKeepsSense(w: World, s: Stray)
    requires Inv(w) && s.base in w.rooms && s.put.Playlist?
    ensures CycleMakesSense(StoredLate(w, s))
  {
    var w' := StoredLate(w, s);
    LateCounts(w, s);
    if Busy(w) {
      assert PutIsKnown(w, w.cycle);
      assert PutIsKnown(w', w.cycle);
    }
  }

  lemma LatePlaylistKeeps(w: World, s: Stray)
    requires Inv(w) && s.base in w.rooms && s.put.Playlist?
    ensures Inv(StoredLate(w, s))
  {
    LateCounts(w, s);
    LateAccounts(w, s);
    LateKeepsSense(w, s);
    LateKeepsFresh(w, s);
  }

  lemma LateKeepsFresh(w: World, s: Stray)
    requires FreshEpochs(w) && SentIsTrue(w) && s.base in w.rooms && s.put.Playlist?
    ensures FreshEpochs(StoredLate(w, s)) && SentIsTrue(StoredLate(w, s))
  {
  }

  lemma LateKeeps(w: World, s: Stray)
    requires Inv(w) && Enabled(w, LateArrival(s))
    ensures Inv(Step(w, LateArrival(s)))
  {
    var w1 := Arrived(w, s.base);
    ArrivedKeeps(w, s.base);
    if s.put.Playlist? {
      LatePlaylistKeeps(w1, s);
    } else {
      LateFileKeeps(w1, s);
    }
    StraysAreFree(StoredLate(w1, s), w.strays - multiset{s});
  }

  lemma PageMarksKeep(w: World, e: Event)
    requires Inv(w) && Enabled(w, e) && (e.MarkPage? || e.MarkAssets?)
    ensures Inv(Step(w, e))
  {
    if Current(w) {
      var w' := Step(w, e);
      assert forall b :: b in w.rooms && Aligned(w, b) ==> Aligned(w', b);
      assert forall b :: b in w.rooms ==> !AnswerPending(w, b);
    } else {
      EndCycleKeeps(w);
    }
  }

  /** The events outside a cycle: switches, targets, outcomes, and the origin's own. */
  predicate Outside(e: Event) {
    e.SetEnabled? || e.SetTarget? || e.Record? || e.OriginForgets? || e.OriginCreates? || e.LateArrival?
  }

  lemma OutsideKeeps(w: World, e: Event)
    requires Inv(w) && Enabled(w, e) && Outside(e)
    ensures Inv(Step(w, e))
  {
    match e
    case SetEnabled(on) => SetEnabledKeeps(w, on);
    case SetTarget(target) => SetTargetKeeps(w, target);
    case OriginForgets(base) => ForgetsKeeps(w, base);
    case OriginCreates(base) => ArrivedKeeps(w, base);
    case Record(generation, failed) => RecordKeeps(w, generation, failed);
    case LateArrival(stray) => LateKeeps(w, stray);
  }

  lemma StepKeeps(w: World, e: Event)
    requires Inv(w) && Enabled(w, e)
    ensures Inv(Step(w, e))
  {
    if Outside(e) {
      OutsideKeeps(w, e);
    } else {
      CycleKeeps(w, e);
    }
  }

  lemma CycleKeeps(w: World, e: Event)
    requires Inv(w) && Enabled(w, e) && !Outside(e)
    ensures Inv(Step(w, e))
  {
    match e
    case Begin => BeginKeeps(w);
    case Fetched(lines) => FetchedKeeps(w, lines);
    case Walk(fetchOk) => WalkKeeps(w, fetchOk);
    case SendExtra(_) => SendKeeps(w, e);
    case SendPlaylist => SendKeeps(w, e);
    case Deliver => DeliverKeeps(w);
    case Respond(ok) => RespondKeeps(w, ok);
    case LoseResponse => LoseKeeps(w);
    case Mark => MarkKeeps(w);
    case Prune => PruneKeeps(w);
    case Abort => AbortKeeps(w);
    case MarkPage => PageMarksKeep(w, e);
    case MarkAssets(_) => PageMarksKeep(w, e);
  }

  const NEW_WORLD := World(Initial(), map[], 0, Idle, map[], map[], map[], multiset{})

  ghost predicate Run(ws: seq<World>, es: seq<Event>) {
    && |ws| == |es| + 1
    && ws[0] == NEW_WORLD
    && forall i {:trigger es[i]} :: 0 <= i < |es| ==> Enabled(ws[i], es[i]) && ws[i + 1] == Step(ws[i], es[i])
  }

  lemma StepAt(ws: seq<World>, es: seq<Event>, n: nat)
    requires Run(ws, es) && n < |es|
    ensures Enabled(ws[n], es[n]) && ws[n + 1] == Step(ws[n], es[n])
  {
  }

  /** The invariant holds in every state of every run. */
  lemma {:induction false} RunKeeps(ws: seq<World>, es: seq<Event>, i: nat)
    requires Run(ws, es) && i < |ws|
    ensures Inv(ws[i])
  {
    if i > 0 {
      RunKeeps(ws, es, i - 1);
      StepAt(ws, es, i - 1);
      StepKeeps(ws[i - 1], es[i - 1]);
    }
  }

  /** At most one playlist per life of a room names media that life has not received, and one
      more for each answer lost and each playlist that came late, across every rotation, switch,
      reset and origin restart. */
  lemma OneExceptionPerEpoch(ws: seq<World>, es: seq<Event>, i: nat, epoch: nat)
    requires Run(ws, es) && i < |ws|
    ensures Count(ws[i].bad, epoch) <= 1 + Count(ws[i].lost, epoch) + Count(ws[i].late, epoch)
  {
    RunKeeps(ws, es, i);
  }

  // ---------------------------------------------------------------- which playlist is the exception

  /** The pusher has seen the life `epoch` of the room it pushes to, and is still of generation `g`. */
  ghost predicate Knows(w: World, base: string, epoch: nat, g: nat) {
    && IsLife(w, base, epoch) && w.m.generation == g && w.m.target.base == base
    && w.m.originEpoch == Some(epoch) && w.m.sent <= w.rooms[base].received
  }

  /** The cycle pushes to that life, and all it counts as done has arrived there. */
  ghost predicate PushesTo(w: World, base: string, epoch: nat, g: nat)
    requires base in w.rooms
  {
    Busy(w) ==>
      && w.cycle.base == base && w.cycle.generation == g && w.cycle.done <= w.rooms[base].received
      && (w.cycle.phase.Delivered? ==> w.cycle.phase.epoch == epoch)
      && (w.cycle.phase.Marking? ==> w.cycle.phase.epoch == epoch)
  }

  ghost predicate Steady(w: World, base: string, epoch: nat, g: nat) {
    Knows(w, base, epoch, g) && PushesTo(w, base, epoch, g)
  }

  lemma SteadyOrigin(w: World, e: Event, base: string, epoch: nat, g: nat)
    requires Inv(w) && Enabled(w, e) && Steady(w, base, epoch, g) && (e.OriginForgets? || e.OriginCreates?)
    requires IsLife(Step(w, e), base, epoch)
    ensures Steady(Step(w, e), base, epoch, g)
  {
  }

  lemma SteadyGrows(w: World, w': World, base: string, epoch: nat, g: nat)
    requires Steady(w, base, epoch, g) && w'.m == w.m && w'.cycle == w.cycle
    requires IsLife(w', base, epoch) && w.rooms[base].received <= w'.rooms[base].received
    ensures Steady(w', base, epoch, g)
  {
  }

  lemma LateOnlyGrows(w: World, s: Stray, base: string)
    requires Enabled(w, LateArrival(s)) && base in w.rooms
    ensures var w' := Step(w, LateArrival(s));
            && base in w'.rooms && w'.rooms[base].epoch == w.rooms[base].epoch
            && w.rooms[base].received <= w'.rooms[base].received && w'.m == w.m && w'.cycle == w.cycle
  {
  }

  lemma SteadyLate(w: World, s: Stray, base: string, epoch: nat, g: nat)
    requires Inv(w) && Enabled(w, LateArrival(s)) && Steady(w, base, epoch, g)
    ensures Steady(Step(w, LateArrival(s)), base, epoch, g)
  {
    var w' := Step(w, LateArrival(s));
    LateOnlyGrows(w, s, base);
    SteadyGrows(w, w', base, epoch, g);
  }

  lemma SteadyManager(w: World, e: Event, base: string, epoch: nat, g: nat)
    requires Inv(w) && Enabled(w, e) && Steady(w, base, epoch, g) && (e.SetEnabled? || e.SetTarget? || e.Record?)
    requires Step(w, e).m.generation == g
    ensures Steady(Step(w, e), base, epoch, g)
  {
  }

  lemma SteadyAnswer(w: World, e: Event, base: string, epoch: nat, g: nat)
    requires Inv(w) && Enabled(w, e) && Steady(w, base, epoch, g) && (e.Respond? || e.Mark?)
    ensures Steady(Step(w, e), base, epoch, g)
  {
    assert Busy(w) && PutIsKnown(w, w.cycle);
  }

  lemma SteadyCycle(w: World, e: Event, base: string, epoch: nat, g: nat)
    requires Inv(w) && Enabled(w, e) && Steady(w, base, epoch, g)
    requires e != Begin && !Outside(e) && !e.Respond? && !e.Mark?
    ensures Steady(Step(w, e), base, epoch, g)
  {
    if e.Walk? {
      SteadyWalk(w, e.fetchOk, base, epoch, g);
    } else if e.Deliver? {
      SteadyDeliver(w, base, epoch, g);
    }
  }

  lemma SteadyWalk(w: World, fetchOk: bool, base: string, epoch: nat, g: nat)
    requires Inv(w) && Enabled(w, Walk(fetchOk)) && Steady(w, base, epoch, g)
    ensures Steady(Step(w, Walk(fetchOk)), base, epoch, g)
  {
  }

  lemma SteadyDeliver(w: World, base: string, epoch: nat, g: nat)
    requires Inv(w) && Enabled(w, Deliver) && Steady(w, base, epoch, g)
    ensures Steady(Step(w, Deliver), base, epoch, g)
  {
    assert Arrived(w, base) == w;
  }

  /** Every step but the next Begin keeps it, while the life and the generation last. */
  lemma SteadyStays(w: World, e: Event, base: string, epoch: nat, g: nat)
    requires Inv(w) && Enabled(w, e) && Steady(w, base, epoch, g) && e != Begin
    requires IsLife(Step(w, e), base, epoch) && Step(w, e).m.generation == g
    ensures Steady(Step(w, e), base, epoch, g)
  {
    if e.OriginForgets? || e.OriginCreates? {
      SteadyOrigin(w, e, base, epoch, g);
    } else if e.LateArrival? {
      SteadyLate(w, e.stray, base, epoch, g);
    } else if Outside(e) {
      SteadyManager(w, e, base, epoch, g);
    } else if e.Respond? || e.Mark? {
      SteadyAnswer(w, e, base, epoch, g);
    } else {
      SteadyCycle(w, e, base, epoch, g);
    }
  }

  /** From event `b` to event `d` the room keeps one life and the pusher one generation. */
  ghost predicate Lasts(ws: seq<World>, b: nat, d: nat)
    requires b <= d < |ws|
  {
    var base := ws[b].m.target.base;
    base in ws[b].rooms
    && forall x :: b <= x <= d ==>
                     IsLife(ws[x], base, ws[b].rooms[base].epoch) && ws[x].m.generation == ws[b].m.generation
  }

  lemma {:induction false} SteadyFrom(ws: seq<World>, es: seq<Event>, b: nat, d: nat)
    requires Run(ws, es) && b < d <= |es| && es[b] == Begin && Lasts(ws, b, d)
    requires forall x :: b < x < d ==> es[x] != Begin
    requires ws[b].m.originEpoch == Some(ws[b].rooms[ws[b].m.target.base].epoch)
    ensures var base := ws[b].m.target.base;
            Steady(ws[d], base, ws[b].rooms[base].epoch, ws[b].m.generation)
    decreases d
  {
    var base, n := ws[b].m.target.base, d - 1;
    RunKeeps(ws, es, n);
    StepAt(ws, es, n);
    if n == b {
      BeginSteady(ws[b], base);
    } else {
      SteadyFrom(ws, es, b, n);
      SteadyStays(ws[n], es[n], base, ws[b].rooms[base].epoch, ws[b].m.generation);
    }
  }

  lemma BeginSteady(w: World, base: string)
    requires Inv(w) && Enabled(w, Begin) && base == w.m.target.base && base in w.rooms
    requires w.m.originEpoch == Some(w.rooms[base].epoch)
    ensures Steady(Step(w, Begin), base, w.rooms[base].epoch, w.m.generation)
  {
  }

  /** When all the pusher relies on has arrived in the room's present life, the stored
      playlist is whole. */
  lemma AlignedPlaylistIsWhole(ws: seq<World>, es: seq<Event>, i: nat)
    requires Run(ws, es) && i < |es| && es[i] == Deliver
    requires ws[i].cycle.phase == Sending(Playlist)
    requires ws[i].cycle.base in ws[i].rooms && Aligned(ws[i], ws[i].cycle.base)
    ensures ws[i].cycle.required <= ws[i].rooms[ws[i].cycle.base].received
    ensures ws[i + 1].bad == ws[i].bad
  {
    RunKeeps(ws, es, i);
    StepAt(ws, es, i);
    RequiredAreDone(ws[i]);
  }

  /** A playlist is whole if its cycle began when the pusher had already seen the room's
      present life, and that life and the pusher's generation lasted until it was stored. So the
      exception is a playlist whose cycle began before the life, or before its epoch was seen. */
  lemma SeenLifeIsWhole(ws: seq<World>, es: seq<Event>, b: nat, d: nat)
    requires Run(ws, es) && b < d < |es| && es[b] == Begin && es[d] == Deliver && Lasts(ws, b, d)
    requires ws[d].cycle.phase == Sending(Playlist) && forall x :: b < x < d ==> es[x] != Begin
    requires ws[b].m.originEpoch == Some(ws[b].rooms[ws[b].m.target.base].epoch)
    ensures ws[d].cycle.base in ws[d].rooms && ws[d].cycle.required <= ws[d].rooms[ws[d].cycle.base].received
    ensures ws[d + 1].bad == ws[d].bad
  {
    SteadyFrom(ws, es, b, d);
    AlignedPlaylistIsWhole(ws, es, d);
  }

  // ---------------------------------------------------------------- the bound is reached

  /** A cycle up to where its one file is in the room and its playlist is next. */
  function Uploaded(t: Target, lines: seq<string>, name: string): World {
    var m := Initial().(targetKnown := true, target := t, generation := 2, enabled := true,
                        originEpoch := Some(0), sent := {name}, pushed := 1);
    NEW_WORLD.(m := m, rooms := map[t.base := Incarnation(0, {name})], nextEpoch := 1,
               cycle := Cycle(2, t.base, [name], {name}, 0, {name}, Walking(1)))
  }

  /** A run with one more event. */
  lemma Then(ws: seq<World>, es: seq<Event>, e: Event) returns (ws': seq<World>, es': seq<Event>)
    requires Run(ws, es) && Enabled(ws[|es|], e)
    ensures Run(ws', es') && ws'[|es'|] == Step(ws[|es|], e)
  {
    ws', es' := ws + [Step(ws[|es|], e)], es + [e];
    forall i {:trigger es'[i]} | 0 <= i < |es'| ensures Enabled(ws'[i], es'[i]) && ws'[i + 1] == Step(ws'[i], es'[i]) {
      if i < |es| { assert es'[i] == es[i]; }
    }
  }

  function Fetching(t: Target): World {
    NEW_WORLD.(m := Initial().(targetKnown := true, target := t, generation := 2, enabled := true),
               cycle := Cycle(2, t.base, [], {}, 0, {}, Phase.Fetching))
  }

  lemma FetchingRun(t: Target) returns (ws: seq<World>, es: seq<Event>)
    requires t.base != ""
    ensures Run(ws, es) && ws[|es|] == Fetching(t)
  {
    ws, es := [NEW_WORLD], [];
    ws, es := Then(ws, es, SetTarget(t));
    ws, es := Then(ws, es, SetEnabled(true));
    ws, es := Then(ws, es, Begin);
  }

  lemma ArrivingRun(t: Target, lines: seq<string>, name: string) returns (ws: seq<World>, es: seq<Event>)
    requires t.base != "" && MediaNamesOf(lines) == [name] && RequiredNames(lines) == {name}
    ensures Run(ws, es) && ws[|es|] == Arriving(t, name)
  {
    ws, es := FetchingRun(t);
    ws, es := Then(ws, es, Fetched(lines));
    ws, es := Then(ws, es, Walk(true));
    assert ws[|es|].cycle == Cycle(2, t.base, [name], {name}, 0, {}, Sending(Media(name)));
    ws, es := Then(ws, es, Deliver);
    assert ws[|es|].cycle == Arriving(t, name).cycle;
    assert ws[|es|].rooms[t.base].received == {} + {name} == {name};
    assert ws[|es|].rooms == Arriving(t, name).rooms;
  }

  lemma UploadRun(t: Target, lines: seq<string>, name: string) returns (ws: seq<World>, es: seq<Event>)
    requires t.base != "" && MediaNamesOf(lines) == [name] && RequiredNames(lines) == {name}
    ensures Run(ws, es) && ws[|es|] == Uploaded(t, lines, name)
  {
    ws, es := ArrivingRun(t, lines, name);
    ws, es := Then(ws, es, Respond(true));
    ws, es := Then(ws, es, Mark);
    assert {} + {name} == {name};
  }

  /** The one file is stored, its answer on the way. */
  function Arriving(t: Target, name: string): World {
    Fetching(t).(rooms := map[t.base := Incarnation(0, {name})], nextEpoch := 1,
                 cycle := Cycle(2, t.base, [name], {name}, 0, {}, Delivered(Media(name), 0)))
  }

  /** The origin forgets the room between the last upload and the playlist: with no answer lost
      and nothing late, the new life stores a playlist whose media it never received. */
  lemma OneExceptionHappens(t: Target, lines: seq<string>, name: string) returns (ws: seq<World>, es: seq<Event>)
    requires t.base != "" && MediaNamesOf(lines) == [name] && RequiredNames(lines) == {name}
    ensures Run(ws, es)
    ensures var w := ws[|es|]; Count(w.bad, 1) == 1 && Count(w.lost, 1) == 0 && Count(w.late, 1) == 0
  {
    ws, es := UploadRun(t, lines, name);
    ws, es := Then(ws, es, OriginForgets(t.base));
    ws, es := Then(ws, es, SendPlaylist);
    ws, es := Then(ws, es, Deliver);
  }

  /** For instance with a playlist of one plain segment line. */
  lemma OneSegmentPlaylist()
    ensures MediaNamesOf(["a.ts"]) == ["a.ts"] && RequiredNames(["a.ts"]) == {"a.ts"}
  {
    var line := "a.ts";
    TrimIdentity(line);
    ContainsNeeds(line, "://", ':');
    assert !IsHint(line);
    assert [line][1..] == [];
    assert RefView(line) == Some(line) && Usable(line);
    assert View(RefView, [line]) == [line];
    assert WithoutHints([line]) == [line];
  }
}

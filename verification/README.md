# PartyParty: a verified model of its protocol and storage cores

PartyParty relays a DJ's live HLS audio and a social wall from a Mac to guests. This project
models the parts of it that are protocols, state machines, parsers and crash-safe storage, and
proves what each promises, over all inputs and all runs.

Objects whose methods update their fields are classes. Each has a value (`Value()`), each
method is proved equal to a function of the old value, and the promises are proved about those
functions and about runs: sequences of states in which every step is one critical section, one
file operation, one network arrival or one crash.

| file | what it holds |
|---|---|
| `OriginWindow.dfy`, `LiveWindow.dfy`, `WindowEffects.dfy`, `Blocking.dfy` | the relay origin's live window, its eviction loop, what stays in it for how long, what each operation changes, and blocking playlist reloads (section 6.2.5.2 of draft-pantos-hls-rfc8216bis) |
| `Contribution.dfy`, `ContributionSafety.dfy`, `Progress.dfy` | the push loop against origin restarts, target rotation and enable/disable, and that it gets its playlist through |
| `RoomPlane.dfy`, `PlaneGate.dfy` | versioned snapshots, presence, the guest write queue and its delivery under the commit gate |
| `Clock.dfy` | the four-timestamp clock bound (section 8 of RFC 5905) over the reals |
| `Readers.dfy`, `Rendered.dfy`, `Timeline.dfy` | the playlist readers, what they read back from a playlist written tag by tag, and the one-pass measurement |
| `Schedule.dfy`, `Authored.dfy`, `Invisible.dfy`, `Settled.dfy` | the rewrite the readers must not notice, what it authors, and when rewriting again changes nothing |
| `EventStore.dfy`, `EventReplay.dfy`, `PartyStore.dfy`, `WallEffects.dfy` | the wall: the journal's meaning, replay, the live store, and what each line and each run of lines changes |
| `JournalBytes.dfy` | the journal file under torn writes |
| `FeedSync.dfy` | the guest feed and incremental sync between Macs |
| `Broadcast.dfy` | Start, Stop, exit watchers and status polls coordinated by a generation counter |
| `CertStore.dfy`, `InstallIdentity.dfy` | the crash-safe certificate store and the install identity |
| `Limiter.dfy` | the bounded guest rate limiter |
| `Exif.dfy`, `Jpeg.dfy`, `ScrubEffects.dfy` | the in-place location scrub, and how its bytes are read (section B.1.1.4 of ITU-T T.81) |
| `Text.dfy`, `Sorting.dfy` | strings, sequences, bytes and sorting used by the rest |

Library calls appear as parameters with the facts relied on written down: `Sound(env)` in
`Schedule` (the floor's own number reads back; a parsed time stamp has no `#`, no quote and no line
break), `Sound(codec)` in `JournalBytes` (an object as the store writes it, without client ids
and tombstones, is one line, parses back, and no proper prefix of it parses), `Sound(env)` in `CertStore` (no digest collisions; a stored bundle serves
as either half of its pair).

Some things the code does not keep in every case. Each comes with the input that breaks it or
the condition that decides it:

- Rewriting a playlist twice is rewriting it once exactly when the text is not `Disguised`
  (`#EXT-X-STREAM-INF` only inside attachment-pin lines), or the lines its first rewrite leaves
  are already in order: every control line demands more than the floor or carries it, and the
  clock lines stand where they belong (`Settled.RewriteTwiceIff`; a text that fails is
  `Settled.DisguisedExample`).
- A restart at any moment rebuilds the live store exactly when every journalled line is
  `Faithful` (`EventReplay.ReplaysThroughoutIff`). A track line is, exactly when its first
  cleaning clipped no field right behind a space (`EventReplay.CleanTwiceIff`), a dropped song
  the same for title and artist (`EventReplay.CleanSongTwiceIff`), a thumbnail line exactly when
  every post carrying the media took it live (`EventReplay.ThumbReplaysIff`). The store can
  write lines of all three kinds that fail (`EventReplay.ClippedTrackFails`,
  `EventReplay.ClippedDropFails`, `EventReplay.SharedThumbFails`).
- Republishing a certificate repairs its file exactly when the file is gone
  (`CertStore.RepublishHealsIff`). The first publish over a legacy pair, cut anywhere, leaves
  the aliases on a usable pair exactly unless the crash fell between the two links and the old
  key does not match the new bundle (`CertStore.FirstLinkGap`).
- After a replacement the next user refused with the same identity registers again exactly when
  the last event that changed the record left a base that is not the broker's, or the refused
  identity (`InstallIdentity.RegistersAgainIff`). That can be the registration itself or a host
  remembered later (`InstallIdentity.ReplacementReusedIff`, `InstallIdentity.RememberedBaseDecides`).
- The entries of a GPS directory all reach the clearing loop as they came exactly when no value
  lies over a later entry's type, count or offset, except over zero bytes
  (`Exif.EntriesArriveWholeIff`). Then every value goes (`Exif.ErasesEveryValue`); otherwise one
  can stay (`Exif.OverlappedValueStays`).
- One playlist per life of a room may name media that life lacks, and one more for each answer
  that never arrived and each playlist that came in after its call had returned
  (`ContributionSafety.OneExceptionPerEpoch`; `ContributionSafety.OneExceptionHappens` is a run
  that reaches it). It is never one whose cycle began after the pusher had seen that life, as
  long as life and generation last until it is stored (`ContributionSafety.SeenLifeIsWhole`).

## Model

| member | source | states |
|---|---|---|
| OriginWindow.Room.PutMedia | internal/origin/origin.go:110-138 | storing replaces in place or appends, and the eviction loop ends having removed exactly the oldest unpinned names |
| OriginWindow.Room.EvictLoose | internal/origin/origin.go:119-136 | the rotating loop terminates and leaves the unpinned names in order with the excess gone |
| OriginWindow.Room.PinPhoto | internal/origin/origin.go:142-160 | a photo is pinned and those beyond the cap leave map, order and pins |
| OriginWindow.Room.DropPhoto | internal/origin/origin.go:165-182 | a photo leaves media, order, pins and photo list together |
| OriginWindow.Room.Pin | internal/origin/origin.go:200-213 | the pin set becomes the sticky names plus the playlist's names |
| OriginWindow.Room.PinSticky | internal/origin/origin.go:220-231 | a sticky asset is pinned for good |
| OriginWindow.Room.PinnedCount | internal/origin/origin.go:185-193 | the count is the number of pinned names that are stored |
| OriginWindow.RunKeepsConsistent | internal/origin/origin.go:110-231 | in every run order lists exactly the media keys without repeats |
| OriginWindow.StoreEvictsOldestLoose | internal/origin/origin.go:110-138 | storing never takes a pinned name or the new one, takes unpinned names strictly oldest first and leaves at most 512 of them |
| OriginWindow.ProtectedNeverEvicted | internal/origin/origin.go:200-231 | a stored and pinned page asset survives every run that pins it with each playlist or has it sticky |
| LiveWindow.StepKeepsSafe | internal/origin/origin.go:110-231 | each operation brings a stored name closer to eviction by at most its cost: one for an upload, one for every stored name a playlist unpins |
| LiveWindow.RecentNameSurvives | internal/origin/origin.go:110-231 | the live window over any run of uploads, playlists, pins and photos: a name stays while the unpinned names after it and the costs to come are below 512, or while it is pinned |
| LiveWindow.PageNeverLeaves | internal/origin/handler.go:153-177 | from a new room on, index.html once uploaded is in every later window |
| LiveWindow.AssetNeverLeaves | internal/origin/handler.go:168-175 | from a new room on, an asset pushed with the pin header and stored is in every later window |
| WindowEffects.PinPhotoEffect | internal/origin/origin.go:142-160 | of more than 32 photos the oldest go from list, store, pins and order, and nothing else does |
| WindowEffects.DropPhotoEffect | internal/origin/origin.go:165-182 | the photo leaves store, pins and order, and its oldest place in the photo list; all else stands in its order |
| WindowEffects.PinEffect | internal/origin/origin.go:200-213 | a name is pinned afterwards iff it is sticky or a non-empty name of the playlist; nothing else changes |
| WindowEffects.PinStickyEffect | internal/origin/origin.go:220-231 | a sticky asset is pinned now and by every later pin set |
| Blocking.HasExactlyAvailable | internal/origin/origin.go:305-343 | playlistHas(m, q) holds iff m < b + k, or m = b + k and 0 <= q < p |
| Blocking.HasUnnumbered | internal/origin/origin.go:305-343 | what it answers for a playlist with no MEDIA-SEQUENCE line |
| Blocking.AvailabilityIsStable | internal/origin/origin.go:305-343 | adding a part, closing a segment and sliding the window never take an answer back |
| Blocking.RunKeeps | internal/origin/origin.go:234-294 | in every interleaving a parked reader is unsatisfied or has a wake-up due, and every answer satisfies its request or came after the deadline |
| Blocking.SatisfiedReaderIsServed | internal/origin/origin.go:261-286 | a parked reader whose request has been published is served by the broadcast due and one turn of its own |
| Blocking.TurnIsRight | internal/origin/origin.go:261-286 | at every turn of every run a reader parks iff there is a playlist, it does not name what was asked for and the deadline has not passed |
| Blocking.AnswerCameFrom | internal/origin/origin.go:234-294 | every answer was given at one turn of the reader: the playlist published last, or an error iff there was none |
| Contribution.ContributionManager.SetEnabled | internal/contribute/contribute.go:287-304 | a switch advances the generation and forgets what was sent, only if it changes something |
| Contribution.ContributionManager.AdoptTarget | internal/contribute/contribute.go:359-384 | adopting a new target resets session state and freezes the generation it returns |
| Contribution.ContributionManager.ObserveEpochAt | internal/contribute/contribute.go:1083-1104 | an epoch seen in the current generation makes a restart forget what was sent; an older generation changes nothing |
| Contribution.ContributionManager.MarkSentAt | internal/contribute/contribute.go:690-714 | a name counts as sent only for the generation that sent it |
| Contribution.ContributionManager.MarkPagePushedAt | internal/contribute/contribute.go:1069-1077 | the page counts as pushed only for the generation that pushed it |
| Contribution.ContributionManager.MarkAssetsAt | internal/contribute/contribute.go:773-780 | the assets revision is remembered only for the generation that pushed it |
| Contribution.ContributionManager.PruneSentAt | internal/contribute/contribute.go:806-826 | the sent set is cut to the names still listed |
| Contribution.ContributionManager.RecordCycle | internal/contribute/contribute.go:530-562 | the fail streak and the session reset follow the cycle's outcome |
| Progress.ThirdFailureForgets | internal/contribute/contribute.go:530-562 | failures leave what was sent alone until the third in a row, which starts the conversation over |
| ContributionSafety.StepKeeps | internal/contribute/contribute.go:618-793 | every step of pusher, origin and network keeps, for safety: what the pusher believes sent, the target's life has, if the pusher has seen that life; that it gets anywhere is Progress.PlaylistIsStored |
| ContributionSafety.RunKeeps | internal/contribute/contribute.go:618-793 | the same in every run |
| ContributionSafety.OneExceptionPerEpoch | internal/contribute/contribute.go:618-793 | per room epoch at most one stored playlist names required media that life has not received, plus one per lost answer and one per playlist that came late, across rotations, switches, resets and restarts |
| ContributionSafety.OneExceptionHappens | internal/contribute/contribute.go:618-793 | the bound is reached with nothing lost and nothing late |
| ContributionSafety.SeenLifeIsWhole | internal/contribute/contribute.go:618-793 | a playlist is whole if its cycle began when the pusher had seen the room's present epoch, and room life and generation lasted until it was stored |
| Progress.WellBringsNearer | internal/contribute/contribute.go:686-793 | with the generation current, required files readable and PUTs answered, no event ends the cycle and each brings its playlist nearer, optional files missing or not |
| Progress.NeverStuck | internal/contribute/contribute.go:686-793 | such an event is always possible |
| Progress.PlaylistIsStored | internal/contribute/contribute.go:686-793 | in every run such a cycle stores the playlist of the names it set out with, at the latest when its events come to four for each name and two more |
| Progress.SendsExactlyTheUnsent | internal/contribute/contribute.go:686-717 | walking past a name sends it iff it is not marked as sent and can be read |
| Progress.AnswerIsMarked | internal/contribute/contribute.go:716-723 | an answered upload is marked as sent, and nothing else is |
| RoomPlane.Room.Publish | internal/roomplane/roomplane.go:131-160 | new content takes a fresh version and wakes readers; the same content keeps its version |
| RoomPlane.Room.ReadVersioned | internal/roomplane/roomplane.go:174-179 | body and version of a kind are read together |
| RoomPlane.Room.Beat | internal/roomplane/roomplane.go:213-238 | presence is recorded with its bounds |
| RoomPlane.Room.Enqueue | internal/roomplane/roomplane.go:243-256 | a guest write joins the queue or is refused, exactly as path and room allow |
| RoomPlane.Room.Drain | internal/roomplane/roomplane.go:262-295 | a drain hands over the whole queue once, with the roster by id and spread, median and deviation of the latencies of those present |
| RoomPlane.DigestBoundsEveryGuest | internal/roomplane/roomplane.go:262-295 | no guest is later than the configured delay by more than the deviation, and no two are further apart than the spread |
| RoomPlane.Room.Reset | internal/roomplane/roomplane.go:299-314 | a reset clears content and queue but never reuses a version |
| RoomPlane.RunKeepsInv | internal/roomplane/roomplane.go:131-314 | versions are below the counter, distinct and present exactly for stored kinds, in every run |
| RoomPlane.VersionNamesContent | internal/roomplane/roomplane.go:131-179 | a version number never stands for two different (kind, body) pairs in a room's lifetime |
| RoomPlane.EarlyAnswerIsNews | internal/roomplane/roomplane.go:185-207 | a reader answers before its deadline only if the kind is absent or has a newer version; while it sleeps its content is unchanged |
| RoomPlane.ChangeClosesCapturedChannel | internal/roomplane/roomplane.go:131-207 | any change after the capture has closed the captured wake channel |
| RoomPlane.PublishEffect | internal/roomplane/roomplane.go:131-160 | the content is stored; version and wake-up change iff it is new; other kinds, presence and queue stay |
| RoomPlane.BeatEffect | internal/roomplane/roomplane.go:213-238 | a named guest is recorded as heard now, unless a room of 2048 holds nobody silent for twelve seconds |
| RoomPlane.BeatKeepsOthers | internal/roomplane/roomplane.go:213-238 | a beat changes nobody else, and removes in a full room exactly those silent too long |
| RoomPlane.DrainEffect | internal/roomplane/roomplane.go:262-295 | the queue is emptied and exactly the listeners silent for more than twelve seconds are forgotten |
| RoomPlane.QueueIsTaken | internal/roomplane/roomplane.go:243-295 | in every run the queue holds exactly the writes taken since it was last emptied, in order |
| RoomPlane.MedianIsMiddle | internal/roomplane/roomplane.go:262-295 | half of the latencies lie at or below the median and half at or above |
| RoomPlane.RosterIsPresence | internal/roomplane/roomplane.go:262-295 | the roster names exactly the guests present |
| PlaneGate.RunKeeps | internal/contribute/plane.go:125-170 | the commit gate and the delivery order hold in every run |
| PlaneGate.NoOldCallbackAfterReturn | internal/contribute/contribute.go:356-429 | once the call that advanced the generation returns, no Presence or ApplyWrite of an older generation runs or starts |
| PlaneGate.AppliedIsSubsequence | internal/contribute/plane.go:125-170 | the writes applied from a room are a subsequence of those Enqueue accepted, in order, each at most once |
| PlaneGate.DrainedIsAppliedOrPending | internal/contribute/plane.go:125-170 | while the generation stands and nothing is lost every drained write is applied or pending, in order; with none pending all are applied |
| PlaneGate.NextIsApplied | internal/contribute/plane.go:125-170 | the next pending write is always one turn through the gate away |
| Clock.OffsetWithinUncertainty | internal/contribute/clock.go:29-56 | the offset is within the published uncertainty of the truth despite four roundings down |
| Clock.CalibrateAcceptsExactly | internal/contribute/clock.go:29-56 | with unstepped clocks a sample is taken iff the origin's clock is past zero and the round trip is at most 500 ms |
| Clock.SourceTimeWithinUncertainty | internal/roomplane/clock.go:28-64 | the served source time is within its reported uncertainty plus 1 ms |
| Clock.ServedExactly | internal/roomplane/clock.go:28-64 | source time is served iff the sample was at most 10 s old at its arrival and that is at most 15 s ago |
| Readers.FirstVariant | internal/contribute/contribute.go:916-935 | the loop returns the URI that follows the first stream tag, as the line-by-line reading defines it |
| Readers.SplitAttrs | internal/contribute/contribute.go:994-1014 | the attributes are the text cut at exactly its commas outside quotes, a last empty piece left off |
| Readers.OneCut | internal/contribute/contribute.go:994-1014 | there is only one way to cut a text so |
| Readers.MediaNames | internal/contribute/contribute.go:943-975 | the names collected are the distinct usable references in order |
| Readers.CollectMembers | internal/contribute/contribute.go:943-975 | collecting keeps every usable reference, once |
| Readers.RequiredAreNamed | internal/contribute/contribute.go:943-975 | every reference outside preload hints is among the names |
| Readers.MapUris | internal/origin/handler.go:253-268 | the loop returns the map URIs of the text in order |
| Readers.PlaylistHas | internal/origin/origin.go:305-343 | the counting loop agrees with the reading of sequence, part and segment lines |
| Readers.ParseMedia | internal/mediamtx/mediamtx.go:500-567 | the single pass computes the measure of the line-by-line reading |
| Rendered.AttrReadsBack | internal/contribute/contribute.go:978-1014 | an attribute reads back with the value it was written with, quoted or not, among any others |
| Rendered.PlainReadsBack | internal/mediamtx/mediamtx.go:569-588 | the attach gate reads an attribute back by its exact name |
| Rendered.DecimalReadsBack | internal/origin/origin.go:305-343 | a media sequence number reads back while it fits 64 bits and not beyond |
| Rendered.FirstVariantIsNamed | internal/contribute/contribute.go:916-935 | of a playlist written tag by tag the variant is the first name behind the first stream tag |
| Rendered.MediaNamesAreNamed | internal/contribute/contribute.go:943-975 | its media names are exactly its relative segments and URIs of init segments, parts and hints, each once |
| Rendered.RequiredAreTold | internal/contribute/contribute.go:668-681 | its required names are those that are named other than under a hint |
| Rendered.InitSegmentsAreNamed | internal/origin/handler.go:253-268 | its init segments are the URIs its map tags begin with, in order |
| Rendered.RequestsAreAnswered | internal/origin/origin.go:305-343 | it answers a blocking request iff its tags have published what is asked for |
| Rendered.TimesAreTold | internal/mediamtx/mediamtx.go:500-567 | the attach gate takes from it the declared durations, gaps and part target |
| Schedule.RewritePlaylist | internal/schedule/schedule.go:33-57 | the in-place loops author the hold-back floor, the pin and the clock lines of the specification |
| Schedule.RewriteMultivariant | internal/schedule/schedule.go:62-93 | old pins go and one new pin stands at the anchor |
| Schedule.SetPartHoldBack | internal/schedule/schedule.go:103-123 | an attribute demanding more than the floor leaves the line alone |
| Schedule.ClockRanges | internal/schedule/clock.go:13-44 | one clock line per two-second bucket, old ones dropped |
| Schedule.SingleHoldBecomesMax | internal/schedule/schedule.go:103-123 | a single PART-HOLD-BACK becomes the larger of itself and 0.6 |
| Schedule.HoldLineIdempotent | internal/schedule/schedule.go:103-123 | flooring twice is flooring once |
| Schedule.ClockedIdempotent | internal/schedule/clock.go:13-44 | clocking twice is clocking once |
| Schedule.PinnedIdempotent | internal/schedule/schedule.go:62-93 | pinning twice is pinning once |
| Authored.ClockLineReads | internal/schedule/clock.go:13-44 | a clock line reads back as a date range with the stamp, the milliseconds, the id and the class |
| Authored.ClockedStands | internal/schedule/clock.go:13-44 | the pass keeps every other line and leaves a clock line behind each stamp that opens a bucket and nowhere else |
| Authored.PinnedStands | internal/schedule/schedule.go:62-93 | one pin stands behind the first version line, else the first header line, else at the top; all else keeps its order |
| Authored.FloorTouchesOnlyHolds | internal/schedule/schedule.go:103-123 | flooring a line sets exactly its hold-backs to 0.6 and keeps every other attribute |
| Invisible.RewriteUnseen | internal/schedule/schedule.go:33-123 | any reader that ignores pin, clock and server-control lines reads the same events before and after |
| Invisible.SameFirstVariant | internal/contribute/contribute.go:916-935 | firstVariant is the same before and after the rewrite |
| Invisible.SameMediaNames | internal/contribute/contribute.go:943-975 | mediaNames is the same before and after |
| Invisible.SameMapUris | internal/origin/handler.go:253-268 | mapURIs is the same before and after |
| Invisible.SameAvailability | internal/origin/origin.go:305-343 | playlistHas answers every request the same before and after |
| Invisible.SameMeasure | internal/mediamtx/mediamtx.go:500-567 | real and gap history are the same before and after |
| Settled.HoldSettledIff | internal/schedule/schedule.go:103-123 | the floor leaves a line alone iff it demands more or carries the floor wherever it carries a hold-back |
| Settled.ClocksStandIff | internal/schedule/clock.go:13-44 | the clock pass leaves lines alone iff each stamp that opens a bucket has its clock line behind it and no other clock line stands anywhere |
| Settled.RewriteTwiceIff | internal/schedule/schedule.go:33-57 | rewriting twice equals once iff the text is not disguised or the lines the first rewrite leaves are in order |
| Settled.DisguisedExample | internal/schedule/schedule.go:33-57 | a text that fails: its second rewrite floors a hold-back the first one left |
| Settled.DisguisedConcrete | internal/schedule/schedule.go:33-57 | such a text exists, with a hold-back of 0.1 |
| Timeline.PassIsTimeline | internal/mediamtx/mediamtx.go:500-567 | the pass builds exactly one unit per closed segment and then the trailing open parts |
| Timeline.EveryPlaylistSplits | internal/mediamtx/mediamtx.go:500-567 | every playlist reads as closed segments and an unclosed tail |
| Timeline.HistoryIsLongestRealSuffix | internal/mediamtx/mediamtx.go:500-567 | RealHistory is the duration of the longest gap-free suffix, each piece of media counted once |
| Timeline.GapTotalIsOfGaps | internal/mediamtx/mediamtx.go:500-567 | GapHistory is the duration of the gaps |
| Timeline.MeasuredTarget | internal/mediamtx/mediamtx.go:500-567 | the part target is the one declared last |
| PartyStore.Store.constructor | internal/event/event.go:488-662 | opening a party builds the replay of its journal |
| PartyStore.Store.NextActivity | internal/event/event.go:479-485 | the token is the wall clock, or one past the last token when the clock is not ahead of it |
| PartyStore.Store.AddPost | internal/event/event.go:1268-1330 | a post is journalled and appended, or nothing changes, with exactly the media found on disk |
| PartyStore.VerifiedIsOnDisk | internal/event/event.go:1276-1295 | the media kept are exactly those on disk, with type, size and thumbnail taken from there |
| PartyStore.Store.AddComment | internal/event/event.go:1333-1368 | a comment is journalled and appended to a live post below the limit |
| PartyStore.Store.AddPostReaction | internal/event/event.go:1372-1394 | a known reaction is journalled and the post's count for it is one more |
| PartyStore.Store.SetPostState | internal/event/event.go:1397-1415 | moderation of a post is journalled and done |
| PartyStore.Store.SetCommentState | internal/event/event.go:1418-1446 | moderation of a comment is journalled and done |
| PartyStore.Store.DeleteComment | internal/event/event.go:1450-1475 | the first comment of that id goes |
| PartyStore.Store.Delete | internal/event/event.go:1479-1494 | a live post becomes a tombstone |
| PartyStore.Store.SetMediaThumb | internal/event/event.go:1227-1264 | refused without a thumbnail file; else every live post that lacked the thumbnail gets it under one line, or nothing changes |
| PartyStore.Store.SetCurrentTrack | internal/event/event.go:1530-1550 | the old track rotates into history and the cleaned one becomes current |
| PartyStore.Store.SetRecognizedTrack | internal/event/event.go:1554-1575 | a repeated catalogue match changes nothing |
| PartyStore.Store.ClearCurrentTrack | internal/event/event.go:1579-1593 | the current track moves to history |
| PartyStore.Store.DropTrack | internal/event/event.go:1635-1672 | a dropped song leaves current, recent and setlist, journalled iff something changed |
| EventReplay.MutationKeepsSane | internal/event/event.go:479-485 | every mutation keeps lastActivity the largest token and recentTracks a prefix of the reversed setlist |
| WallEffects.ActsOnIff | internal/event/event.go:1372-1394 | a post can be acted on iff the last one under its id is not deleted |
| WallEffects.DeleteEffect | internal/event/event.go:1479-1494 | a deletion marks that post and changes nothing else but the clock |
| WallEffects.CommentEffect | internal/event/event.go:1333-1368 | a comment goes to the end of that post's comments; nothing else changes |
| WallEffects.CommentDeleteEffect | internal/event/event.go:1450-1475 | exactly the first comment with the id goes |
| WallEffects.ReactionEffect | internal/event/event.go:1372-1394 | that post has one more of the reaction, no more of any other, and nothing else changes |
| WallEffects.PostModEffect | internal/event/event.go:1397-1415 | moderating a post sets its state and nothing else |
| WallEffects.CommentModEffect | internal/event/event.go:1418-1446 | moderating a comment sets the state of the first such comment and nothing else |
| WallEffects.ThumbEffect | internal/event/event.go:1227-1264 | a thumbnail goes to every live post that lacks it, to each entry of the media, and to no other |
| WallEffects.TrackEffect | internal/event/event.go:1530-1604 | the current track joins setlist and history, whose oldest beyond 15 goes, and the new one, or none, takes its place |
| WallEffects.DropEffect | internal/event/event.go:1635-1700 | exactly the entries of that title and artist leave history, setlist and current place |
| WallEffects.EveryTrackIsKept | internal/event/event.go:1530-1700 | over any run setlist and current track are those before and every one set since, less the songs dropped after it |
| WallEffects.PostIsAsTold | internal/event/event.go:1372-1494 | over any run a post's count for a reaction grows by the lines that give it, its state is the last moderation's, and it is deleted iff a line deleted it |
| WallEffects.ReplayNeverLowers | internal/event/event.go:488-662 | replay lowers no token, and a line without one takes the later of its post's two times |
| WallEffects.ReplayStatesAreKnown | internal/event/event.go:488-662 | whatever the journal holds, every post and comment opens as approved or hidden |
| WallEffects.CleanedFields | internal/event/event.go:1739-1758 | each field of a cleaned track is cut from its own trimmed text |
| EventReplay.LineReplaysIff | internal/event/event.go:500-635 | one journalled mutation replays to its live effect iff its line is faithful |
| EventReplay.ReplayIsLive | internal/event/event.go:488-662 | reopening after any run of mutations rebuilds exactly the live store |
| EventReplay.ReplaysThroughoutIff | internal/event/event.go:488-662 | a restart at every moment of a run rebuilds the store iff every line is faithful where it was written |
| EventReplay.ClippedTrackFails | internal/event/event.go:1739-1758 | a track line the store can write that does not replay |
| EventReplay.ClippedDropFails | internal/event/event.go:1635-1655 | a drop line the store can write that does not replay |
| EventReplay.SharedThumbFails | internal/event/event.go:621-631 | a thumbnail line the store can write that replay also puts on a deleted post |
| EventReplay.ReplayIsSane | internal/event/event.go:488-662 | whatever the journal holds, the store it opens to satisfies the live invariant |
| EventReplay.RecentIsNewest | internal/event/event.go:1595-1604 | in every state recentTracks is a prefix, at most 15 long, of the reversed setlist |
| EventReplay.TrackReplaysIff | internal/event/event.go:594-605 | a track line replays exactly iff cleaning the journalled track again leaves it as it is |
| EventReplay.CleanTwiceIff | internal/event/event.go:1739-1758 | cleaning twice equals once iff no field was clipped right behind a space |
| EventReplay.CleanSongTwiceIff | internal/event/event.go:1739-1758 | cleaning twice names the same song iff title and artist were not clipped right behind a space |
| EventReplay.DropReplaysIff | internal/event/event.go:1635-1672 | a drop that changed something replays exactly iff the cleaned track still names the same song |
| EventReplay.ThumbReplaysIff | internal/event/event.go:621-631 | a thumb line replays to the live posts iff every post carrying the media took it live |
| JournalBytes.Journal.AppendLine | internal/event/event.go:2003-2046 | an append closes a torn line first and writes as many bytes as the disk takes |
| JournalBytes.Journal.Replay | internal/event/event.go:501-509 | reading skips blank and unparseable lines and returns the rest in order |
| JournalBytes.AppendReads | internal/event/event.go:2003-2046 | wherever a crash cuts an append, what was readable stays so and the new record joins iff all its bytes are there |
| JournalBytes.ReplayReadsCompleted | internal/event/event.go:2003-2046 | replay after any history of cut appends returns exactly the complete records in order |
| JournalBytes.AcknowledgedIsRead | internal/event/event.go:2003-2046 | an acknowledged record is read back in its place, whatever is torn around it |
| JournalBytes.CrashLosesAtMostTheInterrupted | internal/event/event.go:488-662 | after a crash in a mutation the reopened store is the live one, with that mutation iff its record was complete |
| FeedSync.FeedFor | internal/event/event.go:1903-1986 | read off the posts: a guest is given no hidden or deleted post, id or comment, a DJ the hidden ones too; every other post but old stream notices is named, in order, and sent as it stands iff newer than the cursor; ordered by time, with the new cursor |
| FeedSync.AnswersGive | internal/event/event.go:1903-1986 | the same of every answer, encoded or not |
| FeedSync.GuestSeesNothingHidden | internal/event/event.go:1903-1986 | nothing hidden or deleted reaches a guest, neither post, id nor comment |
| FeedSync.AnswerPeer | internal/server/server.go:1107-1124 | another Mac gets exactly the guest feed, encoded without client ids |
| FeedSync.MergePosts | internal/peers/peers.go:282-307 | the merge is the kept old posts overridden by the changed ones, without repeats, ordered by time and id |
| FeedSync.Peer.Receive | internal/peers/peers.go:201-229 | a probe merges when it asked from a cursor and replaces otherwise |
| FeedSync.RunAdvances | internal/event/event.go:479-485 | after any mutations every post at or behind the old cursor is unchanged |
| FeedSync.MergeIsFull | internal/peers/peers.go:282-307 | merging the changes since the cursor into a replica gives the full feed now |
| FeedSync.PeerHoldsTheFeed | internal/peers/peers.go:186-262 | after every poll of any run the peer holds exactly the guest-visible feed of the state polled |
| Broadcast.Broadcaster.Stop | internal/broadcast/broadcast.go:796-832 | a stop supersedes, and waits for the encoder iff there is one |
| Broadcast.Broadcaster.Claim | internal/broadcast/broadcast.go:538-600 | a start claims the next generation and clears the last error, or is refused with its own |
| Broadcast.Broadcaster.Fail | internal/broadcast/broadcast.go:782-794 | a failure is recorded for the current generation only |
| Broadcast.Broadcaster.PublishHelper | internal/broadcast/broadcast.go:621-631 | a superseded start publishes no helper |
| Broadcast.Broadcaster.FormatAnnounced | internal/broadcast/broadcast.go:633-640 | the capture counts as up only for the current generation |
| Broadcast.Broadcaster.PublishEncoder | internal/broadcast/broadcast.go:674-693 | a superseded start publishes no encoder and lets go of its helper, the current one's is held |
| Broadcast.Broadcaster.Exited | internal/broadcast/broadcast.go:726-777 | the watcher's section: taken over, stopping, superseded or failed |
| Broadcast.Broadcaster.Status | internal/broadcast/broadcast.go:878-921 | starting becomes live when output flows |
| Broadcast.Broadcaster.TryAutoRestart | internal/broadcast/broadcast.go:272-288 | a rebuild is granted for a live mac broadcast if the last is 15 s past, and remembered |
| Broadcast.Broadcaster.ShouldRecover | internal/broadcast/broadcast.go:293-304 | a recovery is granted while live or starting if the last grant is 90 s past, and remembered |
| Broadcast.Broadcaster.ShouldRevive | internal/broadcast/broadcast.go:330-341 | a revival is granted from the error state only, with a device, if the last grant is 20 s past, and remembered |
| Broadcast.GrantsAreSpaced | internal/broadcast/broadcast.go:272-341 | over any run with a clock that does not run backwards grants keep their distance: 15 s between rebuilds, 90 s before a recovery, 20 s before a revival, the last two counted together |
| Broadcast.StepKeepsInv | internal/broadcast/broadcast.go:508-833 | every critical section keeps: distinct generations, a watched encoder, owned errors, truthful capture flag |
| Broadcast.RunKeepsInv | internal/broadcast/broadcast.go:508-833 | the same in every interleaving |
| Broadcast.SupersededPublishesNothing | internal/broadcast/broadcast.go:508-794 | once a Stop or Start has run after its claim, a Start publishes no process and no error |
| Broadcast.ErrorIsCurrent | internal/broadcast/broadcast.go:782-794 | state error means no Start or Stop has happened since the failing Start claimed |
| Broadcast.StoppingEndsIdle | internal/broadcast/broadcast.go:726-833 | stopping always has an encoder with a pending watcher, and becomes idle exactly with its exit |
| Broadcast.QuietUntilClaim | internal/broadcast/broadcast.go:272-362 | after a Stop no recovery gate, rebuild, recover or revive, grants anything until a new Start claims |
| Broadcast.BlameIsRight | internal/broadcast/broadcast.go:758-777 | a crash is blamed on the permission iff that Start's tap never announced a format |
| Broadcast.ProcessesAreHeld | internal/broadcast/broadcast.go:508-833 | in every interleaving the encoder and helper of the newest Start are the ones held |
| Broadcast.StopReachesTheEncoder | internal/broadcast/broadcast.go:796-833 | a Stop after a Start published its encoder turns stopping and holds that encoder |
| Broadcast.FailureIsShown | internal/broadcast/broadcast.go:726-794 | a helper, encoder or crash failure of the newest Start is shown as its error |
| Broadcast.AtWorkIsShown | internal/broadcast/broadcast.go:878-921 | while the newest Start is at work the state is starting or live, and live after a poll that saw output |
| Broadcast.LiveHasFlowed | internal/broadcast/broadcast.go:878-921 | live means output was seen since the newest Start claimed |
| CertStore.Store.Publish | internal/activate/state.go:177-225 | the disk after a publish that dies after any number of its file operations; what the pair it replaces is good for is CertStore.FormerIsServed |
| CertStore.Store.Read | internal/activate/state.go:244-301 | a read serves, repairs or migrates, and dies anywhere |
| CertStore.Store.UpdateAliases | internal/activate/state.go:363-406 | the three links are replaced one atomic rename at a time |
| CertStore.RunKeepsInv | internal/activate/state.go:177-301 | in every run manifest and alias name only pairs that were completely stored |
| CertStore.ReadServesTheManifest | internal/activate/state.go:244-279 | a read serves the pair of the last manifest rename, or the previous one if that file was damaged since it was last written |
| CertStore.CrashIsOldOrNew | internal/activate/state.go:177-225 | over any disk, a publish cut anywhere reads as the new pair from the rename on, and before it as the store did, unless the file written revives its own generation |
| CertStore.CrashKeepsAPair | internal/activate/state.go:177-225 | over a store that reads well, the crash leaves the old pair or the new one, bytes included |
| CertStore.FormerIsServed | internal/activate/state.go:205-279 | the generation a publish replaces is its reserve: with the new file lost or damaged a read serves the old pair with its old bytes |
| CertStore.FormerIsReserve | internal/activate/state.go:177-301 | the same over any run of crashes, repairs, damage to the new file and publishes that name no third generation |
| CertStore.LegacyIsMigrated | internal/activate/state.go:280-301 | without a manifest a usable legacy pair is taken over, anything else is refused and left alone |
| CertStore.PublishedIsServed | internal/activate/state.go:177-225 | a successful publish is what the next read and both aliases lead to |
| CertStore.ReadSurvivesItself | internal/activate/state.go:244-301 | a read cut anywhere, in migration or repair too, reads the same again |
| CertStore.RepublishHealsIff | internal/activate/state.go:195-203 | republishing repairs a file iff it is missing; a damaged one refuses it and nothing changes |
| CertStore.AliasesAgree | internal/activate/state.go:363-406 | once both aliases are set they resolve to one pair at every later point, crashes included |
| CertStore.FirstLinkGap | internal/activate/state.go:363-379 | the first publish over a legacy pair, cut anywhere, leaves the aliases on a usable pair iff the crash is not between the two links or the old key matches the new bundle |
| InstallIdentity.Install.LoadOrRegister | internal/activate/activate.go:490-510 | a usable record is migrated and used, anything else registers |
| InstallIdentity.Install.RecoverUnknown | internal/activate/activate.go:538-562 | another identity on file is reused, the refused one is replaced |
| InstallIdentity.Install.RememberHost | internal/activate/activate.go:661-693 | the base is recorded only for the identity still on file |
| InstallIdentity.Install.Commit | internal/activate/activate.go:587-612 | the callback runs iff the record still is the one that produced the result, or the result carries none |
| InstallIdentity.Install.CommitRelay | internal/activate/activate.go:617-641 | a relay registration commits iff it carries a valid install that is still on file, with that install's credentials |
| InstallIdentity.LoadUsesTheRecord | internal/activate/activate.go:490-510 | loading hands out the record on file iff it is complete and the broker's, and otherwise registers |
| InstallIdentity.RecoverUsesAnotherRecord | internal/activate/activate.go:538-562 | recovering does the same with any record but the refused one |
| InstallIdentity.LoadUsesTheLast | internal/activate/activate.go:490-510 | in every run after a registration a load hands out what the last change left, iff that base is the broker's |
| InstallIdentity.RememberWritesItsOwn | internal/activate/activate.go:661-693 | a remembered host writes only the caller's own credentials under the host's base |
| InstallIdentity.IdentityChangesOnlyByRegistering | internal/activate/activate.go:661-693 | no stale client overwrites a newer identity |
| InstallIdentity.AtMostOneReplacement | internal/activate/activate.go:538-562 | of any number of users refused with one identity at most one registers, as long as no change of the record since leaves an unowned base or the refused identity |
| InstallIdentity.RegistersAgainIff | internal/activate/activate.go:538-562 | over any run a refused user registers again iff the last event that changed the record left an unowned base or the refused identity |
| InstallIdentity.ReplacementReusedIff | internal/activate/activate.go:538-562 | the first way to a second registration: the replacement itself has an unowned base or the refused identity |
| InstallIdentity.RememberedBaseDecides | internal/activate/activate.go:661-693 | the second: its own client remembers a host, and the next refused user registers iff that base is not the broker's |
| InstallIdentity.CommitMeansNoReplacement | internal/activate/activate.go:587-641 | a commit runs only if no registration landed since the result's record was read |
| InstallIdentity.HostGivesBase | internal/activate/activate.go:695-707 | a host built from label and base gives the base back |
| Limiter.RateLimiter.Allow | internal/server/limits.go:43-87 | sweep, refuse if too soon, evict the oldest if full, record |
| Limiter.RateLimiter.EvictOldest | internal/server/limits.go:92-103 | the entry removed is one no other is older than |
| Limiter.NeverOverfull | internal/server/limits.go:43-103 | the table never holds more than 4096 entries |
| Limiter.UnseenIsNeverDenied | internal/server/limits.go:66-85 | in any run a write whose key has not been accepted before is accepted, however full the table |
| Limiter.EntriesAreLatest | internal/server/limits.go:43-87 | an entry is the time of that key's latest accepted write |
| Limiter.OnlyAFloodUndercuts | internal/server/limits.go:43-103 | two accepted writes of one key closer than its interval mean 4096 other keys were accepted at or after the first |
| Limiter.RefusalHasACause | internal/server/limits.go:66-72 | a write is refused only if one of its key was accepted less than its interval before |
| Exif.ClearGPSInPlace | internal/event/exif.go:122-167 | the array holds exactly the cleared block |
| Exif.FindTagIn | internal/event/exif.go:170-185 | the loop finds the first entry with the tag |
| Exif.ClearsExactly | internal/event/exif.go:122-167 | a byte becomes zero iff it is in the GPS directory or in a value cleared on its behalf; no other byte changes |
| Exif.ClearKeepsIfd0 | internal/event/exif.go:122-167 | with the location apart from header and IFD0 both are unchanged, every tag reads the same, and the GPS directory has zero entries |
| Exif.HeaderApartIff | internal/event/exif.go:122-167 | whether header and IFD0 are out of reach, read off the input: no byte of theirs is in the GPS directory or in a value it names |
| Exif.ClearTwice | internal/event/exif.go:122-167 | clearing a cleared block changes nothing |
| Exif.EntriesArriveWholeIff | internal/event/exif.go:150-166 | every entry has its type, count and offset as they came when the loop reaches it iff no earlier value covers a non-zero byte of them |
| Exif.ErasesEveryValue | internal/event/exif.go:150-166 | when every entry arrives whole, exactly the directory and the values its entries named in the input are erased |
| Exif.OverlappedValueStays | internal/event/exif.go:150-166 | a block whose second GPS value survives because the first lies over its entry |
| ScrubEffects.LongReads | internal/event/exif.go:122-140 | 32-bit numbers in both byte orders |
| ScrubEffects.SizesAre | internal/event/exif.go:118-118 | the size of a value by its type, wrapped at 32 bits |
| ScrubEffects.GpsIsLocated | internal/event/exif.go:122-150 | the directory is where the first GPS tag of IFD0 points, if it lies in the block |
| ScrubEffects.OthersAreBad | internal/event/exif.go:122-150 | a block without letters, number 42 or a whole IFD0 is malformed |
| ScrubEffects.NoGpsIsLocated | internal/event/exif.go:122-150 | a block whose IFD0 has no GPS tag names no location |
| ScrubEffects.HeadersSpell | internal/event/exif.go:32-36 | the headers segments are told apart by, as text |
| ScrubEffects.PlainSegmentsStay | internal/event/exif.go:62-116 | every segment that is neither XMP nor EXIF stays, byte for byte and in order |
| ScrubEffects.LocationSegments | internal/event/exif.go:80-108 | XMP and malformed EXIF go, EXIF without location stays, other EXIF is cleared behind its header |
| Jpeg.ScrubJPEGLocation | internal/event/exif.go:62-116 | the index loop computes the scrubbed file, and says changed iff some segment is |
| Jpeg.ScrubReparses | internal/event/exif.go:62-116 | the output parses to the input's segments with XMP and malformed EXIF gone and EXIF cleared, and the tail is the same bytes |
| Jpeg.NoLocationLeft | internal/event/exif.go:62-116 | every output segment comes from one of the input, none is XMP, and EXIF is the same-length cleared image |
| Jpeg.ScrubbedFileHasNoLocation | internal/event/exif.go:62-116 | read again from its bytes, the file's EXIF names no GPS directory or an empty one |
| Jpeg.ScrubTwice | internal/event/exif.go:62-116 | scrubbing a scrubbed file changes no byte |

## Left out

- HTTP transport, TLS, DNS, process control, timers and file system calls: they appear as events, parameters or nondeterministic outcomes.
- Strings are sequences of characters, not UTF-8 bytes: a clip counts characters where the program counts bytes, and never splits one.
- A room's time-driven sweep, the store's map of rooms and its statistics: a sweep appears as `OriginForgets`.
- OriginWindow.ProtectedNeverEvicted: guest photos are outside it, because Pin replaces the pin set and drops photo pins.
- LiveWindow.RecentNameSurvives: says nothing of a name that loses its own pin before it has; from that moment on it applies anew.
- OriginWindow.RunKeepsConsistent: the order among pinned names after an eviction is left open.
- Blocking.RunKeeps: does not say that a blocked reader returns by its deadline; the timer broadcasts without the lock.
- ContributionSafety.OneExceptionPerEpoch: the origin is taken to send its epoch; lost answers and late playlists are counted, not excluded.
- The stop-and-wait of one push loop by the next: cycles do not overlap.
- RoomPlane.EarlyAnswerIsNews: the deadline is a flag of each turn; versions are compared within one Room object.
- Snapshot publication by the plane loop, etags and gzip.
- Clock.OffsetWithinUncertainty: clock rates are taken to be equal; drift enters only through the program's own allowance.
- Infinite and not-a-number durations and offsets in playlist numbers, beyond the hold-back comparison.
- Upload paths, the guest roster, crowd reactions, the setlist file, meta data, covers and avatars of the event store.
- A journal append that fails while the process lives on: an append succeeds or the process crashes.
- PartyStore.Store.AddPost: new post and comment ids are parameters; nothing makes them fresh. The disk is a map from ids to uploads, and base names and media types are functions of the environment.
- PartyStore.Store.SetCommentState: an empty comment id, which the store never creates, is journalled as a change to the post; for it only the live effect is stated.
- EventReplay.CleanTwiceIff: tracks carry a positive time stamp, as the store gives them.
- FeedSync.FeedFor: the media count it also returns.
- Progress.PlaylistIsStored: the fetches before the walk and the extra files' own reads; an extra file that is sent costs two events more.
- PlaneGate.DrainedIsAppliedOrPending: the loop may end early, as it does without an ApplyWrite hook.
- FeedSync.PeerHoldsTheFeed: post ids are distinct, polls of one peer do not overlap, and the peer stays on one party.
- The lookup table from post id to post is modelled as the last post of that id.
- Broadcast.SupersededPublishesNothing: does not say that two overlapping Starts leave no orphan encoder; the lock is released between Stop and the claim.
- Broadcast.BlameIsRight: a format announced after both waits are over is not handled by the program and does not count as announced.
- Broadcast.QuietUntilClaim: a recovery already granted counts as a new Start.
- Progress files, logs, capture notes and encoder arguments of the broadcaster.
- CertStore.Store.Read: certificate expiry, hosts, file modes, temporary files and their cleanup; I/O errors other than a crash.
- InstallIdentity.RegistersAgainIff: a registration whose record could not be written is not counted as successful.
- Limiter.OnlyAFloodUndercuts: a key is a guest and a kind of write together, as in the table.
- Exif.ErasesEveryValue: for a block in which some entry does not arrive whole, which bytes stay is what Exif.ClearsExactly says and no more.
- Files that are not JPEG or are larger than 64 MiB, which the scrubber leaves alone.

# A verified model of a Matrix homeserver's core protocols

Synapse is a Matrix homeserver. This project models the parts of it whose correctness is a
matter of whole runs rather than single calls, and proves what each part promises:

- **Room authorization** (`RoomVersions`, `Events`, `EventAuth`, `AuthLoops`, `AuthSelection`,
  `AuthRuns`, `AuthGovernance`, `AuthLaws`): which events a room accepts, what the verdict depends on, and what no run of
  accepted events can do to power levels, bans and invitations.
- **The rate limiter** (`RateLimiter`): lazy leaky buckets with pruning, against an eager meter,
  over the reals.
- **The application-service scheduler** (`Scheduler`, `SchedulerClass`): queues, one sender per
  service, stored transactions, the UP/DOWN state and the recoverer, as steps between
  suspension points.
- **The notifier** (`HoldBack`, `Notifier`): the two indexes of user streams, sleeping listeners
  and the hold-back queue for events persisted out of order.
- **The database porter** (`Porter`, `TableOrder`): the crash-resumable two-way row sweep and
  the order of tables.
- **Visibility** (`Visibility`): the bulk filter against the per-user decision, and erasure.
- **The worker-type parser** (`Workers`): naming of workers.

Classes, arrays of work and loops in the original are classes and loops here; decisions that
return or raise are functions. Every exception is one outcome, `Raised` or `None`, because all
of them mean that the event or request is not accepted.

## Findings

Where a promise does not hold of the code, the code is modelled as it is and the exact condition
is proved.

- The auth-event selection is enough to decide every event of a known room version except
  power-levels events under a non-empty state key: those are compared with the entry under their
  own key, which the selection does not fetch (`AuthSelection.SelectionIsExact`).
- The time returned with a denial is the time from which *one* action would fit; it is the right
  time for the denied request exactly when it asked for one action and the burst has room for one.
  A request for more than the burst is never allowed, though a time is returned for it too
  (`RateLimiter.RetryTimeExact`, with an instance in `RateLimiter.RetryTooEarly`).
- Actions recorded on a bucket that has leaked away but has not been pruned are partly lost: what
  leaked beyond empty is taken off first (`RateLimiter.RecordCounts`).
- Pending device-list summaries, unlike the other queues, are dropped when another service's
  sender goes through its loop (`Scheduler.SummariesSurvive`; `Scheduler.SummaryIsLost` is a run
  from nothing in which one is lost).
- Marking a sender erased can hide a history-visibility event from users who saw it only because
  of the boundary rule, and makes the check read the user's membership where lax history spared
  it; it hides nothing else (`Visibility.ErasureOnlyPrunes`, `Visibility.ErasureCanHide`).
- An invited user who peeks sees events under invited history but not under shared history, which
  is the more open of the two (`Visibility.OpeningHistory`, `Visibility.OpeningCanHide`).
- The table-copying loop spins for ever exactly when foreign keys are cyclic or lead to a table
  that is not copied (`TableOrder.PortTables`, `TableOrder.UnorderableTables`).
- The comment at `docker/configure_workers_and_start.py:537` says that a negative worker count is
  an error; the code treats it like zero. The promise is kept exactly when no count is negative or
  some other count cannot be read (`Workers.NegativeCountPromise`,
  `Workers.NegativeCountIsAccepted`).
- A caller that goes to sleep on a stream after the stream has been removed is woken by no event,
  only by its own timeout: a sleeping listener is woken if and only if its stream is live and
  something concerns it (`Notifier.Notifier.Run`, `Notifier.WokenExactly`, `Notifier.ListenAfterRemoval`).

## Model

| member | source | states |
|---|---|---|
| `RoomVersions.FlagsByNumber` | synapse/api/room_versions.py:114-417 | for each of the versions 1 to 11, from or up to which number each flag is set |
| `RoomVersions.KnownVersionsAre` | synapse/api/room_versions.py:354-417 | the known versions are those eleven and versions 10 and 11 with MSC3757 enabled |
| `AuthSelection.KnownVersions` | synapse/api/room_versions.py:114-417 | in every known room version knock_restricted comes with restricted and knock |
| `AuthSelection.MembershipDependsOnSelection` | synapse/event_auth.py:497-735 | a membership change is decided alike by any two states that agree on the selected entries |
| `AuthSelection.VerdictDependsOnSelection` | synapse/event_auth.py:279-373 | the verdict on any event is the same in any two states that agree on the selected entries, power-levels events under a non-empty state key apart |
| `AuthSelection.UnselectableIsRejected` | synapse/event_auth.py:1159-1172 | an event for which the selection cannot be computed is rejected in every state |
| `AuthSelection.OutsideEntryDecides` | synapse/event_auth.py:923-927 | for each excepted event there is a state, with every event filed under its own key, that rejects it while its selected part accepts it |
| `AuthSelection.SelectionIsExact` | synapse/event_auth.py:1140-1182 | for every event of a known version: verdict on every dictionary of events by their own keys equals verdict on its selected part, if and only if the event is not an otherwise acceptable power-levels event under a non-empty state key |
| `AuthLoops.WalkAuthEvents` | synapse/event_auth.py:221-276 | the loop accepts exactly lists of known, unrejected, selected events of the same room with distinct keys and a create event, and builds their state map |
| `AuthLoops.CheckIndependentRules` | synapse/event_auth.py:161-276 | accepts exactly proper create events and events with sound auth events |
| `AuthLoops.AuthEventsDecide` | synapse/event_auth.py:289-309 | if the auth events an event lists are entries of a state and include every selected entry of it, the map built from the list gives the verdict of the whole state |
| `AuthLoops.LevelsToCheck` | synapse/event_auth.py:931-957 | the list holds exactly the seven named levels and every user, event and (where limited) notification key of either event |
| `AuthLoops.WalkLevels` | synapse/event_auth.py:931-998 | the comparison loop passes exactly when every level it should compare is allowed to change as it does |
| `AuthRuns.CeilingNeverRises` | synapse/event_auth.py:878-998 | once power levels are in force, no run of accepted events raises the largest level anybody has |
| `AuthRuns.TopUserIsNeverOvertaken` | synapse/event_auth.py:983-998 | a listed user at the ceiling who sends no power-levels event keeps that level through every run, and nobody comes to stand above them |
| `AuthRuns.CreateStays` | synapse/event_auth.py:459-463 | in every linear run the create event in force is the first event |
| `AuthRuns.ShortcutIsForSecondEvent` | synapse/event_auth.py:513-524 | the creator-join shortcut never applies after the second event |
| `AuthRuns.BansHold` | synapse/event_auth.py:581-733 | in every linear run a user banned at one point and not at a later one was unbanned in between by another, joined user at or above the ban and kick levels and strictly above them |
| `AuthRuns.InvitesAreVouched` | synapse/event_auth.py:581-627 | every accepted invite rests on a member who was joined and at or above the invite level: its sender, or for a third-party invite its sender when they issued the token |
| `AuthRuns.EntryIsByInvitation` | synapse/event_auth.py:628-681 | under the invite rule nobody enters except the creator in the second event or a user who has been invited since an earlier, vouched-for invitation |
| `AuthRuns.RulesAreLegalMoves` | synapse/event_auth.py:581-735 | once sender and target are known the membership rules accept exactly the legal moves: the transition table with the join rule, the invite, kick and ban authority and the third-party invite each move needs |
| `AuthRuns.MembershipsMoveLegally` | synapse/event_auth.py:588-735 | from the third event on, every accepted membership event is a legal move of the membership state machine, with the authority it needs |
| `AuthGovernance.OnlyCreatorSetsState` | synapse/event_auth.py:756-806 | until power levels are set, every accepted state event that needs a send level is the creator's |
| `AuthGovernance.OnlyCreatorRemoves` | synapse/event_auth.py:686-715 | until power levels are set, only the creator kicks, bans and unbans |
| `AuthGovernance.UnfederatableStaysLocal` | synapse/event_auth.py:311-316 | in every run of a room marked as not federating, events come from its own server and members in force are its own users, the creator's first join apart |
| `AuthGovernance.UserKeyedStateIsOwned` | synapse/event_auth.py:808-837 | in every run, state under a key that looks like a user id was set by that user, or under MSC3757 by the user whose id heads the key or somebody strictly above that user |
| `AuthLaws.UserLevelIsRead` | synapse/event_auth.py:1005-1042 | a user's level is their own entry, else the users default, else 0, and before power levels 100 for the creator and 0 for others; unreadable exactly when that value is |
| `AuthLaws.NamedLevelIsRead` | synapse/event_auth.py:1045-1056 | a named level is the entry in force, else the default |
| `AuthLaws.SendLevelIsRead` | synapse/event_auth.py:756-790 | the send level is the entry for the type, else the state default (50) for state and the events default (0) for the rest |
| `AuthLaws.OwnerIsRead` | synapse/event_auth.py:814-830 | the owner of a state key is its part up to the first underscore after the first colon, or all of it |
| `AuthLaws.ComparisonIsExact` | synapse/event_auth.py:929-998 | new power levels pass if and only if all levels are readable, every entry that differs or is on one side only has both values at most the sender's level, and none is another user's at that level |
| `AuthLaws.PowerIsChecked` | synapse/event_auth.py:878-998 | a power-levels event passes exactly when its content is well formed and, if it replaces one, the changes are within the sender's level |
| `AuthLaws.RedactionIsChecked` | synapse/event_auth.py:840-875 | a redaction passes exactly at or above the redact level (50), or in versions 1 and 2 for an event of the same server, or in later versions always |
| `AuthLaws.MembershipIsChecked` | synapse/event_auth.py:497-735 | a membership change passes exactly when it is the creator's first join or a lawful move, with join rule, levels and memberships read from the state |
| `AuthLaws.VerdictIsLaw` | synapse/event_auth.py:279-373 | for every event and state the verdict is exactly the law over the contents of the events in force |
| `AuthLaws.RunsAreLawful` | synapse/event_auth.py:279-373 | every event of every linear run is lawful against the state it met; in particular its sender was at or above the level its type needs |
| `AuthLaws.TopMayInstall` | synapse/event_auth.py:983-998 | in every run from any state a member whom no level exceeds and no other user equals may install any well-formed power levels not above their own |
| `AuthLaws.CreateIsChecked` | synapse/event_auth.py:457-494 | a create event passes exactly when it comes first, from the server that names the room, in a known version and with a creator |
| `AuthLaws.SelectionIsListed` | synapse/event_auth.py:1140-1182 | the selection is computable exactly for well-formed events and holds exactly the entries that the event must cite |
| `RateLimiter.Ratelimiter.Prune` | synapse/api/ratelimiting.py:249-267 | exactly the entries that have not leaked away remain, unchanged |
| `RateLimiter.Ratelimiter.Attempt` | synapse/api/ratelimiting.py:167-217 | reply and stored buckets are those of the specification functions |
| `RateLimiter.Ratelimiter.CanDoAction` | synapse/api/ratelimiting.py:107-217 | the missing-key error, the exemptions that touch nothing, and otherwise the reply and buckets of the request with a given key before the requester's id and a given rate and burst before the limiter's |
| `RateLimiter.Ratelimiter.RecordAction` | synapse/api/ratelimiting.py:219-247 | adds to the count of one key and changes nothing else |
| `RateLimiter.RecordCounts` | synapse/api/ratelimiting.py:219-247 | recording n raises the level by n if and only if the bucket is not stale or n is not positive, a stale one being raised from below empty; the next request for m is allowed exactly if that level plus m fits; no other key changes |
| `RateLimiter.RecordedActionsAreDenied` | synapse/api/ratelimiting.py:246-247 | three actions recorded on an empty limiter use up a burst of three |
| `RateLimiter.Ratelimiter.RateLimit` | synapse/api/ratelimiting.py:269-326 | raises exactly on denial, with the truncated wait in milliseconds; exempt calls are allowed, and neither they nor calls without a key touch the buckets |
| `RateLimiter.PruneKeepsHeld` | synapse/api/ratelimiting.py:256-267 | pruning changes the level of no key |
| `RateLimiter.RequestEffect` | synapse/api/ratelimiting.py:172-201 | a request is allowed exactly when the level plus its cost fits the burst, and then raises the level by its cost |
| `RateLimiter.AnswerFromHeld` | synapse/api/ratelimiting.py:172-217 | the whole reply, verdict and returned time, is a function of the level alone, pruning or not |
| `RateLimiter.RefinesMeter` | synapse/api/ratelimiting.py:40-62 | on every run with a clock that does not go back and one rate for a key, the limiter gives to requests for the key the replies, verdict and returned time, of an eager leaky bucket for that key alone, pruning or not |
| `RateLimiter.KeysAreIndependent` | synapse/api/ratelimiting.py:101-105 | pruning cannot be observed, and replies on a key are those of a run that uses no other key |
| `RateLimiter.WindowBound` | synapse/api/ratelimiting.py:172-201 | in any stretch of any run the counted actions on a key are at most burst plus rate times its length, even with non-negative recorded actions in between |
| `RateLimiter.ReturnedTimeIsLeast` | synapse/api/ratelimiting.py:203-217 | the returned time is the least time, not before now, at which one more action would be allowed |
| `RateLimiter.ReturnedTimeStands` | synapse/api/ratelimiting.py:203-217 | and it remains so however other keys are used meanwhile |
| `RateLimiter.RetryTimeExact` | synapse/api/ratelimiting.py:192-209 | for every denied request under a positive rate, the returned time is the time from which that request would be allowed if and only if it asked for one action and the burst is at least one |
| `RateLimiter.WrongForTooMany` | synapse/api/ratelimiting.py:192-209 | a request for more than the burst is denied now and at every later time, so no returned time is right |
| `RateLimiter.RetryTooEarly` | synapse/api/ratelimiting.py:203-209 | a concrete denial of two actions whose returned time is a second too early |
| `RateLimiter.RetryAfterIsClose` | synapse/api/ratelimiting.py:318-326 | the reported wait is never negative and falls short of the true one by less than a millisecond |
| `Scheduler.LastMentionWins` | synapse/appservice/scheduler.py:241-255 | the consolidated summary keeps for each user the last mention, left winning within one, and its two sets are disjoint |
| `Scheduler.EnqueueKeeps` | synapse/appservice/scheduler.py:128-174 | an enqueue, starting a sender if none runs, keeps order, conservation and the no-lost-wakeup invariant |
| `Scheduler.SendKeeps` | synapse/appservice/scheduler.py:371-436 | a send with its failure handling keeps the invariant |
| `Scheduler.RetryKeeps` | synapse/appservice/scheduler.py:499-526 | an iteration of the recoverer keeps the invariant |
| `Scheduler.RunKeeps` | synapse/appservice/scheduler.py:213-298 | under every interleaving, for every service: at most one sender runs, exactly while the service is marked in flight; the items enqueued of each kind are, in order, those handed to the controller, in hand and queued; batches have at most 100 of a kind; a non-empty queue has a sender; events handed over are, in order, those delivered and those stored, and nothing else is delivered or stored; up means nothing stored; down means one recoverer; no transaction but the first stored is without events |
| `Scheduler.TurnExactly` | synapse/appservice/scheduler.py:220-266 | a turn hands over, of each kind, as many items from the front of its own queue as fit, and for each user what the last pending summary that mentions them says; with nothing the sender ends |
| `Scheduler.DeliveredWhole` | synapse/appservice/scheduler.py:371-416 | a batch reaches the service whole exactly when sent while it is up and the request succeeds; the recoverer sends events alone |
| `Scheduler.DeliveredIsPrefix` | synapse/appservice/scheduler.py:411-416 | at every point of every run the delivered events are a prefix of the enqueued ones, and never shrink |
| `Scheduler.RecoveryCompletes` | synapse/appservice/scheduler.py:499-526 | with requests succeeding the recoverer acknowledges the stored transactions oldest first and one iteration after the last marks the service up |
| `Scheduler.EverythingIsDelivered` | synapse/appservice/scheduler.py:213-298 | from every reachable state, in any order of steps of all services in which nothing more is enqueued for this one and its requests succeed: it takes a bounded number of steps, and when neither sender nor recoverer is left it is up with exactly the enqueued events delivered, and all enqueued items handed over, in order |
| `Scheduler.SummariesSurvive` | synapse/appservice/scheduler.py:237-256 | the summaries pending for a suspended sender are, in order, those that were and those queued since, if and only if no other service's sender goes through its loop |
| `Scheduler.SummaryIsLost` | synapse/appservice/scheduler.py:237-256 | a run from the empty scheduler after which a queued summary is neither pending nor in the hands of a sender |
| `SchedulerClass.FoldSummaries` | synapse/appservice/scheduler.py:241-255 | the loop computes the consolidated summary |
| `SchedulerClass.ApplicationServiceScheduler.TakeBatch` | synapse/appservice/scheduler.py:220-266 | one turn of the sender's loop: its batch is held or the sender ends, and every service's summaries are cleared |
| `SchedulerClass.ApplicationServiceScheduler.EnqueueFor` | synapse/appservice/scheduler.py:150-211 | the object takes one enqueue step of the protocol |
| `SchedulerClass.ApplicationServiceScheduler.SendOnce` | synapse/appservice/scheduler.py:285-298 | the object takes one send step of the protocol |
| `SchedulerClass.ApplicationServiceScheduler.RetryOnce` | synapse/appservice/scheduler.py:502-519 | the object takes one retry step of the protocol |
| `SchedulerClass.ApplicationServiceScheduler.RetryUntilFailure` | synapse/appservice/scheduler.py:486-526 | resends stored transactions oldest first up to the first failure; up if none is left, otherwise the backoff grows by one up to nine, from one after a success |
| `HoldBack.ReleasedExactly` | synapse/notifier.py:417-432 | a call announces an entry exactly if its position is at most that of its writer in the token, or of the stream if the token does not name the writer |
| `HoldBack.LaterTokensRelease` | synapse/types/__init__.py:736-746 | a token beyond another for every writer and for the stream announces all that the other would |
| `HoldBack.QueueIsWaiting` | synapse/notifier.py:378-422 | after every prefix of a run the queue holds, in order, exactly the entries that no later call has covered |
| `HoldBack.AnnouncedByFirstCover` | synapse/notifier.py:405-441 | each call announces, in order, exactly the entries that it is the first to cover |
| `HoldBack.NothingLostOrRepeated` | synapse/notifier.py:414-432 | in every run appended entries are announced ones plus queued ones, with multiplicity |
| `Notifier.UserStream.Poke` | synapse/notifier.py:130-151 | hands over all listeners and moves the stream to the new token |
| `Notifier.UserStream.NewListener` | synapse/notifier.py:167-187 | sleeps exactly when the token is the stream's current one, so that every sleeping listener is at the current token |
| `Notifier.Notifier.Select` | synapse/notifier.py:537-543 | the index lookups pick exactly the streams that a scan over all live streams would |
| `Notifier.Notifier.OnNewEvent` | synapse/notifier.py:502-570 | wakes exactly the listeners of those streams, moves them to the token, and touches no other stream |
| `Notifier.Notifier.Register` | synapse/notifier.py:604-616 | returns the live stream of the user or indexes a new one under exactly its rooms |
| `Notifier.Notifier.UserJoinedRoom` | synapse/notifier.py:863-868 | adds the room to the user's live stream and its index, keeping the two indexes consistent |
| `Notifier.Notifier.Remove` | synapse/notifier.py:153-162 | the stream is gone from the user index and from every room |
| `Notifier.Notifier.RemoveExpiredStreams` | synapse/notifier.py:843-854 | removes exactly the streams nobody listens on that were last poked too long ago |
| `Notifier.Notifier.Wait` | synapse/notifier.py:604-637 | the caller goes on exactly when its token is not the current one of the user's stream, and otherwise sleeps there |
| `Notifier.Notifier.NotifyPending` | synapse/notifier.py:405-441 | wakes exactly the live streams that a released entry concerns, a released join waking and indexing the joining user in the same call |
| `Notifier.Notifier.Perform` | synapse/notifier.py:405-616 | every step wakes a sleeping listener exactly when its stream is live and concerned, ends its sleep exactly when a caller that holds the stream times it out, and otherwise keeps it asleep and its stream as live as it was |
| `Notifier.Notifier.Run` | synapse/notifier.py:843-868 | over every run, with callers that sleep again on streams they hold and sleeps that time out, a sleeping listener is resolved, ends or sleeps on exactly as the state of its stream tells |
| `Notifier.WokenExactly` | synapse/notifier.py:502-570 | that fate is to be woken if and only if the stream is live at the start and some step concerns it, the rooms growing with joins, before the listener times out; so nothing wakes a listener on a removed stream |
| `Notifier.ListenAfterRemoval` | synapse/notifier.py:623-664 | a concrete caller whose stream expires while it looks at what woke it, and which then sleeps through an event for its user and room |
| `Porter.ForwardsIsBatch` | synapse/_scripts/synapse_port_db.py:461-463 | the forward batch is ascending, in range and skips nothing |
| `Porter.BackwardsIsBatch` | synapse/_scripts/synapse_port_db.py:465-468 | the backward batch is descending, in range and skips nothing |
| `Porter.DroppedIffNul` | synapse/_scripts/synapse_port_db.py:943-965 | a row is dropped exactly when a cell outside the boolean columns holds a NUL; otherwise boolean cells become false exactly for null, 0, empty text, empty bytes and false, and the rest stays |
| `Porter.OrderIsIrrelevant` | synapse/_scripts/synapse_port_db.py:958-967 | what is copied depends only on which rows are handled |
| `Porter.FullCopyIsExact` | synapse/_scripts/synapse_port_db.py:933-967 | the full copy holds each row as many times as there are rows of the table that become it |
| `Porter.AdvanceSweeps` | synapse/_scripts/synapse_port_db.py:506-530 | after every commit the rows handled are exactly, and once each, those strictly between the two positions |
| `Porter.AdvanceShrinks` | synapse/_scripts/synapse_port_db.py:473-536 | with batches of at least one row every commit makes progress while rows remain |
| `Porter.ConvertRows` | synapse/_scripts/synapse_port_db.py:933-967 | the loop yields the converted rows in order |
| `Porter.TablePorter.DeleteAll` | synapse/_scripts/synapse_port_db.py:366-374 | forgets positions and copied rows together, and leaves an append-only table alone |
| `Porter.TablePorter.SetupTable` | synapse/_scripts/synapse_port_db.py:327-388 | an append-only table resumes from the committed positions, any other starts again from nothing |
| `Porter.TablePorter.Commit` | synapse/_scripts/synapse_port_db.py:508-530 | rows and positions advance together |
| `Porter.TablePorter.HandleTable` | synapse/_scripts/synapse_port_db.py:435-536 | stops short only by a crash, and when done the destination is the full copy |
| `Porter.TablePorter.PortAcrossCrashes` | synapse/_scripts/synapse_port_db.py:328-388 | any number of crashed runs, each cut between any two of its transactions, and then a full one copy every convertible row exactly once |
| `TableOrder.StuckIsNotOrderable` | synapse/_scripts/synapse_port_db.py:900-904 | tables that wait for each other, or for one never copied, rule out every order |
| `TableOrder.FinishedIsOrderable` | synapse/_scripts/synapse_port_db.py:390-412 | a finished run shows that the foreign keys are acyclic and closed |
| `TableOrder.PortTables` | synapse/_scripts/synapse_port_db.py:884-920 | finishes if and only if foreign keys are acyclic and closed; then each table is copied once, in a later round than all it references |
| `TableOrder.UnorderableTables` | synapse/_scripts/synapse_port_db.py:900-904 | two tables that reference each other, and one that references a table outside the copy, have no order |
| `Visibility.AfterExactly` | synapse/visibility.py:312-318 | the event is in force under its own key and every other entry stays |
| `Visibility.SeesReadsTwoKeys` | synapse/visibility.py:120-126 | the per-user decision reads only the history visibility and the user's own membership |
| `Visibility.Sendable` | synapse/visibility.py:237-251 | the loop keeps exactly the users to whom the event may be sent |
| `Visibility.FilterByState` | synapse/visibility.py:263-292 | with partial state fetched, keeps exactly the users whom lax visibility or membership in the full state allows, and raises exactly when a membership that has to be read is missing from its event |
| `Visibility.FilterForClients` | synapse/visibility.py:194-292 | raises exactly when the per-user check on the state after the event raises for some user, and otherwise returns exactly the users for whom it is not None |
| `Visibility.SightIsLaw` | synapse/visibility.py:318-518 | the whole decision from the contents of the events: exactly when it raises, shows and prunes |
| `Visibility.SeenExactly` | synapse/visibility.py:446-518 | a sendable event is seen exactly by virtue of lax history at its boundary, one's own leave, being joined, or an invitation under invited history |
| `Visibility.OpeningHistory` | synapse/visibility.py:493-518 | opening a room's history hides nothing seen before if and only if the user is not an invited peeker |
| `Visibility.OpeningCanHide` | synapse/visibility.py:497-513 | a concrete message shown to an invited peeker under invited history and hidden under shared history |
| `Visibility.ErasureOnlyPrunes` | synapse/visibility.py:396-430 | erasure leaves who sees the event unchanged if and only if it is not a history-visibility event seen only by the boundary rule nor one whose lax history spared an unreadable membership, and prunes exactly when the user was not joined |
| `Visibility.ErasureCanHide` | synapse/visibility.py:579-592 | a concrete event that erasure hides |
| `Workers.StripTrims` | docker/configure_workers_and_start.py:580-595 | stripping takes white space off both ends and nothing else |
| `Workers.SplitsAtFirst` | docker/configure_workers_and_start.py:580-595 | splitting is the stripped text before the first separator and then the rest split |
| `Workers.SplitUndoesJoin` | docker/configure_workers_and_start.py:677-686 | splitting at plus signs undoes joining with them |
| `Workers.ValidNameMatches` | docker/configure_workers_and_start.py:653-665 | a valid name is letters, digits and the three signs, the last not a digit |
| `Workers.LessIsLexicographic` | docker/configure_workers_and_start.py:683-686 | the order of generated names is that of the characters where two strings first differ |
| `Workers.ParsePlain` | docker/configure_workers_and_start.py:677-702 | a request without a name is accepted exactly when its parts are known types, and its base name joins them in ascending order, once each |
| `Workers.ParseNamed` | docker/configure_workers_and_start.py:640-702 | a name before the equals sign, if valid, is the base name and what follows gives the types; a second equals sign is an error |
| `Workers.GeneratedNameParsesBack` | docker/configure_workers_and_start.py:683-686 | requesting a generated base name requests the same types under the same name |
| `Workers.UsesCounts` | docker/configure_workers_and_start.py:713-716 | the number of a worker is one more than the earlier requests with its base name |
| `Workers.NamesAreInjective` | docker/configure_workers_and_start.py:662-671 | a base name not ending in a digit and a number can be recovered from their concatenation |
| `Workers.BasesEndInNonDigit` | docker/configure_workers_and_start.py:647-702 | every base name of an accepted request, chosen or generated, ends in a character that is not a digit |
| `Workers.GeneratedNameIsDeterministic` | docker/configure_workers_and_start.py:683-686 | a generated name depends only on the set of types |
| `Workers.ApplyMultipliers` | docker/configure_workers_and_start.py:521-560 | the loops expand each request into its copies, and fail if and only if some count cannot be read |
| `Workers.ExpandFailsExactly` | docker/configure_workers_and_start.py:539-551 | the expansion fails if and only if some count cannot be read |
| `Workers.ExpandHoldsExactly` | docker/configure_workers_and_start.py:539-560 | otherwise it holds exactly the workers asked for with no count or a positive one |
| `Workers.ExpandCounts` | docker/configure_workers_and_start.py:553-560 | each worker is in the expansion as many times as the requests together ask for it |
| `Workers.AtFirstColon` | docker/configure_workers_and_start.py:540-546 | a request with a count is the text before its first colon, as often as the text after it says |
| `Workers.NegativeCountPromise` | docker/configure_workers_and_start.py:531-555 | the comment's promise, an error if and only if some count is unreadable or negative, holds for a list if and only if no count is negative or some count is unreadable; for one request, if and only if its count is not a negative integer |
| `Workers.NegativeCountIsAccepted` | docker/configure_workers_and_start.py:545-555 | every single request with a negative count is accepted and gives no worker |
| `Workers.CountTypes` | docker/configure_workers_and_start.py:695-711 | the loop fails exactly on an unshardable type already seen |
| `Workers.SameTypesAsFirst` | docker/configure_workers_and_start.py:718-727 | comparing with the first worker of a base name is comparing with all |
| `Workers.ParseExpanded` | docker/configure_workers_and_start.py:625-731 | succeeds exactly on requests that are well formed and pairwise compatible, with one worker each, under distinct names |
| `Workers.ParseWorkerTypes` | docker/configure_workers_and_start.py:610-731 | the same, after the multipliers |
| `Workers.UnshardableTypesAppearOnce` | docker/configure_workers_and_start.py:704-709 | in a result an unshardable type belongs to at most one worker |

## Left out

- Signatures: checking them is reduced, in a third-party invite, to the set of keys under which its signed block verifies; size limits and `validate_event_for_room_version` are not modelled.
- The validity of the server name in a user id under MSC3757 is a field of the event, since the grammar of server names is not modelled.
- Room state is a linear history; state resolution over forks is not modelled.
- `RequestRatelimiter`, which only picks the parameters of a limiter.
- Rounding of floating-point numbers in the rate limiter: times, rates and counts are real numbers.
- RateLimiter.RefinesMeter: has no `record_action` in its runs, because recording on a bucket that has leaked away but has not been pruned is set against leakage that the meter would not have granted.
- Scheduler: the store calls succeed, and each of a send with its failure handling, one iteration of the recoverer and the empty check with `on_recovered` is one step; finer interleavings are not modelled. The one-time-key lookup does not raise. Recoverers started when the server starts are not modelled.
- SchedulerClass.ApplicationServiceScheduler.TakeBatch: the separate dictionaries of the original are one dictionary of per-service records, so aliasing between their lists is not captured.
- Notifier: looking up a stream and registering a new one is one step; what a caller of `wait_for_events` does between sleeps, replication, pushers and application-service notification are not modelled.
- Porter.TablePorter.HandleTable: the source table does not change between runs and batches have at least one row; `sent_transactions`, `event_search`, `user_directory_stream_pos` and the effect of TRUNCATE CASCADE on other tables are not modelled.
- `filter_events_for_server` and the annotation of events with the user's membership.
- Python's `int()` on a worker count is a parameter of the parser; writing of worker configuration files is not modelled.
- Storage, HTTP, logging, metrics and configuration.

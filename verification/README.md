# Guest lists, reminders and accounts, verified

A Dafny model of an event-planning application: a Go backend over Postgres and a TypeScript
frontend. `dafny verify dfyconfig.toml` checks the whole project.

An event has an owner and a guest list. The owner invites people and gives each of them a number of
forwards (`spread`). Guests accept or decline, forward the invite while they have budget left, and
take back what they sent. An RSVP deadline closes the list for everyone but the owner. Around this
the model covers updating an event, the daily reminders, the notification feed, connections between
users, deleting an account, and the pages that edit dates and guest lists.

## How the model is laid out

| file | contents |
|---|---|
| `Tables` | the rows, their constraints, and the database object the services write |
| `InviteRules`, `ReminderRules`, `FeedRules`, `AccountRules`, `NetworkRules` | each call as a function from the state before to the state after |
| `EventRepository`, `EventService`, `Feed`, `Network`, `Accounts`, `Listing` | the calls as methods, each proved equal to its function |
| `Protocol` | runs: any sequence of calls, each with the clock it ran at |
| `CallEffects`, `Shapes`, `Consistency` | what one call can do: when it succeeds, what it changes, that it breaks no constraint |
| `GuestLists`, `RsvpFreeze`, `Responses`, `Patches`, `EventUpdates`, `Reminders`, `Invitations` | what runs keep |
| `ForwardSteps`, `FreezeSteps`, `FreezeExact` | the forwarding transaction step by step, interleaved with everything else |
| `ReminderSteps`, `ReminderTurns` | the daily job step by step, beside other jobs and everything else |
| `UpdateSteps` | an update's check and write apart, with everything else between them |
| `Scenarios` | runs from the empty database to states where a plain claim fails |
| `Attendance` | the shared-event counts of the mock backend and of the two queries |
| `GuestCommit`, `RsvpForm`, `Grouping`, `Base64Url` | the pages |

A service call is one atomic step, except for forwarding, which `ForwardSteps` takes apart into
begin, lock, count, insert, commit and abort, the daily job, which `ReminderSteps` takes apart into
its listings and inserts, and the update, which `UpdateSteps` takes apart into check and write. Inserts that may fail, mails that may not go out and
the order in which a query returns its rows are inputs of the call, so every theorem holds for every
choice of them. Local time is UTC. Email addresses arrive trimmed and in lower case, as the
registration payload and the network service make them.

## What is false of the code, and what holds instead

* *A guest never has more live forwards than their spread.* False: removing a guest leaves their
  forwards in place, so a guest who is removed and invited again can start above the limit.
  `Scenarios.ReinviteExceedsSpread` is a run from the empty database that ends there. Counted since
  the present invite was created, the bound always holds (`GuestLists.BudgetOverRun`); the plain
  bound holds in every continuation exactly when the owner grants at least as much spread as the
  guest already has live forwards (`GuestLists.SpreadCoversIff`).
* *Reminders are never sent twice, also by overlapping jobs.* The comment at
  `internal/event/service.go:286-290` says so, but nothing in the code ensures it. Runs one after
  the other never send twice (`Reminders.RunKeepsUnique`). Of jobs that overlap in any way, a
  reminder is there twice exactly when two of them had listed it before the first delivered it and
  both delivered it, the account not having been deleted since (`ReminderSteps.ReminderStepsUnique`);
  `ReminderSteps.TwoJobsSendTwice` is such a schedule from a reachable state. It cannot happen when no
  job inserts between another's listing and a later insert of that other
  (`ReminderTurns.InTurnUnique`), which is what the cron job's `concurrencyPolicy: Forbid` is for.
* *After the deadline only the owner changes the list.* True of calls (`RsvpFreeze.FrozenRun`). The
  deadline is checked before the forwarding transaction begins, so a forward opened in time may
  commit late (`FreezeSteps.LateCommitHappens`); no other row appears and none changes
  (`FreezeSteps.FrozenSchedule`). The list stays as it is in every continuation without the owner
  exactly when no forward open at the deadline has an accepted sender with budget left and a guest
  who is not invited and who exists or may still sign up (`FreezeExact.FrozenIff`).
* *The deadline never passes the event date.* True while an update is one step
  (`EventUpdates.RunInOrder`). The service reads, checks and writes without a lock; a check on an
  older row is enough exactly when the payload has both the date and the deadline, or neither
  (`EventUpdates.StaleCheckSafeIff`). With such payloads every schedule of checks and writes keeps
  the order (`UpdateSteps.ScheduleInOrder`); with others two tabs break it from a reachable state
  (`UpdateSteps.TwoTabsBreakOrder`).
* *The listing and the detail page show the same status.* For an own event this holds exactly when
  the owner has no invite to it (`Listing.ListingAgrees`); a guest may forward to the owner, and a
  run does (`Listing.OwnerWithInviteDiffers`).
* *A live account can be deleted.* Exactly when nobody else holds the address the deleted row is
  given (`Accounts.DeleteSucceedsIff`). Registration accepts any address that is not empty, so two
  signups reach a live account whose deletion is an error (`Scenarios.DeletionBlocked`), and it stays
  one for as long as the other account is kept (`Invitations.HeldTombstoneBlocks`).
* *A deleted account's email can register again.* Exactly when it is not the address the deleted row
  is given (`Accounts.EmailReleasedIff`, with an input in `Scenarios.OwnTombstoneNotReleased`). That
  address contains the user's identifier, which the database draws at random when the account is
  made. The model's identifiers are sequential, so here one's own can be foreseen; in the application
  it would have to be guessed. Another user's identifier need not be guessed.
* *The mock's two shared-event counts agree.* Exactly when every shared event still exists, because
  the mock keeps the invites of a deleted event (`Attendance.TogetherCountIff`).
* *Editing an event leaves its deadline alone.* Exactly when the deadline is a positive whole number
  of days before the event (`RsvpForm.DeadlineSurvivesIff`), which every deadline made on a form is;
  one and a half days become two (`RsvpForm.HalfDayLost`).
* The comment at `internal/event/service.go:33-34` exempts the owner from the closed deadline for
  responses too; the code at lines 193-195 does not, and the model follows the code
  (`CallEffects.ClosedToGuests`).

## Model

| member | source | states |
|---|---|---|
| ForwardSteps.ScheduleIsSequential | internal/event/repository.go:361-415 | however the steps of any number of forwards interleave with each other and with all other calls, the state is the one that atomic forwards reach in commit order, and the transactions that ended without an abort correspond one to one to the forwards in that order, each with the answer the atomic forward gives at its place |
| ForwardSteps.CommitsAreSafe | internal/event/repository.go:384-413 | at every commit of every schedule the sender's committed invite is accepted and its live sent count is below its spread |
| ForwardSteps.CommitGrants | internal/event/repository.go:396-412 | a commit makes exactly one new row visible, with spread 0, sent by the holder of the locked row |
| ForwardSteps.CommitKeepsLists | internal/event/repository.go:361-415 | a commit keeps chains and budgets sound |
| ForwardSteps.ScheduleSound | internal/event/repository.go:368-390 | in every schedule row locks are exclusive, and what a session read under its lock is still true when it inserts |
| GuestLists.ReachableSound | internal/event/service.go:207-280 | in every reachable state a forwarded row has spread 0, its sender's own forwarded row is newer or gone, and every guest is within budget |
| GuestLists.CallKeepsSound | internal/event/service.go:182-280 | no call of any kind breaks a chain or a budget |
| GuestLists.RunKeepsSound | internal/event/service.go:182-280 | nor does any run of calls |
| GuestLists.SoundAfter | internal/event/repository.go:341-415 | trimming rows, or adding one row with budget, keeps chains and budgets |
| GuestLists.NoInviterCycle | internal/event/repository.go:392-399 | no user occurs twice when following `invited_by` through non-owners, even after removals and re-invites |
| GuestLists.InviterChainEnds | internal/event/repository.go:392-399 | following `invited_by` from any live invite ends at the owner or at a user with no live invite |
| GuestLists.BudgetOverRun | internal/event/repository.go:384-394 | over any run in which a guest keeps the same invite, what they sent since it was created fits its spread, and all they sent fits the larger of the spread and what was live at the start |
| GuestLists.NeverExceedsIff | internal/event/repository.go:384-394 | live forwards stay within the spread in every continuation exactly when they are within it now |
| GuestLists.SpreadCoversIff | internal/event/service.go:216-225 | after an owner's invite the plain bound holds for ever exactly when the granted spread covers the guest's live forwards |
| GuestLists.OldRowsOnlyLeave | internal/event/repository.go:259-269 | over a run an older row can only disappear; sender, spread and creation never change |
| GuestLists.RemovalHandsBudgetBack | internal/event/service.go:261-280 | taking back one forward lowers the count by one and the sender can forward again at once |
| Scenarios.ReinviteExceedsSpread | internal/event/service.go:250-259 | a legal run from the empty database ends with a guest who has one live forward and spread 0 |
| CallEffects.SendExactly | internal/event/service.go:207-240 | read off the tables: when an invitation succeeds, what each refusal says and when, and the whole new state: one row, whose spread is 0 unless the owner sent it, and one notification to the guest |
| CallEffects.RemoveExactly | internal/event/service.go:245-280 | who may remove whom and when, what each refusal says, the whole new state, and that the guest is told |
| CallEffects.OpenToGuests | internal/event/service.go:35-37 | at an event with no deadline, or up to and including it, answers and guests' invitations and removals succeed exactly on their other conditions and are never refused as late |
| CallEffects.ClosedToGuests | internal/event/service.go:193-195 | once a deadline is past, guests' invitations and removals and everybody's answers are refused as late and change nothing |
| CallEffects.RespondExactly | internal/event/service.go:182-205 | when an answer is taken, what each refusal says, the row it leaves, and that whoever sent the invite is told |
| CallEffects.MissingEvent | internal/event/service.go:211-214 | nothing is done about an event that does not exist |
| CallEffects.CreateExactly | internal/event/service.go:100-108 | an event is created, under a fresh id and as asked for, exactly when it lies ahead, its deadline is on or before it and its owner exists; what each refusal says |
| CallEffects.DeleteExactly | internal/event/repository.go:49-59 | the owner deletes an event with exactly its invites; anyone else is told it does not exist |
| Responses.LastAnswerStands | internal/event/service.go:182-205 | after any number of attempts to answer, the row shows the last one that was taken, with a reason only for declining, whatever came before and whatever was refused after |
| Responses.RefusedAnswersLeaveNothing | internal/event/service.go:183-195 | attempts with a wrong status or past the deadline, however many, change nothing |
| Responses.SenderHearsEachAnswer | internal/event/service.go:197-203 | the sender of the invite hears of every answer taken, as often as it was, and nobody of anything else |
| Responses.AnswersKeepBudgets | internal/event/repository.go:384-394 | answering, declining included, leaves every sender's count of live invites as it was |
| CallEffects.UpdateExactly | internal/event/service.go:114-144 | an update is accepted exactly when the caller owns the event and the patched row lies ahead with its deadline on or before it; that row is stored and returned; what each refusal says |
| CallEffects.PatchedRow | internal/event/repository.go:68-80 | every field takes the patch's value when it has one and keeps its own otherwise, and clearing the icon wins over setting it |
| Patches.LastPatchStands | internal/event/repository.go:68-80 | after any number of updates, accepted or not, name, date, deadline and default spread each hold what the last accepted patch that carried it gave, or what they held at first |
| Patches.LastIconStands | internal/event/repository.go:77-77 | the icon is what the last accepted patch that set or cleared it asked for |
| InviteRules.ForwardSucceedsIff | internal/event/service.go:227-239 | a guest's forward succeeds exactly when the deadline is open, the target is new and exists, and the sender is accepted with budget left |
| Shapes.CallShape | internal/event/service.go:182-280 | every call either trims guest lists or adds exactly one row, sent by the owner or by an accepted guest with budget left |
| Consistency.CallConsistent | migrations/000006_create_event_invites.up.sql:1-10 | every reference, uniqueness and check constraint of the modelled columns survives every modelled call |
| Consistency.RunConsistent | migrations/000014_create_network_invites.up.sql:1-15 | and every run of such calls |
| Consistency.DeleteUserConsistent | internal/auth/repository.go:132-164 | the cascades and statements of an account deletion leave no dangling reference |
| Consistency.ResolveConsistent | migrations/000004_create_connections.up.sql:1-10 | resolving invitations makes no self connection and no dangling one |
| RsvpFreeze.FrozenRun | internal/event/service.go:193-195 | after the deadline, a run in which the owner leaves the event alone and no listed account is deleted leaves the event and every row of its guest list exactly as they were |
| RsvpFreeze.FrozenCall | internal/event/service.go:227-229 | the same for one call of any kind |
| RsvpFreeze.FrozenRemove | internal/event/service.go:261-263 | a guest's removal after the deadline changes nothing on the list |
| FreezeSteps.FrozenSchedule | internal/event/service.go:227-232 | over any schedule of steps after the deadline, with the owner away and no listed account deleted, every row stays as it was and each new row was committed by a forward opened before |
| FreezeExact.FrozenIff | internal/event/service.go:227-232 | from any state and any transactions in progress at a closed event: no schedule without the owner changes the list if and only if no open forward has an accepted sender with budget left and a guest not invited who exists or may still sign up |
| FreezeExact.NoneLands | internal/event/repository.go:361-415 | when no open forward can land, every row stays as it was over every such schedule |
| FreezeExact.FromExpected | internal/event/repository.go:361-415 | when one can, there is a schedule without the owner after which its row is there |
| FreezeSteps.LateCommitHappens | internal/event/service.go:227-232 | from a reachable state, a forward checked before the deadline adds its row after it |
| EventUpdates.RunInOrder | internal/event/service.go:100-144 | in every reachable state each deadline is on or before its event |
| EventUpdates.CheckedUpdateInOrder | internal/event/repository.go:68-80 | the row COALESCE writes has the date and deadline the service checked |
| EventUpdates.StaleCheckSafeIff | internal/event/service.go:115-139 | a check on an older row protects every row the statement may meet exactly when date and deadline come together or not at all |
| EventUpdates.InterleavedUpdatesBreakOrder | internal/event/service.go:115-139 | two interleaved updates, each accepted, leave a deadline after its event |
| UpdateSteps.ScheduleInOrder | internal/event/service.go:115-139 | over every schedule of checks, later writes and other calls in which each payload has both dates or neither, deadlines stay on or before their events |
| UpdateSteps.TwoTabsBreakOrder | internal/event/service.go:115-139 | from a reachable state, two updates that both check before either writes leave the deadline after the event |
| UpdateSteps.UpdateAlone | internal/event/service.go:114-144 | a write right after its check does what the update does in one step |
| EventUpdates.UpdateNotifiesEachInviteeOnce | internal/event/service.go:83-98 | an accepted update raises exactly one notice per invitee and none for the owner, even an owner with an invite |
| EventUpdates.FanOutOnce | internal/event/repository.go:231-240 | the same for any order the attendee query returns |
| EventRepository.CreateEvent | internal/event/repository.go:21-47 | inserts the row under a fresh id, or reports a missing owner |
| EventRepository.DeleteEvent | internal/event/repository.go:49-59 | deletes an own event with its invites, or reports it missing |
| EventRepository.UpdateEvent | internal/event/repository.go:61-100 | writes the patched row of an own event, field by field |
| EventRepository.GetEvent | internal/event/repository.go:102-121 | the row, or event not found |
| EventRepository.GetEventInvite | internal/event/repository.go:187-206 | the row, or invite not found |
| EventRepository.RespondToEventInvite | internal/event/repository.go:208-227 | sets status and reason of an existing row |
| EventRepository.DeleteEventInvite | internal/event/repository.go:259-269 | deletes an existing row |
| EventRepository.CreateEventInvite | internal/event/repository.go:341-359 | inserts the row or reports which constraint refused it |
| EventRepository.ForwardEventInvite | internal/event/repository.go:361-415 | lock, count, test and insert as one step |
| EventRepository.ListEventAttendees | internal/event/repository.go:229-257 | the owner and every invitee, each once, in any order |
| EventRepository.ListPendingInvitesWithRsvpDeadlineOn | internal/event/repository.go:275-305 | the pending invites due that day and not yet reminded, each once |
| EventRepository.ListAcceptedInvitesWithEventOn | internal/event/repository.go:310-339 | the accepted invites starting that day and not yet reminded, each once |
| EventService.CreateEvent | internal/event/service.go:100-108 | effect and answer of the call |
| EventService.NotifyInvitees | internal/event/service.go:83-98 | one notice for each listed attendee but the actor, whichever inserts fail |
| EventService.UpdateEvent | internal/event/service.go:114-144 | effect and answer of the call, including the fan-out |
| EventService.SendEventInvite | internal/event/service.go:207-240 | effect and answer of the call |
| EventService.RemoveEventInvite | internal/event/service.go:245-280 | effect and answer of the call |
| EventService.RespondToEventInvite | internal/event/service.go:182-205 | effect and answer of the call |
| EventService.SendDailyReminders | internal/event/service.go:291-310 | the loops raise one reminder per listed invite whose insert does not fail, the second listing made after the first batch |
| Reminders.RunKeepsUnique | internal/event/service.go:291-310 | over any run of calls and daily jobs, whichever inserts fail, no user has two reminders of one kind for one event |
| Reminders.CallKeepsUnique | internal/event/repository.go:283-288 | the same for one call |
| Reminders.RaisedExactly | internal/event/service.go:297-307 | a reminder is raised exactly for the listed invites whose insert did not fail |
| Reminders.RunRemindsAll | internal/event/service.go:291-310 | a run without failures leaves every invite that is due with its reminder |
| Reminders.EveryoneDueIsReminded | internal/event/repository.go:276-322 | after a run that lost nothing, every pending guest of an event with its deadline tomorrow and every accepted guest of an event today has that reminder |
| Reminders.OnlyTheDueAreReminded | internal/event/repository.go:276-322 | whatever a run loses, all it adds is unread reminders to such guests who had none, and nothing else changes |
| Reminders.RepeatAddsNothing | internal/event/service.go:287-290 | repeating such a run at once adds nothing |
| ReminderSteps.ReminderStepsUnique | internal/event/service.go:286-310 | whatever jobs and calls run beside each other and whichever inserts fail, some reminder of either kind is there twice exactly when two jobs had listed it before the first delivered it and both delivered it, the account not deleted since |
| ReminderTurns.InTurnUnique | joyna-app/templates/notifier-cronjob.yaml:9-10 | jobs none of which inserts between another's listing and a later insert of that other never send a reminder twice, whatever calls run beside them |
| ReminderTurns.SentAt | internal/event/service.go:293-307 | every delivered reminder goes back to one insert of its job and to the earlier listing of its batch |
| ReminderSteps.ScheduleSound | internal/event/repository.go:276-288 | in every schedule a batch holds only reminders that were not there when it was listed, and delivers each once |
| ReminderSteps.JobAlone | internal/event/service.go:291-310 | a job whose steps have nothing between them does what one atomic run does |
| ReminderSteps.TwoJobsSendTwice | internal/event/service.go:286-310 | from a reachable state, two overlapping jobs tell the same guest twice |
| Listing.GetEventDetail | internal/event/service.go:153-173 | owner and invitees see the event with their own row's data; anyone else is told it does not exist |
| Listing.GetEventsByOwner | internal/event/repository.go:127-185 | every event in scope once, with the status a lookup of the viewer's own row gives |
| Listing.ListedExactly | internal/event/repository.go:137-182 | by the tables: which events each of the three scopes lists, each once, and what an entry says about the viewer |
| Listing.StatusByEvent | internal/event/repository.go:159-174 | the map of statuses agrees with a lookup for every event |
| Listing.ListingOpens | internal/event/repository.go:137-144 | scope "all" lists exactly the events the detail page opens |
| Listing.ListingAgrees | internal/event/repository.go:171-182 | each entry shows what the detail page shows, the status exactly unless the owner holds an invite |
| Listing.OwnerWithInviteDiffers | internal/event/service.go:158-160 | in a reachable state the owner of an event, invited by a guest, has a status in the list and none on the page |
| Feed.BrowseShowsFeed | internal/notification/service.go:168-186 | pages 1 to the reported count show the whole feed, each item once, newest first, although every visit marks all as read |
| Feed.BrowsePrefix | internal/notification/repository.go:45-70 | after n pages exactly the first 30n items have been shown |
| Feed.PageItems | internal/notification/repository.go:46-54 | item by item, page n shows the thirty items after those of the pages before it |
| Feed.FeedHolds | internal/notification/repository.go:46-52 | the feed holds each of the user's notifications as often as the table, as it was raised, and nobody else's |
| Feed.NewestFirst | internal/notification/repository.go:51-52 | what is raised later comes first |
| Feed.UnreadCounts | internal/notification/repository.go:99-101 | the unread count is the number of the user's rows that are not read |
| Feed.PageBounds | internal/notification/handler.go:56-59 | at most 30 items a page, full pages before the last, and something on each page up to the count when there is anything |
| Feed.UnreadIsSinceVisit | internal/notification/repository.go:97-107 | after any run the unread count is the number of notifications raised since the last visit |
| Feed.ListForUser | internal/notification/service.go:168-186 | the page as it was before the visit and the total; afterwards all of the user's rows are read |
| Feed.CountByUser | internal/notification/repository.go:74-84 | counting the user's rows gives the length of the feed that is paged |
| Feed.MarkAllAsRead | internal/notification/repository.go:86-95 | row by row: the user's become read, every other row and the order stay |
| Network.CreateMutualConnection | internal/network/repository.go:266-289 | both directions or none; an existing row is left as it is |
| Network.MutualExactly | internal/network/repository.go:273-284 | connecting succeeds exactly for two different users, adds the missing directions without group or flag, and leaves every other row |
| Network.MarkInviteAccepted | internal/network/repository.go:248-260 | accepts an existing invitation |
| Network.InviteByEmail | internal/network/service.go:76-103 | inserts or refreshes the pending row; it stays when the mail cannot be sent |
| Network.InviteAnswers | internal/network/service.go:78-103 | an empty address and one that has an account are refused without a trace; otherwise only a failing mail is an error |
| Network.InviteLeavesOnePending | internal/network/repository.go:205-224 | inviting an address again refreshes the pending row instead of adding one: afterwards exactly one is pending, dated now, and no other row changes |
| Network.PendingIs | internal/network/repository.go:228-232 | the invitations a registration looks at: those to the address that are not accepted |
| Network.ResolvePendingInvites | internal/network/service.go:110-127 | the loop with its early listing error and its per-invite failures |
| Network.ResolveSettles | internal/network/service.go:116-126 | whatever fails, each listed invite ends accepted with both directions connected or is untouched and pending; an error is reported exactly when one is pending; other invites and connections are untouched |
| Network.ResolveAllRows | internal/network/service.go:117-125 | which invites are accepted, in terms of which calls fail |
| Network.ResolveAllConnections | internal/network/repository.go:266-289 | connections only come, and only between the user and an inviter of a listed invite |
| Network.RerunClearsIff | internal/network/service.go:110-127 | in any consistent state, a failure-free rerun clears the address exactly when no pending row is the user's own |
| Invitations.RerunClears | internal/network/service.go:110-127 | in every reachable state, whatever failed before, a failure-free rerun reports no error, leaves nothing pending for the user's address and connects them with every inviter |
| Invitations.RegisteringConnects | internal/auth/service.go:52-63 | registering an address without failures connects the new account with everyone who invited it and leaves nothing pending |
| Invitations.ReachableToOthers | internal/network/service.go:82-88 | in every reachable state nobody has a pending invitation to the address of their own account |
| Invitations.CallKeepsToOthers | internal/network/service.go:82-88 | no call of any kind makes such an invitation |
| Invitations.HeldTombstoneBlocks | internal/auth/repository.go:154-164 | over any run in which someone else keeps an account under a user's tombstone address, that user cannot be deleted |
| Accounts.AllStatements | internal/auth/repository.go:132-164 | the statements in their order, with cascades, do together what the erased state says |
| Accounts.CleanUp | internal/auth/repository.go:145-149 | the loop over the statements runs them in order up to the one that fails, if any |
| Accounts.DeleteUser | internal/auth/repository.go:114-170 | all or nothing: whichever statement of the transaction fails, nothing of it is left, and without a failure the whole deletion is there |
| Accounts.DeleteSucceedsIff | internal/auth/repository.go:121-164 | a deletion succeeds exactly for a live account whose tombstone address nobody else holds |
| Scenarios.DeletionBlocked | internal/auth/repository.go:154-164 | two signups reach a live account that cannot be deleted |
| Scenarios.OwnTombstoneNotReleased | internal/auth/repository.go:154-164 | an account registered under its own tombstone address, whose deletion does not release it |
| Accounts.CreateUser | internal/auth/repository.go:38-65 | user and credentials together, or the constraint that refused |
| Accounts.RegisterExactly | internal/auth/repository.go:38-59 | an address can be registered exactly when no account and no sign-in has it, and what is stored |
| Accounts.DeleteLeavesNoTrace | internal/auth/repository.go:132-164 | no credentials, connection, group, template, notification, subscription, network invite, future event or future invite of the user is left |
| Accounts.DeletePreservesThePast | internal/auth/repository.go:110-113 | past events keep their rows and guest lists; other people's events, invites and accounts are untouched |
| Accounts.DeleteKeepsOtherOwners | internal/auth/repository.go:132-138 | exactly the user's own groups, templates, subscriptions and sign-in are gone |
| Accounts.DeleteKeepsOtherConnections | internal/auth/repository.go:134-152 | a connection between two others keeps its flag, and its group unless the user owned that group; an invitation goes exactly if the user sent it or it was to their address |
| Accounts.DeletedRow | internal/auth/repository.go:154-164 | what the row that stays says |
| Accounts.TombstonesDiffer | internal/auth/repository.go:157-157 | no two accounts are left with the same address |
| Accounts.DeletionsDoNotBlock | internal/auth/repository.go:154-164 | deleting one account never keeps another from being deleted |
| Accounts.DeleteKeepsOtherFeeds | internal/auth/repository.go:137-137 | nobody else loses a notification |
| Accounts.EmailReleasedIff | internal/auth/repository.go:154-164 | the address can register again exactly when it is not the tombstone address |
| Accounts.ReRegistrationStartsFresh | internal/auth/service.go:45-74 | registering the freed address gives a new user with no connection, no pending invitation and no notification |
| Attendance.MockBackend.EventAttendees | frontend/src/mocks/handlers.ts:99-111 | the owner and everyone invited who has not declined |
| Attendance.MockBackend.EventsTogetherCount | frontend/src/mocks/handlers.ts:85-94 | how many existing events both users attended |
| Attendance.MockBackend.ListPotentialConnections | frontend/src/mocks/handlers.ts:121-150 | the map holds exactly the other users who are no contacts yet and share an event, with the number they share |
| Attendance.LoopIsGroupedQuery | internal/network/repository.go:71-89 | on the same rows the map equals the grouped query's result |
| Attendance.CountAgrees | internal/network/repository.go:34-46 | every count in it is the lateral count, in either direction |
| Attendance.TogetherIsLateral | internal/network/repository.go:34-46 | on consistent rows the pairwise loop gives the lateral count |
| Attendance.TogetherCountIff | frontend/src/mocks/handlers.ts:85-94 | the pairwise loop counts all shared events exactly when they all still exist |
| Attendance.OrphanInvitesDisagree | frontend/src/mocks/handlers.ts:121-150 | two guests of a deleted event, on whom the two loops disagree |
| Attendance.AttendsIff | frontend/src/mocks/handlers.ts:99-131 | being an attendee of an event and having attended it are the same |
| Attendance.CountsAreShared | frontend/src/mocks/handlers.ts:99-150 | by the arrays: who is suggested, with the number of events both own or hold an invite to that is not declined |
| Attendance.TogetherIsShared | frontend/src/mocks/handlers.ts:85-111 | by the arrays: the pairwise loop counts the events both own or hold such an invite to and that are still listed |
| Attendance.QueriesCountShared | internal/network/repository.go:34-89 | by the tables: both queries count exactly those events |
| GuestCommit.CommitInAnyOrder | frontend/src/routes/event-detail.tsx:331-358 | in whatever order the server takes the requests, the invited guests end up as the draft's (those the server accepts), kept rows and other events untouched |
| GuestCommit.CommitReachesDraftIff | frontend/src/routes/event-detail.tsx:341-358 | the draft is reached exactly when every added guest is an existing user other than the owner |
| GuestCommit.ServeAllRows | internal/event/service.go:216-259 | what any sequence of such requests does to every single row |
| GuestCommit.LoadedGuests | frontend/src/routes/event-detail.tsx:334-336 | the ids the page loads as guests are the invited users, an invited owner included |
| GuestCommit.QueryIsShown | internal/event/repository.go:231-240 | the attendee query returns the owner, marked as such, and everyone with an invite, and nobody else |
| GuestCommit.CommitGuests | frontend/src/routes/event-detail.tsx:331-361 | for the attendees the page shows: someone is invited afterwards exactly when the draft has them as a guest and they were invited or are an existing user other than the owner, kept rows and other events unchanged, new rows plain; a draft that names the loaded guests sends no request |
| Base64Url.RoundTrip | frontend/lib/push.ts:4-13 | every byte string comes back from its unpadded base64url encoding |
| Base64Url.Alphabets | frontend/lib/push.ts:6-7 | the two alphabets of sections 4 and 5 of RFC 4648 in their order, and the swap between them |
| Base64Url.PackIsBigEndian | frontend/lib/push.ts:7-11 | three bytes and their four characters are the same 24-bit number, as section 4 of RFC 4648 has it |
| Base64Url.PackFillsUp | frontend/lib/push.ts:4-13 | a shorter group is encoded as if filled up with zero bytes, as section 4 of RFC 4648 has it |
| Base64Url.EncodeGroup | frontend/lib/push.ts:4-13 | three bytes at a time |
| Base64Url.DecodesIff | frontend/lib/push.ts:5-7 | which texts without blanks decode, including how much padding of their own they may carry |
| Base64Url.ReencodesIff | frontend/lib/push.ts:4-13 | a key text is the encoding of its bytes exactly when its spare bits are zero |
| Base64Url.PaddingComesOff | frontend/lib/push.ts:5-6 | the padding the page computes is what the decoder takes off |
| Base64Url.UrlBase64ToUint8Array | frontend/lib/push.ts:4-13 | the loop fills the array with the decoded bytes; it fails exactly when decoding does |
| RsvpForm.FormMadeSurvives | frontend/src/routes/create-event.tsx:79-83 | a deadline of any positive number of days, weeks or months is loaded and saved unchanged, with the rest of the row |
| RsvpForm.DeadlineIs | frontend/src/routes/create-event.tsx:18-22 | in milliseconds: days, weeks of seven and months of thirty |
| RsvpForm.EditedSave | frontend/src/routes/edit-event.tsx:151-162 | what saving an edited form leaves in every field: an emptied icon is gone, the deadline is counted back from the new date or stays |
| RsvpForm.ValidateIff | internal/eventtemplate/model.go:105-116 | which deadline fields a template may have, and what each refusal says |
| RsvpForm.DeadlineSurvivesIff | frontend/src/routes/edit-event.tsx:112-133 | an untouched save keeps a deadline exactly when it lies a positive whole number of days before the date shown |
| RsvpForm.HalfDayLost | frontend/src/routes/edit-event.tsx:113-117 | a deadline one and a half days before is saved as two days before |
| RsvpForm.ResavingIsIdempotent | frontend/src/routes/edit-event.tsx:112-133 | saving untouched twice is saving once |
| RsvpForm.OffsetMovesHalfADayIff | frontend/src/routes/edit-event.tsx:113-118 | the offset moves by at most half a day exactly when it was at least half a day |
| RsvpForm.ResaveRefusedIff | internal/event/service.go:132-137 | an untouched save is refused only for a past date, and its deadline is a day or more before the date |
| RsvpForm.ResavedIs | frontend/src/routes/edit-event.tsx:99-111 | everything but the date's seconds and the deadline survives an untouched save |
| RsvpForm.EditEvent.LoadEvent | frontend/src/routes/edit-event.tsx:91-121 | the form's fields after loading an event |
| RsvpForm.CombineDateAndTime | frontend/src/routes/edit-event.tsx:38-43 | a new date on the same day at the given time; the given date is not changed |
| RsvpForm.CombinedIs | frontend/src/routes/create-event.tsx:36-41 | in milliseconds: clock text puts a date at that hour and minute of its own day |
| RsvpForm.CombineReadsBack | frontend/src/routes/edit-event.tsx:45-47 | a date's clock text put back on the date is the date to the minute |
| RsvpForm.TimeSurvivesIff | internal/eventtemplate/model.go:80-91 | clock text survives being combined and read back exactly when the server's pattern accepts it |
| RsvpForm.TemplateTimeSurvives | frontend/lib/event-template.ts:63-67 | every time of day the server accepts resolves to clock text that survives |
| RsvpForm.TemplateTimes | frontend/lib/event-template.ts:53-67 | which clock text each time of day resolves to, and which texts the server accepts |
| RsvpForm.ResolveTemplateDate | frontend/lib/event-template.ts:42-51 | none, today, nothing for an unknown option, or the coming weekday |
| RsvpForm.ComingWeekday | frontend/lib/event-template.ts:47-49 | the least day from today with that weekday, zero to six days ahead |
| RsvpForm.WeekdayAnchors | frontend/lib/event-template.ts:28-48 | two known dates and the order of the weekday options |
| RsvpForm.TemplateEventIsPastIff | frontend/src/routes/create-event.tsx:65-66 | an event made from a weekday template is in the past exactly when it is for today and its time has gone by |
| RsvpForm.TemplateDeadlineSurvives | internal/eventtemplate/model.go:105-116 | a template deadline the server accepted gives a deadline before the event that survives editing |
| Grouping.GroupEventsByMonth | frontend/components/joyna/event-list.tsx:15-27 | the groups flatten to the list, none is empty, each has one label, neighbours differ |
| Grouping.GroupingUnique | frontend/components/joyna/event-list.tsx:15-27 | there is only one such grouping |
| Grouping.LabelsDistinctIff | frontend/components/joyna/event-list.tsx:10-14 | no label occurs twice exactly when the list never returns to a month |
| Grouping.SortedGivesDistinctLabels | frontend/components/joyna/event-list.tsx:10-14 | a list sorted by date either way gives distinct labels |
| Grouping.GroupConnections | frontend/src/routes/network.tsx:69-100 | one group per key, named by its first contact, groups by name, members sorted |
| Grouping.CollectByKey | frontend/src/routes/network.tsx:75-86 | the map holds, for every key in use, its contacts in list order under the first one's group name |
| Grouping.GroupsPartition | frontend/src/routes/network.tsx:75-86 | each contact is in its key's group as often as in the list and in no other; members come by shared events, then name |
| Grouping.ShownTogether | frontend/src/routes/network.tsx:75-76 | everyone is shown as often as listed, with exactly those of the same group id, those without one among themselves |
| Grouping.NamedByFirst | frontend/src/routes/network.tsx:80-84 | a group has the name its first listed member gives, or "Acquaintances" |
| Grouping.PageOrder | frontend/src/routes/network.tsx:88-99 | more shared events first, then by name; groups by name |
| Grouping.SortSorts | frontend/src/routes/network.tsx:88-99 | the sort orders its input and keeps every element |
| Grouping.SortIsStable | frontend/src/routes/network.tsx:91-93 | elements that compare equal keep their order |

## Left out

- HTTP handlers, JSON, sessions, password hashing and UUID syntax: the model starts at the service call.
- Seeding default templates on registration, and group and template editing: they touch rows no theorem here is about.
- Push delivery, with the removal of expired subscriptions, and the texts of messages and mails.
- Description, location, type, mood and coordinates of an event: merged by UPDATE just as the name is.
- ORDER BY in listings: a listing is any order of its rows, each once.
- The 32-bit width of the stored spread.
- UUIDs and the creation time of an invite: identifiers are numbers from a supply, and an invite's creation is its number in commit order.
- Consistency.CallConsistent: leaves out the uniqueness of group names, subscription endpoints and invitation tokens and the checks on templates, because those columns are not modelled.
- Consistency.RunConsistent: leaves out the same constraints, and calls that edit connections, groups, templates and subscriptions one row at a time.
- Concurrency of calls other than forwarding, the daily job and updates: each is one step.
- RsvpFreeze.FrozenRun: takes each call as one step; `FreezeSteps.FrozenSchedule` takes forwarding apart.
- ForwardSteps.ScheduleIsSequential: deadlocks and lost connections appear as aborts at any point, and what a client is told about an aborted call is not compared; the `event_invite` notification after a committed forward is in no step.
- Feed.BrowseShowsFeed: assumes one fixed total order of a user's notifications, newest first and the later insert first among equal times; the query orders by `created_at` alone and leaves ties open.
- Feed.BrowsePrefix: assumes the same fixed order.
- Accounts.AllStatements: leaves out the statement that deletes sessions, because there is no session table in the model.
- Accounts.CleanUp: leaves out the same statement.
- FreezeSteps.FrozenSchedule: says which rows appear, not when one does; `FreezeExact.FrozenIff` does.
- Attendance.MockBackend.ListPotentialConnections: leaves out the mock's sort by count and its lookup of names.
- Names of the JavaScript object prototype as times of day, and time texts other than empty or two digits, a colon and two digits.
- Time zones, daylight saving and calendar formatting: the month label is a parameter that is constant over unbroken stretches of time.
- Grouping.GroupConnections: the page's comparison of names is any total preorder, and a group keeps the key it was collected under.
- Removing a deadline in an update: the code has no way to do it.

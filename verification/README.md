# dorang: a verified model of its administration and operations core

dorang is a gateway in front of language-model providers. This project models, in Dafny,
the parts of it whose correctness is a statement about whole runs or about every input:

- **Alerts.** Many nodes watch the same quota or balance. A figure is judged with a
  hysteresis band (`AlertVerdict`), each node keeps a cache and asks one shared table row
  per condition who may announce (`AlertRows`, `AlertEngine`). `AlertCluster` runs any
  number of nodes with one step per table statement and per locked cache access, so
  observations, primings, sweeps and delivery records interleave freely, clocks disagree,
  statements fail before or after they commit, and nodes restart. `AlertDelivery` says
  who sends what in those runs, `AlertHistory` what the rest of a row means, and
  `AlertLimits` where the promises end.
- **Mutations of the administration surface** (`Announce`): enumerate the keys a subject
  owns, write, announce every key, audit, while the other nodes cache keys and poll the
  announcements in their own time.
- **The shared configuration file** (`ConfigEdits`): setup changes with a revision and a
  secret file, and deployment toggles, from any number of processes under the file lock,
  with crashes, torn writes, and secrets removed after the lock is released.
- **The UI session table** (`Sessions`): one-time secrets, one-time notices, sessions that
  stay ended, and what an unsafe request has to prove.
- **The deployment update** (`EnvFile`, `DeployUpdate`): the `.env` reader and editor, and
  the update run with its rollback.
- **Money** (`Money`, over `Text` and `Machine`): three printers, a form field and a parser of 64-bit
  nano amounts, all related to the real number a decimal string denotes.
- **Algorithms against a plain specification**: model version shapes and the newest listed
  successor (`Versions`), two ring buffers (`RingBuffers`), and the search for free
  environment names (`Redaction`).

Objects the program updates in place are classes, its loops are loops, and every such
method is proved equal to a function of the old state. The statements over runs are about
those functions: a run is a sequence of steps, `Exec` folds it, and an invariant is proved
for one step and then for every run.

`dafny verify dfyconfig.toml` checks the whole project.

## Where the code and its promises differ

Each of these is stated exactly, for all inputs, by the member named.

- Reminders off uses the Unix epoch as the cutoff of a raise. Announcements alternate and
  never flap in every run by clocks from some instant on exactly when that instant is past
  the epoch (`AlertLimits.AlternatesExactly`), and the same instant decides whether one
  process announces the same with a table as without (`AlertEngine.SameExactly`). The other
  results on runs without reminders assume clocks past it.
- Half again the balance floor is a 64-bit sum that can wrap. A dollar balance recovers only
  at half again the floor exactly for floors up to 6148914691236517205 nano
  (`AlertVerdict.FloorExactly`, and over runs `AlertLimits.BalanceClears`).
- One sweep per retry round holds exactly when the retry interval is at least the
  microsecond the table keeps (`AlertDelivery.OneSweepPerRound`).
- With a low threshold of 100 or more there is no hold band (`AlertVerdict.BandExists`).
- The enumeration of a subject's keys refuses from the first whole number of pages that
  reaches 10,000: at 10,000 itself when the page size divides it, later when it does not.
  The message says "more than 10000" (`Announce.OwnedStable`).
- A mutation whose write the store commits and then reports as failed is in the store with
  nothing announced and nothing audited. For updating and deleting subjects and for writing
  keys that is the only way it happens; regenerating a key also stops so when what follows
  the new secret fails (the last clause of `Announce.Fleet.SubjectUpdate`, `SubjectDelete`,
  `KeysWrite` and `KeyRegenerate`; an instance is `Announce.WrittenUnannounced`).
- A successful reply means every key's message is published, not that every node has read
  it. What each node then holds of an announced key follows from its own fills and polls
  since the message, and an old copy is left exactly when some node holds one by that
  account (`Announce.CopyAfter`, `Announce.StaleExactly`): one that has not polled yet
  (`Announce.StaleUntilPolled`), or one that cached, after its poll, what it had read before
  the write, which no later poll drops (`Announce.StaleAfterPoll`; the load is inserted in
  internal/auth/authenticator.go:711-790 without looking at what was announced meanwhile).
  Once every other node has polled, and nothing old was cached, none is left
  (`Announce.PolledIsFresh`).
- Where the store tells a publisher the number of its message, the node moves its mark past
  that message and so past every message it had not read; its copies of those keys survive
  its next poll, which would drop them where the store does not (`Announce.MarkSkips`).
- The keys announced are those listed before the write. A key that joins the subject in
  between is announced by nobody (`Announce.JoinedUnannounced`).
- A refused setup change releases the file lock first and removes the secret file it minted
  afterwards. In between another change can name that file, load it and be written. The
  configuration comes to name a removed key file only through such a reference or a tear
  that cuts a name (`ConfigEdits.NamedOnlyByReference`; for one whole write exactly then,
  `ConfigEdits.TidyExactly`; a run without crash or tear is `ConfigEdits.RemovedFileNamed`).
  For the same reason what is written has loaded with the files there were at its
  validation, not with those there are when it is written.
- Loading a configuration opens key files but not OAuth stores, so an edit may also name a
  store that was removed before; what it writes does exactly when its own reference does
  (`ConfigEdits.FileNamed`, `ConfigEdits.RemovedStoreNamed`).
- The alert and command-line printers are exact except at the smallest 64-bit amount, where
  they print two signs (`Money.UsdExact`, `Money.CliExact`).
- The edit form's comment says a value round-trips unchanged. It does exactly for whole
  cents the parser takes, and near the 64-bit ends it shows no decimal at all
  (`Money.FormRoundTrip`, `Money.FormNearest`).
- A model name without a number gets no successor even when it reads as the skeleton of a
  listed one, which only a name holding `#` can (`Versions.NewestSuccessor`,
  `Versions.MarkedName`).
- A roll with no time left to wait passes without asking for health once
  (`DeployUpdate.HealthAsked`), and the version check treats every string that is not a
  release as 0.0.0 (`DeployUpdate.VersionCheck`).
- A `.env` rewrite that fails is left as it fell; only the backup holds the original
  (`DeployUpdate.Deployment.Update`).

## Model

| member | source | states |
|---|---|---|
| AlertVerdict.Normalised | internal/alerts/alerts.go:125-151 | what is given is kept where it makes sense, else 5 percent, twice the low threshold, five minutes and one minute; so under 100 the recovery threshold is above the low one and at most 100 |
| AlertVerdict.JudgeExactly | internal/alerts/alerts.go:175-190 | the verdict of a window on its own figures, both ways: no limit is OK, low exactly at or under the low threshold, OK exactly when not low and above the recovery threshold or full |
| AlertVerdict.BalanceExactly | internal/alerts/alerts.go:196-213 | the verdict of a dollar balance on its own figures, both ways: low exactly under the floor or with a low share, OK exactly at half again the floor and with its share, if it has one, OK; without a floor its share decides |
| AlertVerdict.FigureExactly | internal/app/alerts.go:96-175 | which rule each kind of figure goes through, and that a unit balance without a total is held |
| AlertVerdict.JudgeMonotone | internal/alerts/alerts.go:175-190 | more left never gives a worse verdict, for every window |
| AlertVerdict.BalanceMonotone | internal/alerts/alerts.go:196-213 | more left never gives a worse verdict, for a balance with a floor and a percentage |
| AlertVerdict.BalanceClear | internal/alerts/alerts.go:196-213 | a balance is low exactly when it is under the floor or its share is low, and OK only at the floor, at half again the floor where that fits in 64 bits, and with its share OK |
| AlertVerdict.FloorExactly | internal/alerts/alerts.go:205-211 | every balance judged OK stands at half again the floor exactly for floors whose half again fits in 64 bits |
| AlertVerdict.BandCrossed | internal/alerts/alerts.go:175-190 | a window or unit balance that was low and is now OK, which `JudgeExactly` says of its figures, has climbed across the whole hysteresis band, which is not empty |
| AlertVerdict.BandExists | internal/alerts/alerts.go:125-151 | some figure is held exactly when the low threshold is under 100 |
| AlertRows.Table.AlertRaise | internal/store/alerts.go:21-51 | the conditional upsert: wins unless the row is low and reminded after the cutoff, numbers the announcement, keeps since and event, and leaves the row low either way |
| AlertRows.Table.AlertResolve | internal/store/alerts.go:58-75 | wins exactly on a low row, numbers the recovery, and leaves the row not low either way |
| AlertRows.Table.AlertRetryClaim | internal/store/alerts.go:153-167 | wins exactly on the announcement and attempt named while the pending text is not empty, and moves the attempt time |
| AlertRows.Without | internal/store/alerts.go:202-210 | exactly the other non-blank transports remain |
| AlertEngine.AskedAgrees | internal/store/alerts.go:21-75 | won or lost, after its statement the row agrees with the observation |
| AlertEngine.PutCounts | internal/alerts/alerts.go:294-305 | writing a cache entry keeps the low counter equal to the number of low entries |
| AlertEngine.Engine.constructor | internal/alerts/alerts.go:125-151 | a new engine knows nothing and has normalised options |
| AlertEngine.Engine.AnyLow | internal/alerts/alerts.go:118-122 | true exactly when some cached condition is low |
| AlertEngine.Engine.Set | internal/alerts/alerts.go:294-305 | one entry is replaced and the counter stays exact |
| AlertEngine.Engine.Observe | internal/alerts/alerts.go:220-292 | cache, table and messages after one observation, with or without a table and with statements that fail, are those of the specification, whose messages are those of the next four rows and whose cache is that of `NextSkipped` |
| AlertEngine.MessagesExactly | internal/alerts/alerts.go:220-292 | without a table, over every run of observations: the messages are exactly a low at the start of each spell, a reminder at each low of it at least Remind after the last message, and a recovery at its end |
| AlertEngine.AnnouncesObserved | internal/alerts/alerts.go:220-292 | reminders off, with or without a table: the messages are exactly the changes of the observed flag, low and recovered, in order |
| AlertEngine.SendsNumbered | internal/alerts/alerts.go:220-292 | with a table an observation sends a message exactly when it moves the number of the row, and then with that number and as the row reads |
| AlertEngine.ReminderNumbered | internal/alerts/alerts.go:266-281 | a low observation of a low row moves its number exactly when a reminder is due by the row's own time |
| AlertEngine.NextSkipped | internal/alerts/alerts.go:220-292 | after an answered observation the next of the same kind is skipped exactly until a recheck is due and, while low, until a reminder is, counted from this one unless it lost its claim |
| AlertEngine.PrimedFacts | internal/alerts/alerts.go:339-358 | priming makes every listed condition known low, as listed and unconfirmed unless it was known low already, and touches no other |
| AlertEngine.SweptFacts | internal/alerts/alerts.go:362-392 | a sweep changes attempt times and nothing else, and every message is for the row's own announcement and goes to the transports it still owes |
| AlertEngine.Engine.Ask | internal/alerts/alerts.go:250-281 | the statement an observation runs, raise with the reminder cutoff or resolve, and the claim it returns |
| AlertEngine.Engine.Load | internal/alerts/alerts.go:339-358 | after it every listed condition is known low, and every condition not listed or already known low is as it was |
| AlertEngine.Engine.Sweep | internal/alerts/alerts.go:362-392 | nothing without a table; else rows and messages are those of claiming each listed item in order, skipping what does not parse and what fails, and every message goes where it is owed |
| AlertEngine.SameFromNothing | internal/alerts/alerts.go:220-292 | reminders off, one process: the engine without a table announces exactly what the engine with one does, on every run of observations |
| AlertEngine.SameExactly | internal/alerts/alerts.go:220-292 | that holds for every run by a clock from t on exactly when t is past the epoch in microseconds |
| AlertEngine.RemindersApart | internal/alerts/alerts.go:220-292 | without a table two successive low announcements of one spell are at least Remind apart and the second is a reminder; with reminders off there is none |
| AlertCluster.UninterruptedObserve | internal/alerts/alerts.go:220-292 | the three steps of an observation with nothing between them are the engine's Observe |
| AlertCluster.UninterruptedLoad | internal/alerts/alerts.go:339-358 | listing and priming steps with nothing between them are the engine's Load |
| AlertCluster.UninterruptedSweep | internal/alerts/alerts.go:362-392 | listing and claiming steps with nothing between them give the rows and messages of the engine's Sweep |
| AlertCluster.SweepResends | internal/alerts/alerts.go:362-392 | such a sweep with a full listing and answered claims resends every due announcement to every transport it owes |
| AlertCluster.TableRun | internal/store/alerts.go:21-107 | in every run, each key's announcements are numbered without gaps, each follows lawfully from the one before, the row is the last of them, and it owes exactly the undelivered transports |
| AlertCluster.Alternates | internal/alerts/alerts.go:220-292 | reminders off, any nodes, interleaving, failures and restarts: a key's announcements strictly alternate low, recovered, low, and the stored row is at the last of them |
| AlertCluster.AnnouncesCrossings | internal/alerts/alerts.go:220-292 | reminders off, after every run: a step announces a key exactly when it changes the low flag of the key's row, once, and as changed |
| AlertCluster.NoFlapping | internal/app/alerts.go:96-175 | between any two low announcements a figure was judged OK and its recovery announced; every announcement comes from a figure judged low or OK, so a held figure announces nothing |
| AlertCluster.ShareClimbs | internal/alerts/alerts.go:175-190 | from raw options to announcements: between two lows of a window or a unit balance its share climbed across the whole band |
| AlertLimits.AlternatesExactly | internal/alerts/alerts.go:266-281 | reminders off: every run by clocks from t on alternates, and never flaps, exactly when t is past the epoch in microseconds |
| AlertLimits.BalanceClears | internal/alerts/alerts.go:196-213 | in every run a dollar balance between two lows stood at half again the floor with its share OK, exactly when half again the floor fits in 64 bits |
| AlertCluster.RemindersSpaced | internal/alerts/alerts.go:266-281 | reminders on: two lows with no recovery between them are Remind apart up to a microsecond, across all nodes and retries |
| AlertCluster.SoundRun | internal/alerts/alerts.go:220-305 | in every run the low counters are exact and every confirmed cache entry was confirmed by the table at the time it says |
| AlertCluster.SkipsAreBacked | internal/alerts/alerts.go:224-237 | an observation a node keeps to itself is backed by a table answer of that node less than Recheck old that agreed with it |
| AlertCluster.AnyLowInRuns | internal/alerts/alerts.go:118-122 | AnyLow is exact in every reachable state |
| AlertDelivery.SentOnce | internal/alerts/alerts.go:220-292 | in every run no announcement is first sent twice, and only numbers the table issued are sent |
| AlertDelivery.SentAsAnnounced | internal/alerts/alerts.go:220-292 | in every run each message sent, low or recovered, carries the number and the state of an announcement the table issued |
| AlertDelivery.EveryClaimSent | internal/alerts/alerts.go:220-292 | in every run each announcement is sent, is about to be sent by the node that won it, or was lost with that node or with the answer it never got |
| AlertDelivery.FinishSpeaks | internal/alerts/alerts.go:245-292 | the step after a won claim sends exactly one message, with the claim's number and state, and after a lost one none |
| AlertDelivery.OneSweepPerRound | internal/alerts/alerts.go:362-392 | over all runs each retry round is claimed by at most one sweep, exactly when the retry interval is at least one microsecond |
| AlertDelivery.DeliveredOnce | internal/store/alerts.go:80-167 | once a delivery is on record no later retry of that announcement includes that transport, in any continuation of any run |
| AlertDelivery.RetriesRepeat | internal/alerts/alerts.go:362-392 | in every run what a sweep resends carries the number and the state of the announcement it retries |
| AlertDelivery.OwedExactly | internal/store/alerts.go:80-107 | in every reachable state a row owes its last announcement to exactly the transports it went to less those recorded delivered |
| AlertDelivery.OldAckIgnored | internal/store/alerts.go:80-107 | acknowledging an announcement that is no longer the row's changes no row |
| AlertHistory.SinceRun | internal/store/alerts.go:21-51 | in every run a row's since is the time of the announcement that began its latest spell, whatever reminders, recoveries and retries followed |
| AlertHistory.EventStep | internal/store/alerts.go:21-75 | a row is made only by a raise, with the event of its observation, and no statement changes the event |
| AlertHistory.EventFixed | internal/store/alerts.go:21-75 | the event of a row is the one it was made with, in every continuation of a run |
| AlertHistory.WithoutParts | internal/store/alerts.go:202-210 | the transports that remain keep their order |
| AlertHistory.NeverRetried | internal/store/alerts.go:153-167 | with no transport configured nothing is ever owed or sent again, in any run |
| AlertHistory.ReadAckExactly | internal/store/alerts.go:80-93 | a delivery that is not owed is recorded at once and without a write, an owed one through a conditional write of the list as read |
| AlertHistory.WriteAckExactly | internal/store/alerts.go:94-107 | that write takes effect exactly when it commits and the row still has the number and the list that were read, and then takes off the one transport |
| Announce.OwnedKeys | internal/admin/invalidation.go:236-269 | the paging loop ends whatever the store answers, never reads 10,000 plus a page, and refuses only having read 10,000 |
| Announce.OwnedStable | internal/admin/invalidation.go:214-269 | on a stable listing it returns every key once in order exactly when there are fewer than the first whole pages reaching 10,000, else refuses |
| Announce.OwnedExactly | internal/admin/invalidation.go:236-269 | whatever the store answers: after any number of full pages a failure refuses, a short page ends the listing with all that was read in order, and a page that reaches 10,000 refuses |
| Announce.OwnedAllExactly | internal/admin/users.go:309-368 | enumerating many subjects fails exactly when a lookup fails or a subject that is there cannot be enumerated, and else has every key of every one |
| Announce.OwnedAllInOrder | internal/admin/users.go:309-368 | it is the keys of the subjects that are there, one after another in the order named |
| Announce.OwnedAllStable | internal/admin/users.go:309-368 | on stable listings it succeeds exactly when no lookup fails and no subject has too many keys, and is then their concatenation |
| Announce.AnnouncedDrops | internal/auth/invalidation.go:225-239 | an announcement drops this node's copy of the key, published or not, and no other copy anywhere; the message is added exactly when it is published |
| Announce.MergeIds | internal/admin/keys.go:859-873 | exactly the trimmed non-blank ids of all the lists, each once, in the order first named |
| Announce.Fleet.constructor | internal/admin/invalidation.go:167-185 | a fleet starts with nothing cached, announced or audited |
| Announce.Fleet.Invalidate | internal/auth/invalidation.go:225-239 | the local copy is dropped even when publishing fails; a published message is added for the others to poll, and moves this node's own mark where the store numbers it |
| Announce.Fleet.TellAll | internal/admin/invalidation.go:278-286 | every key is attempted whatever the earlier ones did, success means all were published, and the nodes afterwards are those of the announcements and their own turns |
| Announce.Fleet.InvalidateKeys | internal/admin/invalidation.go:278-286 | the same, and when all were published exactly when no node holds an older copy |
| Announce.Fleet.AppliedTo | internal/admin/invalidation.go:296-302 | the announcements and after them, in every case, one audit row; the audit fault wins over the announcement's |
| Announce.Fleet.SubjectUpdate | internal/admin/users.go:245-306 | for a user or a team: a reply past the write means every owned key was attempted, with the cause of a new block, and then one audit row; success exactly when all of it worked; what was written in every outcome, and that it stays unannounced and unaudited exactly when the store committed and reported an error |
| Announce.Fleet.SubjectDelete | internal/admin/users.go:309-368 | for users or teams: refused exactly when none is named, a lookup fails or the keys of one that is there cannot be enumerated; past the write every key of every one that is there is announced revoked, and then one audit row; and the same exact exception |
| Announce.Fleet.KeysWrite | internal/admin/keys.go:504-756 | the same, with the same exact exception, for updating, deleting, blocking and unblocking keys, whose ids are known before the write |
| Announce.Fleet.KeyRegenerate | internal/admin/keys.go:763-845 | exactly when something was stored and nothing announced or audited: the new secret's write reported an error it had committed, or what follows it failed; otherwise one announcement and one audit row |
| Announce.EveryKeyAttempted | internal/admin/invalidation.go:278-286 | the attempts are for exactly the non-blank keys given, with the one cause |
| Announce.AttemptsInOrder | internal/admin/invalidation.go:278-286 | one attempt per key in the order given |
| Announce.AllPublished | internal/admin/invalidation.go:278-286 | the reply counts them as announced exactly when every attempt was published |
| Announce.CopyAfter | internal/cluster/invalidation.go:197-223 | what a node holds of an announced key at the reply, from what it held when the key was announced and its own fills and polls since |
| Announce.StaleExactly | internal/cluster/invalidation.go:17-30 | with every announcement published, no older copy is left exactly when every node has polled since the key's message or held nothing old, and filled nothing old since |
| Announce.PolledIsFresh | internal/cluster/invalidation.go:17-30 | none is left once every other node that held one has polled after the last announcement, if what was cached meanwhile was read after the write |
| Announce.MarkSkips | internal/cluster/invalidation.go:161-187 | announcing one key keeps the node's copy of another it had an unread message about through its next poll, exactly where the store numbers the publisher's message |
| Announce.StaleUntilPolled | internal/cluster/invalidation.go:34-39 | a block that replies success with nothing cached meanwhile, while a node that has not polled holds the old copy; its next poll drops it |
| Announce.StaleAfterPoll | internal/auth/authenticator.go:711-790 | an update that replies success while a node has cached, after its poll, the copy from before; its next poll keeps it |
| Announce.JoinedUnannounced | internal/admin/users.go:288-303 | an update that replies success while a key that joined after the listing is announced by nobody and keeps its old copy |
| Announce.WrittenUnannounced | internal/admin/keys.go:717-756 | a block the store commits and reports as failed: stored, not announced, not audited |
| ConfigEdits.Serialisable | internal/config/flock.go:47-73 | every interleaving of changes and toggles, with crashes, torn writes and later removals, is a serial run: the file is the logged edits replayed one after another, each admitted against exactly what the ones before it left, and loaded with the files there were at its validation |
| ConfigEdits.OneChangePerRevision | internal/app/adminsetup.go:134-136 | two changes against one revision are both written only if the file came back to the content both were made against |
| ConfigEdits.SecretsKept | internal/app/adminsetup.go:121-345 | in every interleaving, while no write has named a secret about to be removed and no tear has cut a name, the file on disk names as a key file none that is removed or about to be |
| ConfigEdits.TidyExactly | internal/app/adminsetup.go:177-275 | a whole write keeps to that exactly when its edit refers to no key file about to be removed |
| ConfigEdits.NamedOnlyByReference | internal/app/adminsetup.go:330-335 | in every interleaving a removed key file is named on disk only after a write whose edit referred to a file between its refusal and its removal, or a tear that cut a name |
| ConfigEdits.RemovedFileNamed | internal/app/adminsetup.go:330-335 | a run without crash or tear that ends with a removed file named, as a key file or as an OAuth store |
| ConfigEdits.FileNamed | internal/app/adminsetup.go:177-275 | what an edit writes names some of a set of files its base does not exactly when the edit itself refers to one, for key files and OAuth stores |
| ConfigEdits.StoresKept | internal/app/adminsetup.go:121-345 | in every interleaving of steps that refer to no OAuth store removed or about to be, none is named on disk |
| ConfigEdits.RemovedStoreNamed | internal/app/adminsetup.go:121-345 | two calls after which the file names a removed OAuth store |
| ConfigEdits.EditedExactly | internal/app/adminsetup.go:177-275 | an edit is refused exactly when it creates what is there, changes what is not, or keeps a source there is none of; else it leaves every other credential and the rest as they were and changes the one thing it names, the source by origin and kind |
| ConfigEdits.LeavesOne | internal/app/adminsetup.go:177-275 | that description leaves one document |
| ConfigEdits.ConfigFile.constructor | internal/app/adminsetup.go:121-132 | the file as it is found, with no edit made |
| ConfigEdits.ConfigFile.Admit | internal/app/adminsetup.go:121-176 | stale, unloadable or unacceptable, each exactly when, and else the change is welcome |
| ConfigEdits.ConfigFile.Settle | internal/app/adminsetup.go:177-345 | of a welcome change: no secret, no such item and invalid each exactly when; what is written is what the edit leaves; a refusal leaves the file as it was |
| ConfigEdits.ConfigFile.Change | internal/app/adminsetup.go:121-345 | which refusal, each exactly when, on the file, the revision, the key files and the item; every refusal leaves the file, and the secret files unless the removal fails, as they were; success leaves exactly the document the edit describes, which is valid and whose key files are there; a failed write keeps the secret and what the tear left |
| ConfigEdits.ConfigFile.SetDeploymentEnabled | internal/app/admin.go:1160-1195 | refused exactly when the file does not parse, there is no such deployment, or the result is not valid or names a key file that is not there; else exactly the rest is as flipped and every credential is as it was; no secret file is touched |
| ConfigEdits.CallIsRun | internal/config/flock.go:47-73 | a call nothing interleaves with is exactly the run of its lock, check, mint, settle, write and removal steps |
| Sessions.SessionTable.constructor | internal/admin/ui.go:1118-1143 | no sessions at first |
| Sessions.SessionTable.NewSession | internal/admin/ui.go:1118-1143 | the loop leaves exactly the unexpired sessions, plus the new one with empty slots |
| Sessions.SessionTable.LookupSession | internal/admin/ui.go:1035-1051 | found exactly when present and unexpired; an expired one is dropped |
| Sessions.SessionTable.DropSession | internal/admin/ui.go:1156-1163 | the session and its slots are gone, the others stay |
| Sessions.SessionTable.StashReveal | internal/admin/ui.go:1169-1182 | the slot holds the new secret with its deadline, replacing any other; no session, no change |
| Sessions.SessionTable.TakeReveal | internal/admin/ui.go:1190-1207 | the slot is empty afterwards and its secret is returned only before the deadline |
| Sessions.SessionTable.SetFlash | internal/admin/ui.go:1211-1223 | the notice replaces any other; an empty one or no session changes nothing |
| Sessions.SessionTable.TakeFlash | internal/admin/ui.go:1228-1242 | the notice is returned and cleared |
| Sessions.RevealedOnce | internal/admin/ui.go:1169-1207 | over every run no secret is shown twice, and each only to the session it was stashed in and before its deadline |
| Sessions.GoneForGood | internal/admin/ui.go:1156-1207 | a secret that has left its slot is never shown in any continuation |
| Sessions.HeldExactly | internal/admin/ui.go:885-1207 | a secret is out of its slot for good after a step that replaces or takes it or ends, sweeps or restarts its session, and is untouched by every other step |
| Sessions.StashedIsShown | internal/admin/ui.go:1169-1207 | however many other steps pass, a stashed secret that none of them empties is shown to the next taker within two minutes, and to nobody after |
| Sessions.NoteThenRead | internal/admin/ui.go:1211-1242 | a notice is shown to the next reader of its session |
| Sessions.SignedIn | internal/admin/ui.go:1118-1143 | signing in starts one session, live exactly for its time to live, with its own identity, scope and token and empty slots, and drops exactly the expired ones |
| Sessions.FlashedOnce | internal/admin/ui.go:1211-1242 | over every run each notice is shown at most once |
| Sessions.StaysEnded | internal/admin/ui.go:885-946 | once a session has ended, no request that arrives later is authorised by it, whatever becomes of its key |
| Sessions.SeenUnfit | internal/admin/ui.go:1097-1116 | seeing the key missing, or on its row blocked, pended, expired or of no team in scope, ends the session and grants the request nothing through it |
| Sessions.DecidedExactly | internal/admin/ui.go:885-1116 | for a request, whatever happens between its lookup and its decision: granted through the session exactly when it was live at the lookup, the key's row is none of those, and an unsafe method carries its token; by a header exactly when no fit session is carried and the method is safe; the session ends exactly on an unfit key |
| Sessions.SeenExpired | internal/admin/ui.go:1035-1051 | seeing a session expired ends it |
| Sessions.UnsafeEarned | internal/admin/ui.go:885-970 | over every run a viewer for an unsafe method comes from a session live at arrival and a request carrying the token minted with it; a header credential only reads |
| EnvFile.ParseEnv | cmd/dorangctl/update.go:247-259 | the loop binds each key to the cleaned value of its last assignment |
| EnvFile.CleanExactly | cmd/dorangctl/update.go:247-259 | a value is read without the white space around it and then without the quotes at either end, matching or not, and keeps the rest |
| EnvFile.CleanParts | cmd/dorangctl/update.go:247-259 | every value is made of such parts |
| EnvFile.SetEnv | cmd/dorangctl/update.go:263-287 | the in-place line loop and the appends give the edited text of the specification |
| EnvFile.WrittenReads | cmd/dorangctl/update.go:247-287 | a written line reads back as its key and its cleaned value |
| EnvFile.EditReads | cmd/dorangctl/update.go:247-287 | for every text and every set of one-line values, the edited text reads as the original with the named keys overwritten |
| EnvFile.EditReadsExactly | cmd/dorangctl/update.go:247-287 | the two deployment keys read back as written exactly when the values are already clean |
| EnvFile.OthersKept | cmd/dorangctl/update.go:263-287 | the edited text is the original's lines, each one naming none of the keys byte for byte and in order, followed by exactly one line for each wanted name not yet bound |
| EnvFile.EditTwice | cmd/dorangctl/update.go:263-287 | editing twice is editing once |
| DeployUpdate.Roll | cmd/dorangctl/update.go:183-216 | passes exactly when the services came up, the last health answer in time was good or none was due, and the wanted version was reported |
| DeployUpdate.HealthAsked | cmd/dorangctl/update.go:183-216 | a passing roll had a healthy answer before the deadline, unless the deadline passed before the first question |
| DeployUpdate.RollsExactly | cmd/dorangctl/update.go:183-216 | a roll passes exactly when the services came up, the first healthy answer came before the deadline and before a cancellation, or none was asked for in time, and a wanted version was reported with the same numbers |
| DeployUpdate.ReleaseReads | internal/selfupdate/selfupdate.go:149-192 | white space, a v or none, three dotted numbers and a suffix from a minus or plus read as a release with those numbers in order |
| DeployUpdate.ReleaseParts | internal/selfupdate/selfupdate.go:149-153 | every release is made of such parts |
| DeployUpdate.VersionCheck | internal/selfupdate/selfupdate.go:149-192 | between releases the check is equality of the three numbers; what is no release, wanted or reported, equals exactly 0.0.0 and other non-releases |
| DeployUpdate.Deployment.constructor | cmd/dorangctl/update.go:91-101 | the deployment as found, with no backup |
| DeployUpdate.Deployment.WriteInPlace | cmd/dorangctl/update.go:291-305 | the new text, the old text, or a prefix of the new one, by how the write went |
| DeployUpdate.Deployment.RollBack | cmd/dorangctl/update.go:167-177 | the original text is put back, or a prefix of it when that fails, and whether the services came up with it |
| DeployUpdate.Deployment.Switch | cmd/dorangctl/update.go:162-178 | from the backup on: updated exactly when the rewrite and the roll succeeded, and the text each ending leaves |
| DeployUpdate.Deployment.Prepare | cmd/dorangctl/update.go:111-156 | each way out before the backup exactly when, and on exactly when none of them |
| DeployUpdate.Deployment.Update | cmd/dorangctl/update.go:111-179 | under every failure: `.env` is touched exactly when nothing stopped the run, pull and migrate succeeded and the backup was made; from then on the backup holds the original; updated exactly when the rewrite succeeded and the new version rolled, with the new text in place; rolled back means the original text is back; and which runs stop as current |
| DeployUpdate.UpdatedReads | cmd/dorangctl/update.go:152-160 | the text a successful update leaves reads as the old one with the two keys at the release, exactly when the release name is clean |
| Money.AllDigitsScan | internal/admin/json.go:155-162 | true exactly when every character is a digit |
| Money.FormatExact | internal/admin/json.go:68-94 | every 64-bit amount prints as a decimal denoting exactly it |
| Money.FormatInjective | internal/admin/json.go:68-94 | different amounts print differently |
| Money.ParseExact | internal/admin/json.go:99-153 | exactly the decimals of at most nine places and a whole part of at most 1e9 are accepted, each as the amount it denotes, inside 64 bits |
| Money.RoundTrip | internal/admin/json.go:68-153 | parsing a printed amount gives it back exactly up to the parser's ceiling |
| Money.UsdExact | internal/alerts/alerts.go:398-410 | the alert printer denotes its amount exactly unless it is the smallest 64-bit integer |
| Money.CliExact | cmd/dorangctl/price.go:198-213 | the command line's printer likewise |
| Money.FormNearest | internal/admin/uikeys.go:399-414 | the form value is the nearest cent exactly where rounding stays in 64 bits, within 5,000,000 nano, and exact just for whole cents |
| Money.FormRoundTrip | internal/admin/uikeys.go:395-414 | an amount opened and saved unchanged comes back exactly when it is whole cents within the parser's ceiling |
| Versions.CompareVersions | cmd/dorangctl/catalogsync.go:768-782 | the loop computes the comparison of the specification |
| Versions.CompareMeans | cmd/dorangctl/catalogsync.go:768-782 | the sign says equal under zero padding, or which is smaller at the first difference |
| Versions.CompareTransitive | cmd/dorangctl/catalogsync.go:768-782 | the comparison is a total preorder |
| Versions.VersionShape | cmd/dorangctl/catalogsync.go:740-766 | the scanning loop gives the skeleton and numbers of the specification |
| Versions.VersionOfRuns | cmd/dorangctl/catalogsync.go:740-766 | the version is the numbers of the name's digit runs in order, and there is one exactly when the name has a digit |
| Versions.FillBack | cmd/dorangctl/catalogsync.go:740-766 | the skeleton with its digit runs put back is the name, exactly when no number follows a mark the name itself holds |
| Versions.TagsIgnored | cmd/dorangctl/catalogsync.go:740-766 | what follows the tag mark plays no part in the shape |
| Versions.NumbersReadBack | cmd/dorangctl/catalogsync.go:740-766 | a name written from dotted numbers between two texts without digits has those numbers in order as its version and the texts with a mark between as its skeleton |
| Versions.FieldExactly | cmd/dorangctl/catalogsync.go:740-766 | a number reads as itself up to the largest int and as that above it, a blank as zero |
| Versions.SuccessorByNumbers | cmd/dorangctl/catalogsync.go:797-813 | of two such names one succeeds the other exactly when its numbers are greater |
| Versions.NewerListed | cmd/dorangctl/catalogsync.go:797-813 | the loop computes the search of the specification |
| Versions.NewestSuccessor | cmd/dorangctl/catalogsync.go:797-813 | empty exactly when the name has no version or no listed name of the same skeleton is strictly newer, else a maximal one, shortest and then earliest on ties |
| Versions.MarkedName | cmd/dorangctl/catalogsync.go:797-813 | a name without a version that a listed name of its skeleton does not succeed |
| Versions.NewestIsLast | cmd/dorangctl/catalogsync.go:797-813 | searching again from the result finds nothing |
| RingBuffers.MemoryHealthHistory.constructor | internal/admin/health.go:129-134 | an empty history of the given size or the default |
| RingBuffers.MemoryHealthHistory.Record | internal/admin/health.go:137-145 | the ring stands for one more recorded event |
| RingBuffers.MemoryHealthHistory.History | internal/admin/health.go:157-194 | the last size events, filtered by range and subject, newest first, cut to the limit; an unbounded range is refused |
| RingBuffers.MatchingInOrder | internal/admin/health.go:157-194 | what matches is exactly the events in the range and of the subject asked for, each once and in recorded order |
| RingBuffers.PageOfHistory | internal/admin/health.go:157-194 | a page is the newest of those, as many as asked for or a hundred, newest first |
| RingBuffers.NewestFirstStable | internal/admin/health.go:157-194 | the order is newest first, keeps every event, and keeps recorded order within an instant |
| RingBuffers.StableUnique | internal/admin/health.go:157-194 | there is only one such order |
| RingBuffers.RingWrite | internal/admin/health.go:137-145 | one write to a ring is one more event, the oldest dropped once full |
| RingBuffers.TrafficBuffer.constructor | internal/admin/telemetry.go:51-63 | an empty buffer |
| RingBuffers.TrafficBuffer.Record | internal/admin/telemetry.go:51-63 | the buffer stands for one more request, numbered next, its labels cut |
| RingBuffers.TrafficBuffer.Recent | internal/admin/telemetry.go:65-76 | the backward walk gives the recent ones of the last 256 |
| RingBuffers.RecentView | internal/admin/telemetry.go:65-76 | those are exactly the requests numbered among the last 256 and no older than fifteen minutes, with strictly falling sequence numbers |
| Redaction.EnvIdentOf | cmd/dorangctl/config.go:267-284 | the loop gives a valid identifier byte by byte, and a fixed one for the empty name |
| Redaction.EnvIdentExactly | cmd/dorangctl/config.go:267-284 | letters in upper case, digits as they are, an underscore for anything else |
| Redaction.NameExactly | cmd/dorangctl/config.go:254-262 | the names tried: a fixed beginning, the provider, a fixed end, and from the second on a number |
| Redaction.CandidatesDiffer | cmd/dorangctl/config.go:254-262 | the names tried are pairwise different |
| Redaction.ImportEnvName | cmd/dorangctl/config.go:254-262 | for every finite used set the search ends within one more try than there are names, at the first free one |
| Redaction.RedactImportedCredentials | cmd/dorangctl/config.go:219-251 | afterwards no credential holds a literal, the others are untouched, every name given out is valid, none the credentials' keys named, given once, and the first of its provider's that is not taken, and the report accounts for every literal in order |

## Left out

- HTTP, templates, cookies, flags, logging and report text: no property beyond their own wording.
- Authorisation, scope checks and body decoding of the handlers: a refusal before the write is the parameter `loads`.
- Floating point: shares and thresholds are reals, so rounding of a share is not modelled; `decimalNano` is left out for the same reason.
- The rest of `internal/app/alerts.go`: an evaluation is a `Begin` step with a figure; which probe gives which figure is not modelled.
- The event text and payload of an announcement: only its state word is kept, and a payload that no longer parses is a flag on the retry step.
- `updated_at` and the history rows of the alert table: no statement reads them to decide.
- The limits of the two listings: a listing step takes any part of what matches, in any order.
- The four tries of the delivery record: each is a read step and a conditional write step, so any number of tries is covered.
- Freshness of session ids, tokens, tags and minted file names: random values are taken not to repeat, and a minted path not to exist.
- UTF-8: strings are bytes in `Versions` and `Redaction`, and characters elsewhere, where trimming is by character and a cut label's length is counted in characters.
- Nodes configured differently: all nodes of a cluster share one set of options and one list of transports.
- The wrap of the 64-bit sequence number of the traffic buffer: numbers are unbounded.
- Publishing and polling: a message is in the table exactly when its publish is reported, a poll reads all the messages there are, and only the call's own messages are published during it; entry lifetimes and the reload of a node that rejoins are not modelled.
- YAML text, comments and field order of the configuration: a document is its credentials and the rest, and an edit of anything else is a function on the rest.
- Applying a written configuration to the running process and the status it reports.
- Edits of the configuration by hand and secret files made or deleted outside the program.
- Digest collisions: `ConfigEdits.OneChangePerRevision` takes the revision digest to be injective.
- ConfigEdits.StoresKept: gives a condition on the steps that is enough, checked before each one, and not a necessary one, because a refused edit may break it harmlessly; the condition of one written edit is exact in `ConfigEdits.FileNamed`.
- Names of transports holding a comma: the list of those still owed is kept as a list, of which one blank name counts as empty, as its text does.
- Variables that OAuth settings or client secrets name: the search for a free name looks, as the source does, at the credentials' keys alone.
- Announce.Fleet.KeysWrite: models the four key handlers by what they share, so the choice of cause between block and unblock is a parameter.
- Docker, the release index and the clock in the update run: their answers are the script, an arbitrary parameter.
- Rates, routing, the providers and the rest of the gateway: outside this model.

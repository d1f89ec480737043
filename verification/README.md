# Verified model of the Buddy3D camera appliance

This project models the hard parts of the camera appliance in `app/` and proves what they guarantee:
the timelapse build queue and its lock, the single live-view producer, the MQTT command-error
lifecycle, the protobuf codec and its walkers, admin sessions, throttling, re-authentication and
redaction, the configuration files, the network transaction with its watchdog, the Wi-Fi scan list
and the info retry loop. `dafny verify dfyconfig.toml` checks everything.

## How it is built

Code that updates fields or files in place is a class whose methods are proved against a
specification function; decisions and recursive code are functions; code that several threads or
processes run is a state machine whose step is one critical section, one unlocked read or write, or
one system call. A run is a sequence of steps, and the main results hold for every run. Clocks,
randomness, network calls, subprocesses and I/O failures are parameters of the steps. Python's
dictionaries are item sequences in insertion order (`Common.Dict`); integers are unbounded as in
Python, and clock readings are reals.

| file | models |
|---|---|
| `Common.dfy`, `Utf8.dfy` | option, result, ordered dictionary; UTF-8 as an encoder and a strict and a replacing decoder |
| `Proto.dfy`, `ProtoWalk.dfy`, `ProtoSearch.dfy`, `ProtoTree.dfy`, `ConfigTree.dfy` | the wire codec, the WebRTC message and candidate search, the ICE and config walkers |
| `BuildManager.dfy`, `BuildStart.dfy`, `BuildProtocol.dfy`, `BuildWakeup.dfy`, `BuildRuns.dfy`, `BuildOutcome.dfy`, `BuildStrand.dfy`, `BuildGiveUp.dfy` | the build manager, its threads, its runs, and when its queue is stranded |
| `LockFile.dfy` | the build lock file among processes |
| `LiveMonitor.dfy`, `LiveServe.dfy` | the live monitor's state, its producer threads, and whether an admitted viewer gets a frame |
| `MqttError.dfy`, `MqttExpiry.dfy` | the command-error lifecycle |
| `Sessions.dfy`, `RateLimiter.dfy`, `AdminRuns.dfy`, `AdminAnswers.dfy`, `Redact.dfy`, `RedactExact.dfy` | sessions, throttling, request authorisation over runs, redaction and which secrets survive it |
| `Toml.dfy`, `TomlDoc.dfy`, `Config.dfy`, `ConfigText.dfy`, `ConfigSecrets.dfy`, `ConfigMeans.dfy`, `ConfigForms.dfy`, `PairSave.dfy`, `PairLeftovers.dfy` | the written TOML subset and a reader for it, validation, round trips, the pair save under failures |
| `NetworkApply.dfy`, `NetworkKey.dfy`, `NetworkRuns.dfy`, `Watchdog.dfy`, `WatchdogAnswers.dfy`, `Scan.dfy`, `ScanList.dfy` | the network transaction, whose result stores a key, the watchdog, the scan list |
| `InfoService.dfy` | the info retry loop |

## Where the code does not meet the property one would expect

For each of these there is a failing run or input, general in its numbers where it has any, and the
exact condition.

- A queued build that is given up after 120 retries, or a retry timer whose start raises, can leave
  the queue with nobody to wake it (`BuildGiveUp.GiveUpStrandsQueue`,
  `BuildGiveUp.FailedStartStrandsQueue`). `BuildStrand.StrandedIff` says for every run when.
- Removing a stale lock file can leave two processes holding it, even when the old owner is dead
  (`LockFile.StaleRace`). A run robs no live owner exactly when, in every state along it, exclusion
  could only be broken by a robbery still to come (`LockFile.ExclusionIff`).
- A viewer can be admitted and get no producer: when the current one has left its loop
  (`LiveServe.TouchMissed`), is still in it but will find the stop event set
  (`LiveServe.StoppingMissed`), or has seen no viewer and used up its idle grace
  (`LiveServe.IdleMissed`). `LiveServe.EnsureServesIff` gives the exact condition, and
  `LiveServe.MissedForGood` says that otherwise nothing but another touch or start helps.
- A command error set between the two writes of a clear keeps its text, loses its time and is never
  cleared by a worker (`MqttError.TornClearSticks`, exactly then: `MqttError.TornExactly`).
- The documented doubling of repeated lockouts never happens with the defaults, because a lockout
  outlasts the failure window (`RateLimiter.EscalationIff`, `RateLimiter.DefaultsNeverEscalate`).
- Some secrets survive their own redaction: parts of the marker always
  (`RedactExact.MarkerPartStays`), others in some text, exactly when they leak
  (`RedactExact.SurvivesIff`). A secret is gone from every text whatever the other secrets exactly
  when it shares no border with the marker (`RedactExact.SafeIff`).
- A TURN block whose bytes read as text that looks like a credential is taken for one
  (`ProtoTree.AsciiBlockMisread`, exactly then: `ProtoTree.TurnReadIff`). A configuration is not read
  back when such a block has servers or is the last one (`ProtoTree.MisreadListLost`), or when the
  whole list looks like a credential, and only then (`ProtoTree.IceRoundTripIff`).
- A text in a configuration message is taken for a nested message exactly when the low three bits of
  its first byte are a known wire type (`ConfigTree.TreeRoundTripIff`, `ConfigTree.TextTakenIff`).
- A temporary file left by a crash makes a save fail; each costs one save when cleanups work
  (`PairLeftovers.LeftoverCostsOne`, `PairLeftovers.FineSaves`).
- The rollback of a pair save rewrites carriage returns, and a directory whose closing call fails after
  the rename reports failure with the new file in place (`PairSave.CarriageReturnTorn`,
  `PairSave.LateFailureIsNew`). `PairSave.NeverTornIff` says for which old device documents the first
  can happen, and `PairSave.NotSavedIsOldIff` for every plan whether a failed save left both old ones.
- The console can store a Wi-Fi key on another writer's success: a watchdog recovery after the
  request's own transaction failed, equal clock readings, a transaction that starts late or runs
  long, a watchdog write over `applying`, or a status call inside the next apply
  (`NetworkRuns.RecoveryMisleads`, `NetworkRuns.EqualReadingsMislead`,
  `NetworkRuns.SlowStartMisleads`, `NetworkRuns.LongRunMisleads`,
  `NetworkRuns.WatchdogHidesRunning`, `NetworkRuns.StatusInsideApplyMisleads`). `NetworkRuns.EarnedIff` says for every run when.
- A watchdog tick that finds the link up but cannot read or write its state file lets a later down
  tick start the hotspot too early (`Watchdog.ForgettingStartsEarly`, exactly then:
  `Watchdog.JustifiedIff`), and a station retry whose result is lost is repeated at once
  (`Watchdog.LostRetryUnspaced`, exactly then: `Watchdog.SpacedIff`).
- A network whose SSID ends in a backslash is missing from the scan list (exactly then:
  `Scan.RowSplits`, `ScanList.LineReadIff`), and one whose SSID holds a line break is listed under what
  follows the last break (`ScanList.ReadRow`, exactly then: `ScanList.CutSameIff`).
- A mark on the info flag inherits the failures counted before it (`InfoService.MarkInherits`), and a
  mark set during an upload is lost exactly when the result is not retried
  (`InfoService.MarkDuringServedIff`).

## Model

| member | source | states |
|---|---|---|
| Proto.EncodeVarintLoop | app/proto.py:14-19 | the loop yields the base-128 digits, low digit first; a negative integer yields only its low seven bits |
| Proto.DecodeVarintLoop | app/proto.py:22-31 | the shifting loop returns the value and offset of the varint, also for truncated input |
| Proto.VarintRoundTrip | app/proto.py:14-31 | a varint is read back, with its length, from the front of any longer string |
| Proto.NextField | app/proto.py:188-213 | every pass of the field iterator that goes on consumes at least one byte, on every byte string |
| Proto.DecodeMessageLoop | app/proto.py:63-90 | decoding is total on every byte string and equals the last-wins fold of the field iterator |
| Proto.NestedIsShorter | app/proto.py:63-90 | every value decoded from a message has strictly fewer bytes than the message |
| Proto.LastWins | app/proto.py:63-90 | the last field of a number gives its value, and a number without a field has none |
| Proto.FieldRoundTrip | app/proto.py:34-60 | one encoded field is read back as itself and the reader goes on after it |
| Proto.SortSorts | app/proto.py:47-60 | fields are written by increasing number, none lost or added |
| Proto.MessageRoundTrip | app/proto.py:47-90 | decode(encode(m)) is m with None dropped, floats as four bytes and UTF-8 bytes as text, for exactly the maps with non-negative numbers |
| Proto.MessageLookup | app/proto.py:47-90 | the same law key by key, whatever the order of the map |
| ProtoWalk.PairRoundTrip | app/proto.py:301-322 | the nested pair of field 4 is read back for all strings |
| ProtoWalk.CameraDecodes | app/proto.py:93-134 | the decoded message carries exactly the encoded fields in order |
| ProtoWalk.DetailFound | app/proto.py:93-134 | the detail found in field 4 is the encoded pair |
| ProtoWalk.CameraRoundTrip | app/proto.py:93-134 | decoding an encoded camera message returns token, request id, fingerprint, type and the SDP or candidate pair |
| ProtoWalk.ScanDetail | app/proto.py:137-185 | scanning field 4 scans its two parts; a candidate comes out without its attribute prefix |
| ProtoWalk.CandidateFound | app/proto.py:137-185 | for every encodable message the search returns what the first of token, request id, fingerprint and the two parts of field 4 scans to; a candidate when the three scan to nothing |
| ProtoWalk.AnyCameraReads | app/proto.py:93-134 | on every byte string each part of the message is the value of its field or what stands for an absent one, and the detail that of the first field 4 |
| ProtoSearch.SearchFinds | app/proto.py:137-185 | in every message the search finds nothing exactly when no value up to eight levels inside is a candidate, and otherwise the first one in field order, without its attribute prefix |
| ProtoTree.IterShorter | app/proto.py:188-213 | every body the iterator yields is strictly shorter than its parent, so both walkers terminate |
| ProtoTree.ServerRoundTrip | app/proto.py:229-260 | one ICE server message is read back as its four fields, and its bytes are those of the fields in order |
| ProtoTree.NotCredential | app/proto.py:229-260 | a body that starts with a control byte is no username, and none that does not end in an equals sign is a credential |
| ProtoTree.ElementsRead | app/proto.py:229-260 | the walker makes of any list of servers and TURN blocks what it makes of each in turn: a misread block leaves only its text as the credential, every other element all it holds |
| ProtoTree.TurnReadIff | app/proto.py:229-260 | a TURN block is taken apart into its servers, username and credential exactly when its own bytes do not look like a credential |
| ProtoTree.AsciiBlockMisread | app/proto.py:241-246 | a TURN block of ASCII without spaces is misread whole as a credential |
| ProtoTree.MisreadListLost | app/proto.py:216-260 | such a block before a server makes a list that does not look like a credential and is not read back |
| ProtoTree.WalkedIsTakenIff | app/proto.py:229-260 | walking the elements gives back what they hold exactly when no misread block has servers and the last TURN block is not misread |
| ProtoTree.IceRoundTripIff | app/proto.py:216-260 | for every list of elements, all servers and the last username and credential are read back exactly when the list does not itself look like a credential, no TURN block that does has servers, and the last TURN block does not |
| ProtoTree.PlainListOpaque | app/proto.py:216-260 | a list of plain servers never does |
| ConfigTree.TreeHeight | app/proto.py:268-298 | the config walker goes no deeper than the message is long and keeps the top-level keys in order |
| ConfigTree.TaggedIff | app/proto.py:63-90 | a body decodes to some field exactly when the low three bits of its first byte are a known wire type |
| ConfigTree.TreeMeans | app/proto.py:268-298 | on every byte string an integer, or a body without such bits, is a leaf with exactly the decoded value, and any other body the tree of its bytes |
| ConfigTree.TreeRoundTripIff | app/proto.py:268-298 | walking an encoded nested configuration gives back all its values and groups exactly when no text, bytes or float in it starts with such bits |
| ConfigTree.TextTakenIff | app/proto.py:276-293 | so a single text is read as it was written exactly when its first byte has none |
| Utf8.DecodeEncode | app/proto.py:34-36 | decoding what was encoded gives the text back |
| Utf8.EncodeDecode | app/proto.py:63-90 | strict decoding succeeds only on encodings and loses nothing |
| BuildManager.Manager.ActiveJob | app/media_build.py:339-344 | returns the first pending or running job in order, or none |
| BuildManager.Manager.PruneOldest | app/media_build.py:346-354 | drops the oldest finished jobs down to the limit |
| BuildManager.Manager.Start | app/media_build.py:128-201 | the whole new state of starting a build, with each rejection leaving it unchanged |
| BuildStart.StartAnswers | app/media_build.py:128-201 | a build starts exactly when folder, idleness, listing, frame count, total size, free space, lock and thread all allow it, and every other answer names the first that does not |
| BuildStart.StartLeaves | app/media_build.py:128-201 | a start refused before its thread changes nothing; a started one registers the pending job and holds the lock; a failed one takes the job back |
| BuildStart.PruneDrops | app/media_build.py:346-354 | pruning drops exactly the oldest jobs beyond eight, none of them active, with their records |
| BuildManager.Manager.FinishJob | app/media_build.py:324-331 | the job gets its final state and the lock is released |
| BuildManager.Manager.AppendRequest | app/media_build.py:263-282 | a session is queued once |
| BuildManager.Manager.RemoveRequest | app/media_build.py:284-308 | the first equal request leaves the queue, the others keep their order |
| BuildStart.RemoveTakesFirst | app/media_build.py:292-308 | removing takes out the first equal request, or nothing |
| BuildManager.Manager.ScheduleRetry | app/media_build.py:310-317 | a timer is armed unless one is |
| BuildProtocol.BusyIffHeld | app/media_build.py:144-201 | an active job is found exactly when the lock is held |
| BuildProtocol.StartJobsOk | app/media_build.py:128-201 | only an idle manager starts, and starting keeps the table consistent, whatever fails |
| BuildProtocol.BuildInvStep | app/media_build.py:128-354 | every step of every thread keeps the table and building-thread invariant |
| BuildWakeup.ScheduleWake | app/media_build.py:310-322 | scheduling hands the wake-up to the timer in the field or to the one it creates, unless that one's start fails |
| BuildWakeup.StopWake | app/media_build.py:218-233 | stop empties the queue before it cancels the timer somebody relied on |
| BuildWakeup.WakeStep | app/media_build.py:235-322 | no step but a quitting one puts a queue to sleep: giving up, a failing timer start, or relying on a timer that never started |
| BuildWakeup.LinksStep | app/media_build.py:235-322 | every step keeps the references and the retry timer consistent |
| BuildRuns.OneBuildAtATime | app/media_build.py:144-201 | in every reachable state the lock is held exactly when one job is active, it is the newest, order and table agree without duplicates, and at most eight jobs are kept |
| BuildRuns.QueueWakesUp | app/media_build.py:235-322 | while no request has used up its retries and every timer starts, a non-empty queue has a build that will drain it, a live timer, or a thread inside drain or schedule |
| BuildRuns.RequestsAccounted | app/media_build.py:263-308 | requests are conserved: each one entered is still queued, has left after being settled, or was cleared by stop, and none leaves unsettled |
| BuildRuns.FinishedStays | app/media_build.py:324-337 | a finished job never becomes active again |
| BuildOutcome.BuildRecorded | app/media_build.py:235-261 | however others interleave, a build's record says how the builder ended and whether a stop was called for, and the lock is free |
| BuildOutcome.LogMeans | app/media_build.py:263-308 | a request counts as settled exactly when its start is answered other than busy or after 120 tries, enters exactly when appended, and leaves or is cleared only by a removal or a stop |
| BuildGiveUp.GiveUpStrandsQueue | app/media_build.py:284-308 | a concrete run of 120 retries ends with a queued request and nobody to wake it |
| BuildGiveUp.FailedStartStrandsQueue | app/media_build.py:310-317 | a run in which a failing timer start leaves a queued request with nobody to wake it |
| BuildStrand.QuitStrandsIff | app/media_build.py:284-317 | a quitting step strands the queue exactly when something is queued and no other thread or timer wakes it |
| BuildStrand.GiveUpIff | app/media_build.py:303-308 | giving up strands the rest of the queue exactly when there is a rest and nobody else wakes it |
| BuildStrand.ReviveIff | app/media_build.py:128-322 | a queue nobody wakes is woken or emptied by exactly the steps that start a build, append a request, let a timer fire or empty it |
| BuildStrand.StrandedIff | app/media_build.py:235-322 | in every run the queue ends with nobody to wake it exactly when some step quit so and no later step did one of these |
| LockFile.HonestExcludes | app/media_build.py:376-424 | at most one process holds the lock in every run that never removes a live owner's file |
| LockFile.RobberyBreaks | app/media_build.py:376-422 | after any removal that robs an owner, holding or releasing, steps that rob nobody lead to two holders |
| LockFile.ExclusionIff | app/media_build.py:376-422 | a run robs no owner exactly when from every state along it each continuation that robs nobody ends with at most one holder |
| LockFile.StaleRace | app/media_build.py:376-413 | two processes that find a dead owner's lock stale end up both holding |
| LiveMonitor.TouchKeepsCap | app/live_monitor.py:210-226 | the viewer cap holds, a live viewer is never refused, and a refusal means the cap is full of others |
| LiveMonitor.BackoffBounds | app/live_monitor.py:355-371 | failures only lengthen the wait, which stays between interval and cap |
| LiveMonitor.BackoffDoubles | app/live_monitor.py:355-371 | each failure doubles the wait up to the cap, and none after the sixteenth |
| LiveMonitor.Monitor.Prune | app/live_monitor.py:239-242 | exactly the expired leases go |
| LiveMonitor.Monitor.Touch | app/live_monitor.py:210-226 | the lease is renewed or the viewer refused, and nothing else changes |
| LiveMonitor.Monitor.CaptureOnce | app/live_monitor.py:334-353 | only a valid frame replaces the stored one; every outcome is counted |
| LiveMonitor.Monitor.BackoffDelay | app/live_monitor.py:355-371 | the failure count and the wait after a capture |
| LiveMonitor.Monitor.Latest | app/live_monitor.py:265-281 | a frame is served only within the stale bound and called live only while fresh, with its age |
| LiveProtocol.SingleProducer | app/live_monitor.py:185-261 | in every run at most one thread is in the capture loop, and it is the current thread with the current generation |
| LiveProtocol.StepsAreSafe | app/live_monitor.py:373-390 | the stop event is never cleared while a thread is in the loop, and the generation test at exit always matches |
| LiveServe.EnsureServesIff | app/live_monitor.py:244-390 | with a live lease, the current producer's own steps after ensuring lead to a capture exactly when none was up, or the one that was is past its viewer test, or has no stop event before it and its idle grace not used up |
| LiveServe.MissedForGood | app/live_monitor.py:244-390 | otherwise no thread captures in any later state of any run that does not ensure again |
| LiveServe.MissedFollows | app/live_monitor.py:210-261 | every run that brings a viewer there goes on to leave that viewer with a lease, no thread in the loop, none marked running and nobody starting one |
| LiveServe.TouchMissed | app/live_monitor.py:210-261 | a run in which the producer has left its loop when the viewer comes |
| LiveServe.StoppingMissed | app/live_monitor.py:373-376 | a run in which it is still in the loop with the stop event set |
| LiveServe.IdleMissed | app/live_monitor.py:377-382 | a run without any stop in which its idle grace is used up |
| MqttError.OneWorker | app/mqtt_service.py:1067-1108 | in every run at most one worker runs or is dispatched, and the flag says whether one does |
| MqttError.NoStuckError | app/mqtt_service.py:1051-1108 | without a torn clear, a set error has its time and a worker that will clear it |
| MqttExpiry.WipesLate | app/mqtt_service.py:1085-1108 | in every run a worker erases the error only when some setter wrote its time at least 60 seconds before |
| MqttExpiry.WorkerLooks | app/mqtt_service.py:1085-1108 | a worker left to itself erases an error whose time is up, sleeps on one whose is not, and leaves without one |
| MqttError.TornExactly | app/mqtt_service.py:1051-1065 | an error loses its time exactly in a step that tears a clear |
| MqttError.StuckStays | app/mqtt_service.py:1085-1108 | an error without a time is cleared by no worker, however often scheduled |
| MqttError.TornClearSticks | app/mqtt_service.py:1051-1108 | a run that reaches such a state |
| Sessions.SessionStore.constructor | app/admin_auth.py:203-208 | a new store is empty with the given limits |
| Sessions.SessionStore.Prune | app/admin_auth.py:278-285 | exactly the expired sessions go, the rest keep their order |
| Sessions.SessionStore.Create | app/admin_auth.py:210-231 | the first unused random draw becomes the token, and the store is the pruned one with it, one evicted at the cap |
| Sessions.SessionStore.Validate | app/admin_auth.py:233-250 | accepted exactly when stored and unexpired; an expired session is removed, an accepted one refreshed |
| Sessions.SessionStore.Revoke | app/admin_auth.py:252-254 | the session is gone, and the answer says whether it existed |
| Sessions.Oldest | app/admin_auth.py:287-289 | the first of the sessions seen longest ago |
| Sessions.CreateKeepsNewest | app/admin_auth.py:210-231 | creating stays within the cap, keeps the new session, and drops only expired sessions and, at the cap, the one seen longest ago |
| RateLimiter.Limiter.Prune | app/admin_auth.py:403-414 | failures outside the window and stale entries go, then the quietest entries beyond the cap |
| RateLimiter.Limiter.Check | app/admin_auth.py:365-378 | a key is refused exactly while locked, with the remaining time |
| RateLimiter.Limiter.RecordFailure | app/admin_auth.py:380-393 | the whole new table after a failure |
| RateLimiter.Limiter.RecordSuccess | app/admin_auth.py:395-397 | the key's entry is gone and no other changes |
| RateLimiter.Evicted | app/admin_auth.py:403-419 | eviction ends exactly at the cap |
| RateLimiter.EvictsQuietest | app/admin_auth.py:403-419 | what eviction keeps was at least as active as what it drops, and is kept as it is |
| RateLimiter.FailuresAreThrottled | app/admin_auth.py:365-419 | when the first lockout outlasts the window, in every run failures closer than the window number at most the threshold, each lockout is served in full, and the streak stays at most one |
| RateLimiter.RefusedIff | app/admin_auth.py:365-378 | in every run a key is refused exactly when its last failure filled its window and the lockout it started is not over |
| RateLimiter.LockoutDoubles | app/admin_auth.py:380-393 | each lockout in a row doubles the one before, up to the longest |
| RateLimiter.ShortLockoutEscalates | app/admin_auth.py:380-393 | with a lockout shorter than the window a concrete run reaches a second lockout in a row |
| RateLimiter.EscalationIff | app/admin_auth.py:341-393 | no run reaches a second lockout in a row exactly when min(lockout, max_lockout) is at least the window |
| RateLimiter.DefaultsNeverEscalate | app/admin_auth.py:334-338 | with the defaults no key is ever locked twice in a row |
| AdminRuns.AdminApp.PruneReauth | app/admin_http.py:1182-1196 | exactly the expired windows and those without a session go |
| AdminRuns.AdminApp.ReauthFresh | app/admin_http.py:1172-1180 | true exactly inside the window; an expired window is dropped |
| AdminRuns.AdminApp.Authorize | app/admin_http.py:1132-1170 | the answer and the whole new state of authorising a request, in the source's order |
| AdminRuns.AdminApp.HandleLogin | app/admin_http.py:1558-1581 | the answer and the whole new state of a login |
| AdminRuns.AdminApp.HandleLogout | app/admin_http.py:1663-1672 | session and window are gone |
| AdminRuns.Invariant | app/admin_http.py:1132-1196 | along every run sessions and windows agree with the history of every token |
| AdminRuns.WindowOnlyIff | app/admin_http.py:1132-1170 | a window-only request runs exactly when its session is accepted, its CSRF token matches and its last password proof is under 300 seconds old |
| AdminAnswers.CallAnswers | app/admin_http.py:1132-1170 | over every run, each of the six answers to a request exactly in its case: usable session, CSRF value of its login, open window, permission to guess, right password |
| AdminAnswers.OtherAnswers | app/admin_http.py:1558-1581 | the same for logins and for other uses of a session |
| AdminAnswers.AcceptsIff | app/admin_auth.py:233-250 | a token is accepted exactly when its session is stored and this use keeps to the idle and absolute limits |
| AdminAnswers.HandedHolds | app/admin_auth.py:210-231 | a stored session carries the CSRF value of its login |
| AdminAnswers.StoredIff | app/admin_auth.py:210-254 | a session stays stored until it is used out of time, logged out, or makes room for a login |
| AdminRuns.WindowOnlyGuarded | app/admin_http.py:1132-1196 | it runs only after the same session gave the right password less than 300 seconds earlier with no logout between, within the idle and absolute limits |
| AdminRuns.AcceptedIsHeld | app/admin_auth.py:233-250 | an accepted session is under its absolute limit with every gap between uses under the idle limit |
| AdminRuns.ProofMeans | app/admin_http.py:1158-1170 | a recorded proof is a request of that token with the right password and no logout or login since |
| AdminRuns.CapAndNewest | app/admin_auth.py:210-231 | in every run sessions stay within the cap and a login's own session is stored |
| AdminRuns.FailuresFollowGuesses | app/admin_http.py:1158-1170 | every password test, at login or re-authentication, is one attempt of the same limiter |
| AdminRuns.GuessesAreThrottled | app/admin_http.py:1558-1581 | over every run of requests, wrong passwords of one peer closer than the window number at most the threshold and each lockout is served in full |
| Redact.ScrubLoop | app/admin_auth.py:521-524 | the loop is the sequential replacement of every secret |
| Redact.NoNewOccurrence | app/admin_auth.py:521-524 | replacing any secret creates no occurrence of a safe one and leaves none of its own |
| Redact.ReplaceExchanges | app/admin_auth.py:521-524 | a replacement is the text with each leftmost occurrence exchanged for the marker and all text between kept, and the only such text |
| Redact.ScrubCleans | app/admin_auth.py:517-524 | after all replacements no safe secret of the list is left, whatever the other secrets are |
| Redact.HarmlessKept | app/admin_auth.py:527-546 | a value without secrets and sensitive keys is returned as it is |
| RedactExact.MarkerPartStays | app/admin_auth.py:521-524 | a part of the marker stays in every text that holds it |
| RedactExact.SurvivesIff | app/admin_auth.py:521-524 | a secret survives its own replacement in some text exactly when it begins inside or around a marker, or a marker begins inside it after text that stays |
| RedactExact.SafeIff | app/admin_auth.py:517-524 | a secret is left by no list of secrets in any text exactly when it shares no border with the marker |
| RedactExact.PlainIsSafe | app/admin_auth.py:517-524 | a secret without angle brackets that is no part of the word `redacted` is safe |
| Redact.RedactionComplete | app/admin_auth.py:517-546 | for every value and every list of secrets no string of the result contains a safe one, keys and shape are unchanged, every other string keeps all text but the exchanged secrets, and if all are safe redacting twice is redacting once |
| Toml.QuoteLoop | app/config_schema.py:502-523 | the writer's loop yields the quoted string |
| Toml.ReadQuoted | app/config_schema.py:502-523 | a quoted string is read back, for every string |
| Toml.ReadShownLine | app/config_schema.py:496-523 | every written line is read back, keys and values alike |
| TomlDoc.DumpReads | app/config_schema.py:411-446 | a dumped document splits back into its lines |
| TomlDoc.LoadsDump | app/config_schema.py:411-446 | loading a dumped document gives back its keys and tables in order |
| Config.CheckHostsLoop | app/config_schema.py:320-335 | the loop strips, checks and de-duplicates the time servers in order |
| ConfigText.CheckHostsSound | app/config_schema.py:320-335 | the accepted servers are trimmed host names, each once |
| ConfigText.ValidatedIsWellFormed | app/config_schema.py:222-311 | whatever validates is well formed in every field |
| ConfigText.ValidateIdempotent | app/config_schema.py:222-311 | validating a validated document changes nothing |
| ConfigMeans.ValidatesIff | app/config_schema.py:222-311 | every document is accepted exactly when its keys are known and it says something valid for each, and then as exactly the device it says, absent keys at their defaults |
| ConfigMeans.KeysMean | app/config_schema.py:265-283 | the keys pass exactly when all are known, and the first that is not decides the error |
| ConfigMeans.TooNewIff | app/config_schema.py:222-243 | a schema is reported as too new exactly when the keys are known and it is |
| ConfigMeans.StripMeans | app/config_schema.py:320-335 | stripping leaves the part between the blanks around it |
| ConfigForms.HostMeans | app/config_schema.py:313-335 | a time server is a host name exactly when it is at most 253 characters of labels joined by dots, each 1 to 63 letters, digits and inner hyphens |
| ConfigForms.PrefixMeans | app/config_schema.py:91-91 | a topic prefix is one or more letters, digits, underscores, slashes and hyphens |
| ConfigText.SortMetaSame | app/config_schema.py:443-445 | sorting the metadata orders the keys and changes no lookup |
| ConfigText.DeviceRoundTrip | app/config_schema.py:411-446 | for every well-formed device, parsing the written text gives back the same document, metadata up to order |
| ConfigText.ReparseNeverFails | app/config_schema.py:564-580 | the re-parse inside the save functions never fails on a validated document |
| ConfigSecrets.BlocksJoin | app/config_schema.py:449-465 | joining the blocks by an empty line is joining all their lines |
| ConfigSecrets.SecretsIdempotent | app/config_schema.py:160-210 | validating the tables of a secrets document gives it back |
| ConfigMeans.SecretsValidateIff | app/config_schema.py:160-210 | every secrets document is accepted exactly when its schema is not too new, its keys are known and its values texts, and then as exactly those |
| ConfigSecrets.SecretsRoundTrip | app/config_schema.py:449-465 | for every secrets document, parsing the written text gives it back |
| PairSave.Disk.Cleanup | app/config_schema.py:556-561 | exactly the temporary file goes, exactly when the removal works |
| PairSave.Disk.WriteAtomic | app/config_schema.py:530-561 | for every pattern of failures the document is wholly old or wholly new, as the fate says, the temporary file is left exactly when nothing took it away, and no other file changes |
| PairSave.Disk.ReadText | app/config_schema.py:644-656 | whether the document existed, its text, and whether decoding it raised |
| PairSave.Disk.RestoreText | app/config_schema.py:659-677 | the old text is written back, the new file removed, or the document left, as its arguments say |
| PairSave.Disk.SavePair | app/config_schema.py:600-641 | both documents, both temporary files and the answer for every pattern of failures and stops; every other file is unchanged |
| PairLeftovers.FateMeans | app/config_schema.py:530-561 | a write is done exactly when every call works; else its first failing call decides rename, stop and leftover |
| PairLeftovers.SaveAnswers | app/config_schema.py:600-641 | each answer of a pair save exactly in its case |
| PairLeftovers.LeftoverCostsOne | app/config_schema.py:530-561 | over every run of saves with working cleanups each leftover temporary file spoils at most one |
| PairLeftovers.FineSaves | app/config_schema.py:600-641 | of saves in which every call works the first fail, one for each leftover, and all others are saved |
| PairSave.RestoredSameIff | app/config_schema.py:644-677 | a rollback writes the very bytes it read exactly when the old text has no carriage return |
| PairSave.NothingTorn | app/config_schema.py:600-641 | for every plan the secrets are wholly old or wholly new, and so is the device document if a rollback does it no harm; success exactly when both writes ran to their end, and then both are new |
| PairSave.CarriageReturnTorn | app/config_schema.py:644-677 | otherwise a failing secrets write leaves a device document that is neither |
| PairSave.NeverTornIff | app/config_schema.py:600-677 | no plan tears the device document exactly when the old one is absent, not UTF-8 or free of carriage returns, or the new one is the old with its line endings rewritten |
| PairSave.NotSavedIsOldIff | app/config_schema.py:600-641 | a reported failure leaves both old documents exactly when the failing write had not renamed or its document was not to change, and a rollback put the device document back or left one that was not to change; unchanged documents included |
| PairSave.LateFailureIsNew | app/config_schema.py:738-749 | a failing directory close reports failure with the new document in place |
| NetworkApply.WaitHealthy | app/network_apply.py:144-162 | the poll answers yes exactly when a probe it reaches is good, and the number of polls is bounded |
| NetworkApply.Machine.WriteResult | app/network_apply.py:69-81 | the state is reported and, if the write works, stored |
| NetworkApply.Machine.Restore | app/network_apply.py:173-190 | the keyfile is the snapshot again, or what a deletion or failed write leaves |
| NetworkApply.Machine.Run | app/network_apply.py:199-252 | applying is written first and then exactly one final state, the returned one; applied exactly when the link was seen up; a successful restore leaves the old keyfile |
| NetworkKey.NetworkController.Apply | app/network_settings.py:385-406 | each of the answers 202, 409, 501 and 502 exactly in its case, and pending only when accepted |
| NetworkKey.NetworkController.Finalize | app/network_settings.py:408-431 | what becomes of the pending request and which key is stored |
| NetworkRuns.AlwaysTracks | app/network_settings.py:336-431 | in every run, whatever the clocks, file, pending request and transactions are what the run's own writes say |
| NetworkRuns.FinalizeStoresIff | app/network_settings.py:408-431 | in every run finalizing stores the pending key exactly when the last write to the file, whoever made it, is an applied no earlier than the request |
| NetworkRuns.FinalizeEndsIff | app/network_settings.py:408-418 | in every run finalizing ends the pending request exactly when a final result was written since, or after 180 seconds |
| NetworkRuns.RefusesIff | app/network_settings.py:347-357 | in every run a new request is refused exactly while an applying of the last 180 seconds stands, or a request of the last 30 seconds is pending without a result |
| NetworkRuns.EarnedIff | app/network_settings.py:336-431 | in every run all stored keys are earned exactly when no finalizing step read another writer's applied |
| NetworkRuns.KeysAreEarned | app/network_settings.py:336-431 | in every orderly run a key is stored only for a request whose own transaction ended applied |
| NetworkRuns.RecoveryMisleads | app/network_watchdog.py:164-172 | a watchdog recovery stores the key of a request whose own transaction failed |
| NetworkRuns.WatchdogHidesRunning | app/network_watchdog.py:147-152 | a watchdog write over applying lets a second request in, which then gets the first one's success |
| NetworkRuns.EqualReadingsMislead | app/network_settings.py:336-345 | at equal clock readings, any they are, the first transaction's success counts for the second request |
| NetworkRuns.SlowStartMisleads | app/network_settings.py:347-357 | so does that of a transaction not started 30 seconds after its hand-over |
| NetworkRuns.LongRunMisleads | app/network_settings.py:269-289 | and that of one still under way when its applying is more than 180 seconds old |
| NetworkRuns.StatusInsideApplyMisleads | app/network_settings.py:385-431 | a status call between the hand-over of a request and its noting stores the key of the one before it on the new transaction's success |
| Watchdog.Watchdog.Tick | app/network_watchdog.py:96-152 | the outcome and new state of one tick; nothing is done while a non-stale applying result stands |
| Watchdog.Watchdog.RetryStation | app/network_watchdog.py:155-179 | a retry recovers or records its moment |
| Watchdog.Remembered | app/network_watchdog.py:96-152 | a remembered moment is that of a tick since which the link was never found up, with every fault but forgetting allowed |
| Watchdog.HotspotJustified | app/network_watchdog.py:96-152 | a hotspot starts only when a tick at least the threshold earlier found the link down and none since found it up, unless an up tick forgot to clear the file |
| Watchdog.ForgettingStartsEarly | app/network_watchdog.py:66-83 | after an up tick that could not read or write a remembered moment, the next readable down tick past the threshold starts an unjustified hotspot |
| Watchdog.JustifiedIff | app/network_watchdog.py:96-152 | hotspot starts are always justified exactly when no up tick forgets |
| WatchdogAnswers.FileSays | app/network_watchdog.py:96-179 | with a sound file and clock the state file says exactly whether a hotspot is held and since when the link has been found down |
| WatchdogAnswers.StartsIff | app/network_watchdog.py:96-152 | then a tick starts a hotspot exactly when it may look, none is held, the link is down since at least the threshold and the hotspot starts; an applying older than 180 seconds does not hold it back |
| Watchdog.RetriesSpaced | app/network_watchdog.py:155-179 | station retries are at least 600 seconds apart when those before reached the disk |
| Watchdog.LostRetryUnspaced | app/network_watchdog.py:174-179 | after any retry whose result is lost the next readable tick can retry at that same moment |
| Watchdog.SpacedIff | app/network_watchdog.py:155-179 | retries are always spaced exactly when every retry's result reaches the disk |
| Scan.UnescapeInverts | app/network_settings.py:185-190 | the two replacements undo the terse escaping for every string |
| Scan.TerseReads | app/network_settings.py:185-190 | a printed field is read back up to surrounding blanks |
| Scan.RowSplits | app/network_settings.py:525-535 | a printed row splits into its fields exactly when its SSID does not end in a backslash |
| ScanList.ParseScan | app/network_settings.py:525-547 | the loop keeps the best entry per SSID and sorts by signal |
| ScanList.LineReadIff | app/network_settings.py:525-535 | a listed network is read exactly when its SSID does not end in a backslash |
| ScanList.SignalSorts | app/network_settings.py:547-547 | the sort is descending, stable, and loses or adds nothing |
| ScanList.CutSameIff | app/network_settings.py:532-532 | a row is read as itself exactly when it holds no line break |
| ScanList.ReadRow | app/network_settings.py:525-547 | a printed row with line breaks is read as the row with what follows the last break of its SSID and precedes the first of its security |
| ScanList.ScanLists | app/network_settings.py:525-547 | for all rows, so cut, the list holds each non-empty SSID of at most 32 bytes that does not end in a backslash once, as in the first of its strongest rows, strongest first |
| InfoService.InfoLoop.NextAction | app/info_service.py:25-36 | an attempt exactly when dirty with the countdown at zero |
| InfoService.InfoLoop.Serve | app/main.py:557-598 | the loop's state and number of uploads after any number of ticks, marks before and during uploads included |
| InfoService.GapBounds | app/info_service.py:51-60 | the gap between attempts is 11, 17 or 31 ticks by failure count |
| InfoService.AttemptMeans | app/main.py:574-598 | a success clears the flag and forgets the failures, a transient failure with retries left waits for the gap, anything else gives up |
| InfoService.AttemptsAreSpaced | app/info_service.py:25-60 | after a 403, a 5xx or no answer with retries left, the next attempt comes 11 to 31 ticks later and none before |
| InfoService.ClearsWithin | app/main.py:565-598 | from any dirty state the flag is cleared within the bound by the attempts its failure count leaves and at least one, exactly so when every attempt fails transiently |
| InfoService.RetriesAreBounded | app/main.py:565-598 | at most 11 attempts, clear within 216 ticks of the first |
| InfoService.ClearIsIdle | app/info_service.py:51-60 | along every run a clear flag has no countdown left |
| InfoService.MarkInherits | app/main.py:565-598 | a mark on a clear flag gets the attempts the inherited count leaves and at least one; an idle tick in between forgets the count |
| InfoService.MarkDuringServedIff | app/main.py:574-598 | a mark set during an upload is followed by another attempt exactly when the result is retried |

## Left out

- Factory reset, ONVIF, MQTT discovery documents, the dashboard, camera pipelines and GPIO: they would mostly add easy members.
- The subprocess, network and camera calls themselves: each is a parameter that may succeed or fail.
- Password hashing, token randomness, TLS and certificates: the password test is a parameter and tokens are fresh by hypothesis.
- TomlDoc.LoadsDump: the reader covers the TOML that the writers emit, not all of TOML v1.0.0.
- ConfigText.DeviceRoundTrip: the check of the broker URI is a parameter, because `urlsplit` is not part of this model; the default URI is required to pass it.
- ConfigText.ValidateIdempotent: lower-casing of server names is ASCII only, which decides the two legacy names exactly, since no other character lower-cases to one of their letters.
- Lone surrogates in strings: Dafny characters are Unicode scalar values, so the encoding error they cause in a write is not modelled.
- File modes, ownership and what a power cut does to unsynced data: a stop in the pair save is a stop of the process.
- PairSave.Disk.WriteAtomic: flushing, syncing and closing the temporary file is one step.
- Redact.RedactionComplete: the test for sensitive keys is a parameter, and elements of a set are equal when their values are.
- MqttError.NoStuckError: the sleeper is assumed to succeed and dispatched workers to run.
- AdminRuns.WindowOnlyGuarded: the clock does not go back and no two logins draw the same token.
- AdminRuns.AdminApp.HandleLogin: the random draw is passed in and is not the token of a live session, as the drawing loop of the source ensures.
- RateLimiter.FailuresAreThrottled: a history starts anew when a success or an eviction clears the key's entry.
- ScanList.ScanLists: the numeral reader is a parameter that reads back printed integers.
- LiveServe.EnsureServesIff: the capture is reached by the producer's own steps; what a stop, a release or passing time in between would change is left to a new application of the condition.
- LockFile.HonestExcludes: the age test of a lock file is a free choice in each check.
- BuildManager.Manager.Start: frame selection and the encoder are results of the environment.
- NetworkRuns.FinalizeStoresIff: finalizing reads the pending request and the result file in one step; two status calls, or one and a noting, interleaved inside it are not modelled.
- NetworkRuns.KeysAreEarned: wall clock and monotonic clock are one clock, and the transaction's own result writes succeed; the other hypotheses are those of an orderly run, each with a run that fails without it.
- Watchdog.JustifiedIff: a tick reads the clock once before a retry, and the result file once.
- ProtoTree.IceRoundTripIff: the configuration is bytes, server types are 1 to 3, usernames and credentials look like ones, and which characters are digits is a parameter.

# Superserve: models and proofs

Dafny models of the parts of this repository that carry a protocol or an algorithm, and
proofs of what they promise.  `dafny verify dfyconfig.toml` checks all of it.

| file | models |
|---|---|
| `LaunchLock.dfy` | launch.sh, stop.sh and probe.sh in one sandbox, under the launch lock |
| `RivalElection.dfy` | hooks that create a sandbox for one worker id and then list |
| `MarkerHandshake.dfy` | the relaunch and recycle markers between hooks and monitor |
| `FleetApi.dfy`, `Spawn.dfy`, `MonitorRules.dfy`, `Monitor.dfy` | both programs against arbitrary answers, over a log of every call and clock reading |
| `Regex.dfy`, `Glob.dfy` | the glob compiler, and the regular expressions it writes |
| `Walk.dfy`, `UploadPool.dfy` | the tree walk and the upload workers |
| `TeamIntents.dfy` | team creation over session storage and an unreliable network |
| `EditDistance.dfy` | the edit distance behind provider suggestions |
| `Redaction.dfy` | invite tokens in raw and encoded text, and in JSON-like values |
| `Quoting.dfy` | the command line `exec` sends, and the shell that reads it |
| `BufferPool.dfy` | terminal scrollback in local storage |
| `Retry.dfy`, `Sse.dfy`, `TokenRotation.dfy`, `TokenRetry.dfy` | the SDK transport |
| `CheckoutFence.dfy` | the fence in front of a new payment |
| `Duration.dfy` | durations as typed and as shown |
| `Options.dfy`, `Markers.dfy`, `Whitespace.dfy` | shared by the others |

Code that updates objects is a class whose methods are tied to functions on states;
concurrency is a state machine whose runs are sequences of actions, so a property of a run
holds for every interleaving.  Network answers, time, randomness and scheduling are
arguments of the steps or arbitrary values.

## Assumptions

Each is a predicate named in the theorem that needs it.

- Launch lock: no launch dies between fork and pid write while its worker is live, and a
  SIGKILL of a live group takes effect within the half second launch.sh sleeps (`Benign`);
  process ids are not reused.  `TwoWorkersIff` shows that the first two are exact.
- Election: a sandbox created later sorts later (`OrderedRun`); `SecondWinnerIffOlder` is the
  exact condition.  Two of the three clauses of `OnlyTheOldestWins` assume that nobody else
  deletes a sandbox, and the last one also that no hook tears its own down.
- Handshake: a write of one side keeps the other side's marker, attempts and recycles end
  within the grace period of their markers, and no two attempts share a stamp (`FairRun`).
  The code itself admits the lost write.  A second hook can clear the marker a first one
  relies on (`SecondHookBreaksIt`); `RecyclesIffUnmarked` is the exact condition.
- Team creation: one request in flight, a server that is idempotent per operation, storage
  writes that succeed (`HonestRun`).
- Buffer pool: the index write of a save succeeds; `IndexFailureIff` says exactly when that
  matters.  Those of a clear may fail.
- Checkout fence: handlers are those of the latest render, and no check or act of a
  context starts between the end of an act's nested check and its return (`Prompt`), as the
  microtask queue ensures; `LateReturnBreaksIt` shows that it is needed.

## Where the code does less than its comments say

- `spawn.py:125-131` says the release comes only once the worker is confirmed gone.  A
  sandbox without a worker id counts as gone when its delete or stop fails, with no lookup:
  by the contract of `Spawn.Abandon`, exactly then is there no evidence.
- `invite-token-redaction.ts:58-61` says every string inside a value is redacted.  Strings
  more than 81 steps deep are not (`CredentialsSurviveOnlyBelow`).
- `terminal-tabs-storage.ts:194-195` says a failed write clears the index entry.  It removes
  the buffer only: the index keeps the entries of that key and of the buffers evicted for it,
  which is harmless (`CapsHold`), while a failed index write is not (`IndexFailureIff`).
- `worker.py:170-171` says two launchers can never start two workers.  They can when a launch
  dies at the wrong moment or a SIGKILL is slow, and only then (`TwoWorkersIff`).
- The unlocked probe can report a starting worker as never started
  (`ProbeCanMissLiveWorker`; `ProbeIsRightIff` says exactly when).
- An exclude that holds `**` does not match every name with a line break
  (`MeansTheSameIff`).
- `http.ts:32-38` says eleven attempts guarantee a request after sixty seconds.  A 429 that
  names its own wait can take that away (`SixtySecondsIff`).

## Model

| member | source | states |
|---|---|---|
| `LaunchLock.NeverTwoWorkers` | guides/managed-agents/cursor-cloud-agents/python/worker.py:117-197 | for any number of launch.sh, stop.sh, worker exits and script deaths in any interleaving, at most one worker process group is live, and whenever the lock is free the pid file names it; assumes no script dies between fork and pid write while its worker is live, and no SIGKILL of a live group outlasts the half second launch.sh sleeps |
| `LaunchLock.TwoWorkersIff` | guides/managed-agents/cursor-cloud-agents/python/worker.py:117-197 | behind any run within those assumptions, the next action opens the way to two live workers, by actions within them again, if and only if it breaks them |
| `LaunchLock.RunKeepsInv` | guides/managed-agents/cursor-cloud-agents/python/worker.py:117-197 | the invariant behind it (what each script inside the critical section knows about live workers) is kept over every such run |
| `LaunchLock.LaunchSparesWorkers` | guides/managed-agents/cursor-cloud-agents/python/worker.py:176-187 | in every run within those assumptions, a step of launch.sh ends a live worker only if an exit is recorded for it |
| `LaunchLock.LaunchAlone` | guides/managed-agents/cursor-cloud-agents/python/worker.py:165-197 | from every point with the lock free, a launch.sh that is not interrupted leaves a running worker with no exit recorded alone and reports its pid, and otherwise ends with exactly one new live worker, named by the pid file |
| `LaunchLock.StopAlone` | guides/managed-agents/cursor-cloud-agents/python/worker.py:126-151 | from every such point a stop.sh that is not interrupted ends stopped, with nothing live, no pid file and no exit file |
| `LaunchLock.StoppedMeansNoWorker` | guides/managed-agents/cursor-cloud-agents/python/worker.py:117-151 | a stop.sh that ends with success leaves no live worker at that moment |
| `LaunchLock.ProbeIsRightIff` | guides/managed-agents/cursor-cloud-agents/python/worker.py:92-115 | in every such run the probe, which takes no lock, reports exactly the live worker if and only if no launch stands between its fork and its pid write; behind a recorded exit, if and only if nothing is left alive |
| `LaunchLock.ProbeCanMissLiveWorker` | guides/managed-agents/cursor-cloud-agents/python/worker.py:92-115 | a run without any failure in which the unlocked probe reports no pid file while a worker is live |
| `LaunchLock.CrashBeforePidWriteBreaksIt` | guides/managed-agents/cursor-cloud-agents/python/worker.py:186-194 | a run that reaches a launch dying between fork and pid write, and so, by that condition, two live workers |
| `LaunchLock.SlowKillBreaksIt` | guides/managed-agents/cursor-cloud-agents/python/worker.py:176-187 | a run that reaches a SIGKILL landing after the sleep, and so two live workers |
| `RivalElection.NeverTwoWinners` | guides/managed-agents/cursor-cloud-agents/python/spawn.py:373-408 | for any number of hooks that create, list and fail in any interleaving, with sandboxes sorted in creation order, at most one hook holds a live sandbox that passed the check |
| `RivalElection.SecondWinnerIffOlder` | guides/managed-agents/cursor-cloud-agents/python/spawn.py:383-389 | exactly when a hook that creates late and lists at once becomes a second winner: if and only if its sandbox sorts before the winner's |
| `RivalElection.EqualTimesBreakIt` | guides/managed-agents/cursor-cloud-agents/python/spawn.py:388-389 | two sandboxes with one creation time and ids out of order give two winners |
| `RivalElection.OnlyTheOldestWins` | guides/managed-agents/cursor-cloud-agents/python/spawn.py:373-408 | in every ordered run, a hook that passed the check outlasted every older sandbox, none of which is listed any more; while nobody else deletes sandboxes the first one is never discarded by its own hook, failed launches and their cleanup included; and while nothing is torn down either, only its hook passes |
| `RivalElection.FirstIsElected` | guides/managed-agents/cursor-cloud-agents/python/spawn.py:379-408 | in every ordered run in which nobody else deletes a sandbox, the hook of the first sandbox of all is elected when it looks, whoever creates, lists or tears down in between |
| `RivalElection.HookComesThrough` | guides/managed-agents/cursor-cloud-agents/python/spawn.py:379-432 | in every run, a hook that is shown no older sandbox serves once its launch succeeds and removes its sandbox when it fails; any other one hides its own sandbox, and no other, and exits |
| `RivalElection.RunKeepsInv` | guides/managed-agents/cursor-cloud-agents/python/spawn.py:373-408 | the election invariant is kept over every ordered run |
| `MarkerHandshake.StandingMarkerExcludesRecycle` | guides/managed-agents/cursor-cloud-agents/python/monitor.py:117-154 | any number of hooks and wakes: a hook whose relaunch marker is still the stored one never reuses a sandbox the monitor is pausing or deleting |
| `MarkerHandshake.ReuseExcludesRecycle` | guides/managed-agents/cursor-cloud-agents/python/spawn.py:233-283 | a hook no second attempt marks or retags over never reuses a sandbox the monitor is pausing or deleting, in any interleaving |
| `MarkerHandshake.RecyclesIffUnmarked` | guides/managed-agents/cursor-cloud-agents/python/monitor.py:117-154 | in every state a fair run reaches before the monitor has judged, a reusing hook in it or not, the monitor on its own can come to pause or delete the sandbox, its second probe included, if and only if the stored relaunch marker is not fresh and no wake is running |
| `MarkerHandshake.HookReusesIff` | guides/managed-agents/cursor-cloud-agents/python/spawn.py:233-283 | a hook on its own comes to reuse the sandbox, with its own marker stored, if and only if the sandbox is listed without a fresh recycle marker; one with such a marker is superseded, and then no listing shows it; one that is not listed is left alone |
| `MarkerHandshake.WakesIff` | guides/managed-agents/cursor-cloud-agents/python/monitor.py:353-381 | a wake begins exactly where no recycle is under way and the sandbox is listed without a fresh relaunch marker, and otherwise changes nothing |
| `MarkerHandshake.AttemptClears` | guides/managed-agents/cursor-cloud-agents/python/worker.py:307-322 | done launching, a hook or a wake takes back its own marker and no other |
| `MarkerHandshake.RecycleEnds` | guides/managed-agents/cursor-cloud-agents/python/monitor.py:141-222 | a recycle that goes through deletes the sandbox, or pauses it and takes its marker back; one that backs off takes it back as well, and nothing else of the metadata changes |
| `MarkerHandshake.SecondHookBreaksIt` | guides/managed-agents/cursor-cloud-agents/python/spawn.py:233-283 | a fair run in which a second hook overwrites and then clears the marker and, by that condition, the monitor pauses or deletes the sandbox the first hook is reusing |
| `MarkerHandshake.RunKeepsInv` | guides/managed-agents/cursor-cloud-agents/python/monitor.py:117-154 | the handshake invariant is kept over every fair run |
| `Spawn.Oldest` | guides/managed-agents/cursor-cloud-agents/python/spawn.py:383-389 | the live sandbox with the least (created_at, id), and none exactly if nothing is live |
| `Spawn.ReplacementExists` | guides/managed-agents/cursor-cloud-agents/python/spawn.py:109-122 | false exactly if the listing by worker id succeeded and showed no other live sandbox |
| `Spawn.TearDown` | guides/managed-agents/cursor-cloud-agents/python/spawn.py:133-168 | true exactly if the delete succeeded, or a stop was confirmed by a later probe, or a listing by the worker id no longer shows the sandbox, or it carries no worker id; false only after a listing that failed or still shows it |
| `Spawn.Abandon` | guides/managed-agents/cursor-cloud-agents/python/spawn.py:125-190 | releases only on complete evidence, only this request and at most once, and whenever the evidence is complete; otherwise it ends in a listing that stood against it. Without evidence of a teardown it goes on exactly for a sandbox that carries no worker id |
| `Spawn.HandBack` | guides/managed-agents/cursor-cloud-agents/python/spawn.py:169-189 | given a teardown with no launch behind it, the request is released if and only if the listing right before showed no live replacement |
| `Spawn.HandleError` | guides/managed-agents/cursor-cloud-agents/python/spawn.py:433-443 | with nothing handled and absence not confirmed no call is made at all; otherwise the claim is handed back on complete evidence only |
| `Spawn.ClearOwnMarker` | guides/managed-agents/cursor-cloud-agents/python/worker.py:307-322 | one read, and a write exactly if the stored marker is the one this attempt wrote |
| `Spawn.ReadRecycling` | guides/managed-agents/cursor-cloud-agents/python/spawn.py:254-283 | decides by one listing and the time: a listed sandbox stays ours exactly if its recycle marker is not fresh, and is retired only by a retag that succeeds; an unlisted one is retired |
| `Spawn.Elect` | guides/managed-agents/cursor-cloud-agents/python/spawn.py:379-408 | won exactly if no older live rival is listed; a loser is retagged and only then deleted, and nothing is released or launched |
| `Spawn.Prepare` | guides/managed-agents/cursor-cloud-agents/python/spawn.py:225-366 | which verdict each combination of answers leads to, call by call: replaced with nothing left behind after one call exactly if the first listing shows no live sandbox; reused exactly if the marker was written, the rereading leaves the sandbox ours, and connect, and resume where it is paused, answered that it is up; ended with code 1 only behind the call that failed; replaced otherwise, once absence is confirmed. Nothing is launched or, unless it ends here, released |
| `Spawn.Contended` | guides/managed-agents/cursor-cloud-agents/python/spawn.py:330-366 | after a conflict a listing and the time tell a wake (not freshly marked for recycling: keep the claim) from a recycle (retag and start a replacement, with absence confirmed); replaced exactly if that reading retired the sandbox; where the listing failed, a sandbox that was connected to is torn down and the claim dealt with |
| `Spawn.ProbeAndAbandon` | guides/managed-agents/cursor-cloud-agents/python/spawn.py:297-329 | after a lost activation answer nothing more happens unless the sandbox is reached and a probe neither finds a worker nor fails; then its worker is stopped, and the claim released or kept on a listing that stood against it |
| `Spawn.RunReused` | guides/managed-agents/cursor-cloud-agents/python/spawn.py:367-432 | a reused sandbox: a worker found running is left to run, with exit 0, and otherwise one is launched; exit 0 exactly for those two, and behind any other launch the sandbox is given up |
| `Spawn.RunCreated` | guides/managed-agents/cursor-cloud-agents/python/spawn.py:373-432 | a created sandbox: created only with absence confirmed; launched in exactly if the listing behind the creation shows no older rival; a lost election means exit 1 with no launch and no release; a failed creation hands the claim back exactly if no replacement is listed |
| `Spawn.LaunchIn` | guides/managed-agents/cursor-cloud-agents/python/spawn.py:410-432 | exit 0 exactly for a launch that started; a failed one, in a resumed sandbox or an own one, is followed by the teardown, by the release of the request or a listing that failed or showed a sandbox that may serve it, and last by taking the marker back in a sandbox that stays |
| `Spawn.Invocation` | guides/managed-agents/cursor-cloud-agents/python/spawn.py:193-443 | over a whole invocation and every combination of answers: the log follows the table of calls that each answer leads to; only its own request is released, at most once, and on a teardown seen since the last launch or with nothing handled and absence confirmed; a sandbox is created only with absence confirmed; a lost election means no launch and no release; and no failed launch leaves the claim unattended |
| `Spawn.NewWorkerIsServed` | guides/managed-agents/cursor-cloud-agents/python/spawn.py:225-432 | an invocation whose first listing shows no live sandbox creates one in its second call, and launches in it unless the creation fails, the next listing fails or it shows an older rival |
| `Spawn.ExitZeroIff` | guides/managed-agents/cursor-cloud-agents/python/spawn.py:367-432 | an invocation exits with 0 if and only if a launch started, or the probe right behind the activation of the sandbox it marked found a worker |
| `FleetApi.FirstLiveIsFirst` | guides/managed-agents/cursor-cloud-agents/python/worker.py:339-344 | the sandbox looked up for a worker is the first live one of the listing |
| `Monitor.Watcher.HandBackAfterKill` | guides/managed-agents/cursor-cloud-agents/python/monitor.py:193-207 | after a delete the request is released if and only if releases are allowed and a listing right after showed no live replacement |
| `Monitor.Watcher.ProbeIdle` | guides/managed-agents/cursor-cloud-agents/python/monitor.py:103-124 | goes on exactly if a probe found a terminal state and tags read behind it carry no fresh relaunch marker |
| `Monitor.Watcher.Claim` | guides/managed-agents/cursor-cloud-agents/python/monitor.py:125-154 | succeeds exactly if the recycle marker was written, tags read behind it carry no fresh relaunch marker and a later probe found no worker; otherwise the marker is taken back, except where it was not written or the tags could not be read, and then it is left to expire |
| `Monitor.Watcher.Recycle` | guides/managed-agents/cursor-cloud-agents/python/monitor.py:103-263 | call by call: what is seen idle is claimed, a claim that stands is acted on, and one that does not is taken back; every pause or delete is of this sandbox and was claimed first; every release is of its own request, is the first one of the call, and follows its delete and a listing that showed no live replacement; paused exactly if sandboxes hibernate and it ever got a supervisor |
| `MonitorRules.RecycleActs` | guides/managed-agents/cursor-cloud-agents/python/monitor.py:103-263 | in every log of a recycle, four calls that show the sandbox idle are followed by the claim, and a claim that stands by the disposal its states and tags call for |
| `MonitorRules.CrashIsHandedBack` | guides/managed-agents/cursor-cloud-agents/python/monitor.py:224-263 | without hibernation, the claim of a crashed worker is released when its lookup and the delete succeed and no live replacement is listed |
| `MonitorRules.HibernationKeeps` | guides/managed-agents/cursor-cloud-agents/python/monitor.py:209-222 | with hibernation a claimed sandbox that ever got a supervisor is paused, and never deleted or released |
| `Monitor.Watcher.DeleteAbandoned` | guides/managed-agents/cursor-cloud-agents/python/monitor.py:168-208 | tags read last before the delete; their request released exactly if the delete succeeded, no superseding worker id, no replacement and a key is set |
| `Monitor.Watcher.Pause` | guides/managed-agents/cursor-cloud-agents/python/monitor.py:209-222 | the recycle marker is dropped from metadata read after a successful pause, and only then |
| `Monitor.Watcher.DeleteExited` | guides/managed-agents/cursor-cloud-agents/python/monitor.py:224-263 | the claim of a crashed worker is looked up before the delete and a failed lookup puts the delete off; a clean exit releases nothing |
| `Monitor.Watcher.ClaimedRequestFor` | guides/managed-agents/cursor-cloud-agents/python/monitor.py:59-78 | the live claim, or the tag when there is none or no lookup to make; nothing when the lookup failed |
| `Monitor.Watcher.ReapFailed` | guides/managed-agents/cursor-cloud-agents/python/monitor.py:266-297 | lookup before delete, release after it, of this sandbox's own request and if and only if no live replacement is listed; nothing is released for a superseded worker |
| `Monitor.Watcher.Sweep` | guides/managed-agents/cursor-cloud-agents/python/monitor.py:300-334 | whatever is paused or deleted failed, or was claimed first and active, past its grace period by the clock read first, not being woken, and without a fresh relaunch marker by a later reading; every release is of the request of a sandbox of the list behind its delete; and for every sandbox of the list the log holds exactly the calls due: those of a reap, those of a recycle, or none |
| `Monitor.Watcher.WakeOne` | guides/managed-agents/cursor-cloud-agents/python/monitor.py:337-477 | never pauses or deletes; activates only behind its own marker, and then launches wherever connect, and resume for a paused sandbox, answer that it is up; releases only its own request, behind a launch that left no worker running and, since it, a reading without another launcher's marker, a confirmed stop, a second such reading and a last probe that met no worker, and keeps it only for one of those reasons; the marker is taken back last and the sandbox leaves the waking set |
| `MonitorRules.WakeLaunches` | guides/managed-agents/cursor-cloud-agents/python/monitor.py:378-419 | in every log of a wake, an answer that the sandbox is up is followed by the launch, with the resume in front of it for a paused one |
| `Monitor.Watcher.MarkAndLaunch` | guides/managed-agents/cursor-cloud-agents/python/monitor.py:353-381 | before anything is activated the sandbox was listed without a fresh relaunch marker and this attempt's marker was written; activation follows exactly then |
| `Monitor.Watcher.ConfirmStop` | guides/managed-agents/cursor-cloud-agents/python/monitor.py:437-457 | stops only behind a reading that showed no fresh marker of another launcher; true exactly after a successful stop and a later probe that found none; false only on unreadable tags, such a marker, a failed stop or a worker not confirmed to be gone |
| `Monitor.Watcher.HandBackAfterStop` | guides/managed-agents/cursor-cloud-agents/python/monitor.py:427-473 | releases only this request, behind a stop confirmed in the same call, a second reading without another launcher's marker and a last probe that met no worker, the two calls right before it; keeps it only for one of those reasons |
| `Glob.GlobToRegExp` | packages/cli/src/commands/files.ts:278-295 | writes the pieces of the glob in order between ^ and $ |
| `Glob.SourceParses` | packages/cli/src/commands/files.ts:278-295 | whatever characters a glob holds, the text written is a well-formed regular expression, namely the one the glob denotes |
| `Glob.CompilerIsCorrect` | packages/cli/src/commands/files.ts:278-295 | for every glob and every path without line terminators, that expression matches exactly what the glob means |
| `Glob.CompilerOnAnyPath` | packages/cli/src/commands/files.ts:278-295 | for every path at all, the same with ** stopping at line terminators |
| `Glob.MeansTheSameIff` | packages/cli/src/commands/files.ts:278-295 | expression and meaning agree on all paths, line breaks included, if and only if the glob does not hold ** |
| `Glob.ExcluderIsCorrect` | packages/cli/src/commands/files.ts:297-305 | a path is excluded exactly if some pattern means its basename (pattern without a slash) or the whole path |
| `Glob.TrimmedIff` | packages/cli/src/commands/files.ts:297-300 | a pattern is taken without one leading ./ and without any slash at its end, and nothing else of it is dropped |
| `Glob.SlashFreePatternsIgnoreDepth` | packages/cli/src/commands/files.ts:297-305 | a pattern without a slash treats a name alike at every depth |
| `Walk.Walker.Visit` | packages/cli/src/commands/files.ts:322-342 | terminates on every finite tree with symlink cycles, restores the ancestor set and appends exactly the files below |
| `Walk.Walk` | packages/cli/src/commands/files.ts:313-351 | returns the files of the specification from an empty ancestor set |
| `Walk.WalkIsExact` | packages/cli/src/commands/files.ts:313-351 | a file is returned exactly if a route of entries leads to it with no excluded prefix and pairwise distinct real directories |
| `Walk.EachPathOnce` | packages/cli/src/commands/files.ts:313-351 | no relative path is returned twice, aliases and cycles included |
| `UploadPool.EachFileStartedOnce` | packages/cli/src/commands/files.ts:405-438 | in every interleaving of the workers each file is started at most once, in order, by one worker, and the counters show exactly what was written |
| `UploadPool.SuccessMeansAllWritten` | packages/cli/src/commands/files.ts:429-435 | when every worker ended normally all files were written and both counters are complete |
| `UploadPool.NothingStartsAfterAbort` | packages/cli/src/commands/files.ts:405-423 | after the first failure no further write is started |
| `UploadPool.FirstFailureAborts` | packages/cli/src/commands/files.ts:405-438 | in every interleaving there is one worker per file up to eight; the first write that fails aborts and is the one thrown, later ones are not; and until then no worker leaves while a file is not started |
| `UploadPool.UploadCanComplete` | packages/cli/src/commands/files.ts:405-435 | from every point without a failure the upload can still end with every file written and every byte counted |
| `TeamIntents.Client.PickIntentKey` | apps/console/src/hooks/use-teams.ts:75-100 | the scan over stored keys returns the key and region of the specification and removes only a rejected conversion |
| `TeamIntents.Client.Prepare` | apps/console/src/hooks/use-teams.ts:121-158 | the request sent, if any, is the specified one and its intent is stored unrejected before it is sent |
| `TeamIntents.Client.Settle` | apps/console/src/hooks/use-teams.ts:159-172 | what each answer leaves in storage |
| `TeamIntents.NothingIsForgotten` | apps/console/src/hooks/use-teams.ts:102-172 | with a server idempotent per operation and arbitrary lost answers, every operation the server committed and the client was not told of is still stored, unresolved, with the name and target it was sent with |
| `TeamIntents.ModesNeverOvertake` | apps/console/src/hooks/use-teams.ts:80-100 | an unresolved conversion and an unresolved creation never coexist |
| `TeamIntents.UnresolvedIsResent` | apps/console/src/hooks/use-teams.ts:126-158 | a request whose key holds an unresolved intent resends exactly the earlier call or sends nothing |
| `TeamIntents.SameFormSameOperation` | apps/console/src/hooks/use-teams.ts:117-158 | submitting the same form again after an indefinite answer sends the same operation again; for a conversion form that continues a pending creation, if storage lists its keys in the same order |
| `TeamIntents.HeldBackIff` | apps/console/src/hooks/use-teams.ts:121-142 | in every honest run a request is held back if and only if the key it takes up holds an unresolved intent under another name |
| `TeamIntents.NewRequestIsSent` | apps/console/src/hooks/use-teams.ts:121-158 | a request whose key holds no intent sends a new operation with the name, region and mode of the form |
| `TeamIntents.RefusedNameIsGivenUp` | apps/console/src/hooks/use-teams.ts:135-142 | once the server refused a name, the form with another name sends a new operation under that name, and only the same form again sends the old one |
| `TeamIntents.RunKeepsInv` | apps/console/src/hooks/use-teams.ts:102-172 | the storage and server invariant is kept over every run |
| `EditDistance.Levenshtein` | packages/cli/src/commands/secret.ts:93-107 | the two-row loop computes the recursive distance |
| `EditDistance.NoShorterEdits` | packages/cli/src/commands/secret.ts:93-107 | no sequence of single-character edits between the strings is shorter than the distance |
| `EditDistance.ShortestEdits` | packages/cli/src/commands/secret.ts:93-107 | a sequence of exactly that many edits exists |
| `EditDistance.WithinEdits` | packages/cli/src/commands/secret.ts:114-119 | the distance is at most n exactly if at most n edits turn one string into the other |
| `EditDistance.ZeroIffEqual` | packages/cli/src/commands/secret.ts:93-107 | distance zero exactly for equal strings |
| `EditDistance.Symmetric` | packages/cli/src/commands/secret.ts:93-107 | the distance is symmetric |
| `EditDistance.Triangle` | packages/cli/src/commands/secret.ts:93-107 | the triangle inequality |
| `EditDistance.Bounds` | packages/cli/src/commands/secret.ts:93-107 | between the difference of the lengths and the longer length |
| `Redaction.OnePassIsEnough` | apps/console/src/lib/invite-token-redaction.ts:46-51 | redacting a redacted text changes nothing, for raw and any number of encoding layers, and no redacted text carries a token |
| `Redaction.NoTokenRemains` | apps/console/src/lib/invite-token-redaction.ts:30-51 | at no position of a redacted text does either pattern match anything but the placeholder |
| `Redaction.CarriesIffSpelled` | apps/console/src/lib/invite-token-redaction.ts:126-129 | an address carries a token exactly if some position of it matches something other than the placeholder |
| `Redaction.NoSpellingEscapes` | apps/console/src/lib/invite-token-redaction.ts:5-33 | a token whose characters are spelled raw or percent-encoded any number of times, in any case and anywhere in a text, is carried by that text, unless the placeholder stands there |
| `Redaction.NoInviteEscapes` | apps/console/src/lib/invite-token-redaction.ts:35-41 | the segment behind /invite/ in any spelling is carried likewise |
| `Redaction.OnlyMatchesChange` | apps/console/src/lib/invite-token-redaction.ts:46-51 | text in which no match begins is kept in front of the first match |
| `Redaction.OnlyCredentialsChange` | apps/console/src/lib/invite-token-redaction.ts:46-51 | every text falls into characters that begin no match and whole matches, and redaction puts the placeholder in the place of each credential and keeps all the rest in order |
| `Redaction.QuickLookIsSafe` | apps/console/src/lib/invite-token-redaction.ts:43-47 | a text the quick look rejects has no match of either pattern |
| `Redaction.BodyCodesAreBody` | apps/console/src/lib/invite-token-redaction.ts:27-29 | the listed hexadecimal codes are those of the letters, digits, _ and -, and no others |
| `Redaction.SegmentsKeepTokens` | apps/console/src/lib/invite-token-redaction.ts:46-51 | redacting segments makes no new token match |
| `Redaction.RedactInviteTokensDeep` | apps/console/src/lib/invite-token-redaction.ts:62-88 | the copying loops compute the specified value |
| `Redaction.DeepRedactsWhatItReaches` | apps/console/src/lib/invite-token-redaction.ts:62-88 | shape and keys are preserved wherever a path leads, and a string is redacted exactly if at most 81 steps lead to it |
| `Redaction.CredentialsSurviveOnlyBelow` | apps/console/src/lib/invite-token-redaction.ts:62-88 | a token survives the deep redaction exactly in strings more than 81 steps deep |
| `Redaction.DeepOnce` | apps/console/src/lib/invite-token-redaction.ts:62-88 | the deep redaction reaches its fixed point in one pass |
| `Quoting.QuotingRoundTrip` | packages/cli/src/commands/exec.ts:113-121 | for any number of arguments but one, splitting and unquoting the command line by the shell's rules gives back exactly the arguments |
| `Quoting.QuotingIsInjective` | packages/cli/src/commands/exec.ts:113-121 | no two such argument lists are printed alike |
| `Quoting.SingleArgumentIsKeptIff` | packages/cli/src/commands/exec.ts:113-115 | a single argument reaches the shell raw and stays one word exactly if it is not empty, begins no comment and holds no character special to the shell |
| `BufferPool.Pool.Load` | apps/console/src/lib/terminal-tabs-storage.ts:153-161 | the stored buffer of a nonempty key |
| `BufferPool.Pool.Save` | apps/console/src/lib/terminal-tabs-storage.ts:163-202 | the whole new state of a save, for each combination of failing writes |
| `BufferPool.Pool.Clear` | apps/console/src/lib/terminal-tabs-storage.ts:204-214 | the buffer is gone, and its index entry too unless the index cannot be written |
| `BufferPool.Pool.Close` | apps/console/src/lib/terminal-tabs-storage.ts:222-226 | cleared, and closed for the session |
| `BufferPool.Pool.ClearAll` | apps/console/src/lib/terminal-tabs-storage.ts:228-238 | every indexed buffer and the index are gone |
| `BufferPool.CapsHold` | apps/console/src/lib/terminal-tabs-storage.ts:107-226 | in every session in which no save loses its index write, however many buffer writes and index writes of a clear fail, every stored buffer is indexed once with its true size, and at most ten buffers and 10 x 256 Ki characters are stored |
| `BufferPool.SavedLoadsBack` | apps/console/src/lib/terminal-tabs-storage.ts:153-202 | in every session a completed save loads back exactly, until its key is saved again, cleared, closed or evicted; every other key loads what it loaded before, except those evicted for it |
| `BufferPool.StaysLoaded` | apps/console/src/lib/terminal-tabs-storage.ts:153-226 | a key loads the same until it is addressed or evicted, whatever happens to other keys |
| `BufferPool.FailedSaveStoresNothing` | apps/console/src/lib/terminal-tabs-storage.ts:163-202 | a save that is refused, and one whose buffer cannot be written, never store the new buffer |
| `BufferPool.ClearForgets` | apps/console/src/lib/terminal-tabs-storage.ts:204-226 | a key that is cleared or closed loads nothing, even if the index cannot be written; no other key is affected, and the index loses its entry alone |
| `BufferPool.RunKeepsInv` | apps/console/src/lib/terminal-tabs-storage.ts:163-238 | the invariant is kept by every sequence of operations, reloads included |
| `BufferPool.IndexFailureIff` | apps/console/src/lib/terminal-tabs-storage.ts:145-151 | after a failed index write index and store still agree exactly if the key was indexed before with the new size |
| `BufferPool.EvictsShortestPrefix` | apps/console/src/lib/terminal-tabs-storage.ts:174-188 | a save evicts the shortest prefix, least recently saved first, that makes room |
| `BufferPool.IndexInSaveOrder` | apps/console/src/lib/terminal-tabs-storage.ts:174-192 | under a nondecreasing clock the index stays in the order of the last saves |
| `BufferPool.ClosingStartsIt` | apps/console/src/lib/terminal-tabs-storage.ts:216-226 | a closed key never loads again before a reload, whatever is saved |
| `BufferPool.AllClearedIsEmpty` | apps/console/src/lib/terminal-tabs-storage.ts:228-238 | where the invariant holds, clearing all leaves no buffer |
| `Retry.RetryableFetch` | packages/sdk/src/http.ts:195-307 | which attempts are made, what was waited between them and how it ends, for every sequence of answers |
| `Retry.ParseRetryAfter` | packages/sdk/src/http.ts:141-158 | never negative and never above the cap |
| `Retry.WaitsAsAsked` | packages/sdk/src/http.ts:141-158 | the seconds or the date a 429 names are what is waited, to the millisecond and up to thirty seconds |
| `Retry.OthersBackOff` | packages/sdk/src/http.ts:255-264 | behind any other answer, and a 429 that names no wait, the backoff is waited |
| `Retry.GoesOnIff` | packages/sdk/src/http.ts:195-307 | an attempt is followed by another one if and only if the request is retryable, the answer was a network error, 429, 502 to 504, or 409 where the caller asks, the wait was not cancelled, and attempts are left: the caller's number, or three, or eleven once a conflict was met |
| `Retry.EndIsDetermined` | packages/sdk/src/http.ts:195-307 | that contract leaves one number of attempts and one ending |
| `Retry.SentOnce` | packages/sdk/src/http.ts:210-212 | a request that is not retryable is sent once |
| `Retry.RetryBudget` | packages/sdk/src/http.ts:31-39 | at most eleven attempts, and more than three only after a retried 409 |
| `Retry.CallersBudget` | packages/sdk/src/http.ts:210-249 | a limit set by the caller is kept as it is |
| `Retry.NoLongWait` | packages/sdk/src/http.ts:141-165 | every wait is between zero and thirty seconds |
| `Retry.ElevenAttemptsOutlastAPause` | packages/sdk/src/http.ts:32-39 | eleven attempts without a 429 wait between 70.88 and 90.6 seconds in all, for every jitter |
| `Retry.SixtySecondsIff` | packages/sdk/src/http.ts:32-39 | which 429s take the guarantee away: for every set of attempts answered 429, all runs of eleven attempts wait sixty seconds if and only if the waits those replace last at most 10.88 s at the least, or no such run exists |
| `Retry.TooManyMayShortenIt` | packages/sdk/src/http.ts:255-260 | a run the loop makes: a conflict, then 429s asking for no wait, eleven attempts within 80 ms of waiting |
| `TokenRotation.Sandbox.Post` | packages/sdk/src/Sandbox.ts:195 | each request takes the next revision |
| `TokenRotation.Sandbox.RotateToken` | packages/sdk/src/Sandbox.ts:202-212 | token, hint and revision change together, only for a newer revision that carries a token |
| `TokenRotation.Sandbox.RefreshActivate` | packages/sdk/src/Sandbox.ts:220-226 | joins the refresh in flight or starts one |
| `TokenRotation.Sandbox.RefreshSettled` | packages/sdk/src/Sandbox.ts:222-224 | once settled, the next caller starts a new refresh |
| `TokenRotation.CachedIsLatest` | packages/sdk/src/Sandbox.ts:191-226 | in every interleaving token and hint come from one answer, that to the latest-issued request that has succeeded so far, and at most one refresh is unanswered |
| `TokenRotation.RunKeepsInv` | packages/sdk/src/Sandbox.ts:191-226 | what is cached never goes back to an older request |
| `TokenRotation.CallerGetsNoOlderToken` | packages/sdk/src/Sandbox.ts:207-212 | a caller is handed the token of its own request or of a later-issued one |
| `TokenRetry.WithTokenRetry` | packages/sdk/src/tokenRetry.ts:38-51 | the activations and sends of one call, in order, and its outcome, for every answer |
| `TokenRetry.AtMostTwice` | packages/sdk/src/tokenRetry.ts:33-51 | at most two sends and two activations; the second send follows a resumable failure and a successful activation and carries its token |
| `TokenRetry.SecondChance` | packages/sdk/src/tokenRetry.ts:38-51 | an activation in front exactly when the hint has expired, and its error ends the call; behind the first send another one exactly for a resumable failure: if it succeeds the request goes out again with its token and that answer is the outcome, and if it fails its error is |
| `TokenRetry.ResumableIff` | packages/sdk/src/tokenRetry.ts:18-31 | the failures that are resumable: a stale route, a refused token, or a 503, which under a hint has to say that the sandbox is unavailable |
| `Sse.StreamSse` | packages/sdk/src/http.ts:674-707 | however the stream is cut, the payloads handed over are those of the finished lines of the whole text |
| `Sse.SplitIsLines` | packages/sdk/src/http.ts:691-693 | the lines contain no line feed and, joined, are the text |
| `Sse.LinesAreUnique` | packages/sdk/src/http.ts:691-693 | a text has only one such division |
| `Sse.SplitOfConcat` | packages/sdk/src/http.ts:691-693 | only the unfinished line is continued by the next chunk |
| `Sse.PayloadIsRest` | packages/sdk/src/http.ts:695-699 | a payload is the rest of its data: line without the white space around it, nonempty and not [DONE] |
| `Sse.LineByLine` | packages/sdk/src/http.ts:695-706 | each finished line is handed over on its own, in order |
| `CheckoutFence.Hook.StartCheck` | apps/console/src/hooks/use-pending-starter-checkout.ts:45-54 | a check starts exactly for an active context that is not running |
| `CheckoutFence.Hook.AnswerCheck` | apps/console/src/hooks/use-pending-starter-checkout.ts:55-90 | what each answer to a check leaves in the refs and the saved state |
| `CheckoutFence.Hook.RefreshCheck` | apps/console/src/hooks/use-pending-starter-checkout.ts:59-89 | the end of the refresh after a clear answer |
| `CheckoutFence.Hook.StartAct` | apps/console/src/hooks/use-pending-starter-checkout.ts:100-110 | an act starts exactly with a purchase shown for the current context |
| `CheckoutFence.Hook.AnswerAct` | apps/console/src/hooks/use-pending-starter-checkout.ts:111-152 | what each answer to a resume or cancel leaves |
| `CheckoutFence.Hook.RefreshAct` | apps/console/src/hooks/use-pending-starter-checkout.ts:122-128 | after the refresh the context is unfenced and checked again |
| `CheckoutFence.StartsOnlyWhenClear` | apps/console/src/hooks/use-pending-starter-checkout.ts:154-164 | in every run, whenever a payment may start with the hook enabled, the last answer recorded for that context was "no pending checkout", nothing waits for it, and every other answer was followed by a completed refresh |
| `CheckoutFence.ClearAnswerOpens` | apps/console/src/hooks/use-pending-starter-checkout.ts:45-164 | in every run, where nothing waits for the context shown, a check answered with "no pending checkout", and a refresh where one is due, let a payment start; a disabled hook never holds one back and one without a team or an actor always does |
| `CheckoutFence.AnswerIsShown` | apps/console/src/hooks/use-pending-starter-checkout.ts:45-97 | in every such run, what each answer to a check leads to: only a clear one with no refresh due opens the fence, a pending checkout is shown and can be acted on, and behind any other answer a check can be made again |
| `CheckoutFence.ActOpens` | apps/console/src/hooks/use-pending-starter-checkout.ts:100-152 | an act the server answers as over, refreshed and checked again, opens the fence; one that fails leaves the checkout offered |
| `CheckoutFence.OldContextsDoNotMatter` | apps/console/src/hooks/use-pending-starter-checkout.ts:57-97 | answers and refreshes for another context change nothing the current one sees |
| `CheckoutFence.LateReturnBreaksIt` | apps/console/src/hooks/use-pending-starter-checkout.ts:122-152 | if a handler could run between the end of the nested check and the return of its act, a payment could start while a check still waits |
| `CheckoutFence.RunKeepsInv` | apps/console/src/hooks/use-pending-starter-checkout.ts:45-153 | the fence invariant is kept over every run |
| `Duration.ParseDuration` | packages/cli/src/args.ts:26-45 | the matching loop computes the specified result or the usage error |
| `Duration.SumGroups` | packages/cli/src/args.ts:32-38 | the groups from the start of the text add up to the total, and cover it exactly if the text is made of groups |
| `Duration.AcceptsExactly` | packages/cli/src/args.ts:28-45 | accepted with a value exactly if, trimmed, it is all digits with that value or one or more groups that add up to it |
| `Duration.FormatParse` | packages/cli/src/output.ts:154-165 | parsing what is shown gives the duration rounded down to its display unit |
| `Duration.FormatIsStable` | packages/cli/src/output.ts:154-165 | showing that result gives the same text again |
| `Duration.FormatIsCanonical` | packages/cli/src/output.ts:154-165 | a duration is written in the largest unit it fills, or seconds, and in the next smaller one the rest that leaves, if any: plain numbers, at most two groups, that add up to it rounded down |

## Left out

- MarkerHandshake.ReuseExcludesRecycle: holds for a hook whose marker no second attempt overwrites or clears; it is false for any two hooks on different hosts, and `RecyclesIffUnmarked` says exactly when the monitor gets through.
- Monitor.Watcher.Sweep: the listing of the pool, and the choice of the requests to wake and the threads they are woken in.
- Spawn.Invocation: the missing environment variables (exit code 2) and the host lock of `with_worker_lock` around it are not modelled.
- TeamIntents.Client.Prepare: the check of the name's length, JSON that does not parse and storage writes that throw are not modelled.
- Walk.Walk: the list of skipped entries and its warning, absolute paths and a tree that changes during the walk; entries come in the order localeCompare gives them.
- Redaction.RedactInviteTokensDeep: object identity (the input itself is returned when nothing changed) and objects with a prototype of their own beyond being kept.
- Quoting.QuotingRoundTrip: assignments, reserved words and aliases in command position.
- Duration.ParseDuration: numbers of 2^53 and above, which the program rounds.
- Retry.RetryableFetch: `Number` and `Date.parse` on a Retry-After value (both readings are given), the per-attempt timer, and rounding of floating-point products.
- TokenRetry.WithTokenRetry: the decoding of the routing hint; whether it has expired is given.
- TokenRotation.RunKeepsInv: the polling of `resume` after a conflict; its second request is one more request here.
- Strings are sequences of Dafny characters; code units of UTF-16 above the basic plane are not split.
- The regular-expression engine beyond the constructs the glob compiler writes; the two token patterns are matched by hand.
- The JSON parser, the text decoder, timers, tables, spinners, prompts and telemetry.
- `sendBytes` and the terminal protocol, tab lists, font size, `checkProvider`'s substring suggestions.
- React rendering and caches, except the state the two hooks keep.
- The Claude orchestrator and the thin SDK methods, which would add weaker or easier members.

# A verified model of Statiko's state machine

Statiko runs on every node of a cluster of web servers. It brings the node's folders, certificates and nginx
configuration in line with a list of sites, and coordinates the nodes through etcd. This project models that behaviour
in Dafny and proves what the code promises. `dafny verify dfyconfig.toml` checks all of it.

## Parts

**Coordination through etcd.** `Etcd.dfy` is a linearizable store: a log of events whose length is the revision.
`PutIfDifferent.dfy` has the two transactions of `setIfDifferent`, with arbitrary events of other clients in between.
`StateCache.dfy`, `EtcdLock.dfy`, `LeaderElection.dfy`, `LeadershipManager.dfy`, `JobTakeover.dfy` (one term),
`JobTerms.dfy` (any number of them) and `JobWait.dfy` are step machines over all interleavings of nodes and
goroutines: a state, a step relation, an invariant that every step keeps, and theorems about every state of every run.
`LeaderRecovery.dfy`, `JobRepeats.dfy` and `JobAnswers.dfy` say exactly when a vacancy can end, when a job can be
handed over again, and when a caller is answered. Fields such as `unsaved`, `sections`, `handed` or `successes` are
history: no step reads them.

**Queues and pools.** `SyncQueue.dfy` models the two channels that coalesce sync requests. `WorkerPool.dfy` models the
three workers with their jobs and results channels, as the health checks and the staging of apps use them, and
`StatusCheck.dfy` the loop that reads the results of health checks and decides what to notify.

**Reconcilers.** `Nginx.dfy` and `AppManager.dfy` are classes over a disk, given as maps, that the methods change step
by step. Loops over Go maps and folders take entries in any order, the configuration test answers anything at any
time, and disk operations may fail. Ghost fields count the operations that failed and record the tests of the
configuration, so that the contracts can say when a call succeeds and why a site has an error. `SyncRun.dfy` joins the
two under one run.

**Certificates and secrets.** `Secrets.dfy` and `SecretStore.dfy` have the framing, the envelope, the keys and the
methods on the secrets; `DomainLists.dfy` and `Sorting.dfy` the joining, splitting and sorting of names;
`Certificates.dfy` the inspection, the jobs and the loop that asks for a self-signed certificate; `CertMonitor.dfy`
the renewals and warnings.

**Sites and configuration texts.** `SiteTable.dfy` says what each request makes of the table of sites and proves what
all sequences of requests keep; `SiteApi.dfy` has the handlers and the table's methods as they are written, proved
against it. `Escape.dfy` has the escaper, the reader that undoes it, and the filter for headers.

## Assumptions

- SHA-256, AES-GCM, X.509, PEM and templates are functions without a definition. Where a theorem needs it, the cipher
  opens what it sealed, and a certificate that was created parses back with its names and with its times cut to
  seconds. Equal digests stand for equal secret keys and job IDs. The digest, the cipher and X.509 are parameters.
- In the cache protocol a node changes its cache, serializes it and sets the marker -1 in one step, and a node that
  joins reads the list in one step. Writes that fail, and a watcher that runs out of patience while a write is under
  way, are modelled.
- The lock's store drops a lease when it is revoked, or at some moment after its 20 seconds, never earlier. Time is
  whole seconds there, and nanoseconds in the certificates.
- Requests on the site table are atomic. `SiteTable.InterleavedCreates` shows what happens otherwise.
- In the reconcilers, domains are distinct and not `_default`, every site has a TLS configuration, and the rendering
  of a site is a fixed function. Domains that are distinct are what `SiteTable.RunKeepsDisjoint` provides. A symbolic
  link in the folder with the sites leads out of that folder. Between runs nobody else changes the files and the site
  folders.
- The clocks, nonces, generated names, and the answers of etcd, disk, nginx and other services are arbitrary.
- A job's certificate is looked at within 8748 hours less a second of its issue, by the requester's clock, and at
  least three seconds after it.

## What the proofs found

Where the code does not do what it is for, the code is modelled as it is, and a lemma gives a concrete run or input.

- A watcher that waits in vain for a write of its own node applies an event after a second. If that is an older one,
  the node can keep the older list although it stored a newer one itself and has consumed everything
  (`StateCache.OvertakenWriteDiverges`), until somebody stores something else.
- A node whose write failed can keep a list that nobody stored (`StateCache.FailedWriteDiverges`) until the next
  delivery (`StateCache.DeliveryConverges`).
- A write that changes nothing leaves the marker -1 behind, so that a late event can put an older list back in the
  place of the node's own newer one (`StateCache.NoOpWriteForgets`). After a put that is reported this does not happen
  until the next write or reset (`StateCache.NoStepBack`); `StateCache.AppliedIffNewerThanOwnPut` is the exact
  condition.
- A node may lead without knowing it, if its watch starts after its election or a refused attempt reports late; and
  two nodes may both believe to lead during a vacancy. `LeaderElection.LeaderKnowsItself` is the exact condition.
- An attempt to become the leader that fails with an error is given up. If no other one is under way, the cluster
  stays without a leader until a node is started (`LeaderRecovery.RecoversIffCandidate` is the exact condition), while
  the old one can keep its flag (`LeaderRecovery.FailedAttemptIsFinal`).
- Leadership messages can come out of order, exactly when the manager takes the newer of two that wait
  (`LeadershipManager.MessagesAlternate`).
- On takeover the watcher can hand over a job that the list has covered already, exactly if the watcher is in the
  middle of an older event, and behind with others, when the lister writes `lastJobRevision`: it overwrites the
  revision with its own (`JobRepeats.RepeatsIffBehind`, `JobRepeats.ListedJobCanRepeat`).
- A caller can wait for a job for ever, exactly if its read comes before its watcher is there and the deletion in
  between (`JobAnswers.UnansweredIff`, `JobAnswers.MissedDeletion`).
- A job waiter can be answered by work that ended before its request, exactly if a handler had finished the job and
  not yet deleted its key when the job was added (`JobWait.AnswersAreNewIffNobodyDone`).
- A site folder that is a symbolic link to a folder is accepted, filled, and then deleted as an extraneous file, while
  the site stays healthy and is served by the web server (`AppManager.Manager.LinkedFolderIsLost`).
- A key or certificate that cannot be written leaves its site healthy, with whatever is on disk, and the change
  unreported: `AppManager.Manager.SyncSiteFolder` says exactly when a site loses its health.
- An app whose staging failed half way is taken for staged by the next run: no error is left, and its sites are served
  with what there is (`AppManager.HalfStagedStays`, `SyncRun.Runner.HalfStagedIsServed`).
- A run that changes files and then fails drops its restart, and later runs find nothing to do, so that the web server
  stays behind until something else changes (`SyncRun.UpToDateIffNoFailedChange` is the exact condition).
- With `aliases` and `Aliases` in one patch, the order of the map decides (`SiteTable.OrderDecides`).
- A self-signed certificate for names with a comma is requested again and again.
- An empty key or certificate is stored without complaint and is an error when it is read. A frame whose lengths wrap
  around makes the reader panic, but no wrong frame is ever accepted.
- The name `_default`, which a new site may not have (`state/types.go:42-43`), can be given as an alias by a patch,
  and in no other way (`SiteTable.DefaultNameIsTaken`).
- A header name that is shorter than two bytes in lowercase makes the filter panic.
- The memory of expiry warnings is never reset: after a renewal, thresholds that are not tighter than the last one
  sent stay silent. That is what the exact condition of `CertMonitor.Monitor.CheckImported` says.

## Model

| member | source | states |
|---|---|---|
| `PutIfDifferent.AtMostOnePut` | state/store-etcd.go:611-647 | Whatever other clients do between the two transactions, at most one put is added, `Succeeded` holds exactly when it was, and an exact condition says when the key holds the value at the end |
| `PutIfDifferent.StaysWithoutDelete` | state/store-etcd.go:611-615 | Clients that never delete the key cannot make it disappear between the transactions |
| `PutIfDifferent.StoredUnderInterference` | state/store-etcd.go:611-647 | If nobody deletes the key in between, it holds the requested value at the last transaction |
| `PutIfDifferent.SecondCallIsNoOp` | state/store-etcd.go:611-647 | Repeating the call right away writes nothing |
| `PutIfDifferent.Cluster.CommitIfAbsent` | state/store-etcd.go:616-626 | The first transaction against the shared log |
| `PutIfDifferent.Cluster.CommitIfValueDiffers` | state/store-etcd.go:632-646 | The second transaction, whose comparison is false on a missing key |
| `PutIfDifferent.Cluster.SetIfDifferentCall` | state/store-etcd.go:611-647 | The method equals the specification with arbitrary events in between; a success ends with its own put, and without deletions the key holds the value |
| `StateCache.CommitKeepsInv` | state/store-etcd.go:338-363 | A node that writes keeps the invariant of every node: what a cursor, a remembered revision and a pending reply mean |
| `StateCache.DeliverKeepsInv` | state/store-etcd.go:157-201 | So does a batch of watch events, of which the node skips those that are not newer than its last put |
| `StateCache.RunKeepsInv` | state/store-etcd.go:157-201 | The invariant holds in every reachable state of any number of nodes |
| `StateCache.Convergence` | state/store-etcd.go:157-201 | A node with no write under way, whose last write neither failed nor was overtaken by an event that the watcher applied meanwhile, and that has consumed every event of the state key, caches exactly the latest stored list |
| `StateCache.DeliveryConverges` | state/store-etcd.go:157-201 | One delivery of all pending events brings any idle node to the latest list, also after a failed write, and after one that was overtaken if somebody has stored something since |
| `StateCache.CaughtUpNodesAgree` | state/store-etcd.go:157-201 | Two such nodes have the same list |
| `StateCache.FailedWriteDiverges` | state/store-etcd.go:338-363 | The condition on failed writes is needed: a run in which an idle node that has consumed everything keeps a list that nobody stored |
| `StateCache.OvertakenWriteDiverges` | state/store-etcd.go:173-197 | So is the condition on overtaken writes: the watcher waits a second, applies an older event during a write, and then skips the echo of the node's own put; an idle node that has consumed everything keeps the older list |
| `StateCache.AppliedIffNewerThanOwnPut` | state/store-etcd.go:173-197 | By its own history alone: if the last step that wrote a node's remembered revision reported a put, exactly the newer events replace its cache; otherwise every event does |
| `StateCache.NoStepBack` | state/store-etcd.go:173-197 | From the report of its own put, if that was not overtaken, until its next write or reset, a node's cache comes from that put or from newer revisions that never go down, over every interleaving |
| `StateCache.WriteIsDone` | state/store-etcd.go:338-363 | A write that is reported as done has stored the list it was asked to store, after it was asked, or has found it stored |
| `StateCache.WriterConverges` | state/store-etcd.go:338-363 | A node whose last write was reported without an error, whether it stored something or not, holds the latest list once it is idle and has consumed every event, if its watcher has waited for the write |
| `StateCache.NoOpWriteForgets` | state/store-etcd.go:348-361 | A write that changes nothing loses the remembered revision: a run in which a late event then puts an older list of the node itself back in the place of the newer one |
| `EtcdLock.RunKeepsInv` | state/store-etcd.go:246-324 | Every critical section of every run is recorded with its lease, and sections of one lock are ordered or the earlier one is out of time; replies can be lost, with the put applied or not, and releases can fail |
| `EtcdLock.MutualExclusion` | state/store-etcd.go:246-324 | At most one acquirer is in its section under a live lease, and the lock key is attached to that lease |
| `EtcdLock.LateReleaseIsHarmless` | state/store-etcd.go:293-305 | Releasing at any time takes no lock from another acquirer; after expiry it changes no lock |
| `EtcdLock.SectionsInTimeDoNotOverlap` | state/store-etcd.go:246-324 | A section finished within 20 seconds of its grant is over before any later section of the lock begins |
| `EtcdLock.OverlapNeedsOverrun` | state/store-etcd.go:246-324 | Two sections of a lock overlap only if the later one was entered at least 20 seconds after the grant of the earlier one |
| `EtcdLock.OverrunOverlaps` | state/store-etcd.go:246-305 | A section that overruns its lease is not protected: a run with two acquirers inside |
| `EtcdLock.ReleaseFreesLock` | state/store-etcd.go:293-305 | After a release the lease is gone and no key is attached to it; if it was live, the name is free at once and the next attempt under a live lease enters |
| `EtcdLock.TryEntersIff` | state/store-etcd.go:308-324 | An attempt enters exactly if the key is not there and its own lease is live; otherwise it changes no lock |
| `EtcdLock.LeaseLasts` | state/store-etcd.go:249-256 | The store keeps the lease of an acquirer that has not ended for 20 seconds from its grant, whatever the others do |
| `EtcdLock.TwoInsideNeedOverrun` | state/store-etcd.go:246-324 | Stated on the steps alone: two acquirers are inside at one time only if one of them asked for its lease 20 seconds ago or more |
| `EtcdLock.SectionIsRecorded` | state/store-etcd.go:246-305 | The recorded sections are those of the steps: when an attempt entered and when its acquirer left |
| `EtcdLock.AttemptsAreCounted` | state/store-etcd.go:259-281 | A waiting acquirer with a timeout has tried exactly as often as its counter says |
| `EtcdLock.GivesUpAfterAllTries` | state/store-etcd.go:259-285 | An attempt under a live lease ends the waiting in vain exactly if it is the fortieth and there is a timeout |
| `EtcdLock.LockCanBeFreed` | state/store-etcd.go:246-256 | Whoever holds a lock, after 20 seconds the store can drop it |
| `EtcdLock.OrphanedLock` | state/store-etcd.go:263-266 | A lost reply, or a release that fails, can leave the lock to nobody: a run for each |
| `LeaderElection.HistoryAlternates` | worker/controller-etcd.go:315-357 | The leader key alternates between an election and a vacancy, over elections, expiries and re-elections |
| `LeaderElection.LeaderKnowsItself` | worker/controller-etcd.go:293-394 | While somebody is elected, a caught-up node has `isLeader` exactly if it is the elected one, its watch began before its election, and no step since it processed the election reports a refusal of its startup attempt (both directions) |
| `LeaderElection.AtMostOneLeader` | worker/controller-etcd.go:293-394 | Two caught-up nodes never both lead while somebody is elected |
| `LeaderElection.LateWatchMissesElection` | worker/controller-etcd.go:359-391 | The first condition is needed: the watch starts after the own election, and the node never learns that it leads |
| `LeaderElection.LateRefusalOverrulesElection` | worker/controller-etcd.go:335-338 | The second is needed: a refusal handled late lowers the flag of an elected node |
| `LeaderElection.TwoLeadersDuringVacancy` | worker/controller-etcd.go:364-384 | During a vacancy the promise fails: the old leader keeps its flag, and an unread election can set another |
| `LeaderRecovery.VacantForever` | worker/controller-etcd.go:371-378 | While nobody tries and no watcher has an event to read, a vacant key stays vacant, unless a further node is started |
| `LeaderRecovery.RecoversIffCandidate` | worker/controller-etcd.go:315-394 | A vacant key can be won again without a further node if and only if some attempt is alive or some watcher has an event to read |
| `LeaderRecovery.LeadsAlone` | worker/controller-etcd.go:334-338 | A node that is alone is elected and learns it, also if the reply to its transaction is lost |
| `LeaderRecovery.FailedAttemptIsFinal` | worker/controller-etcd.go:373-378 | That can fail for good: after one failed request the only node has nothing to do any more, and still believes to lead |
| `LeadershipManager.RunKeepsInv` | worker/controller-etcd.go:174-215 | The invariant between the flag, the messages under way and the live contexts holds in every reachable state |
| `LeadershipManager.WorkersFollowTheFlag` | worker/controller-etcd.go:174-215 | At most one worker context is live, and with no message under way it is live exactly when `isLeader` holds |
| `LeadershipManager.CancelledForGood` | worker/controller-etcd.go:174-215 | A context that was cancelled is never live again |
| `LeadershipManager.MessagesAlternate` | worker/controller-etcd.go:296-309 | In every run the messages strictly alternate starting with true exactly as long as the manager never takes the newer of two waiting messages (both directions) |
| `LeadershipManager.TwoSendersCanSwap` | worker/controller-etcd.go:296-309 | That can happen: a run in which both goroutines wait and the first message taken is false |
| `JobTakeover.CreatedAt` | worker/controller-etcd.go:218-290 | The revision that created a key: the only put without the key before it, with nothing but puts after it |
| `JobTakeover.RunKeepsInv` | worker/controller-etcd.go:218-290 | What watcher and lister have given to `receiveJob` is known in every reachable state, in whatever order they write `lastJobRevision` |
| `JobTakeover.NoJobLost` | worker/controller-etcd.go:218-290 | With the watch established no later than the list was read, every job live at the read and every job created and seen later was handed over |
| `JobTakeover.LiveJobsWereHanded` | worker/controller-etcd.go:218-290 | Hence a caught-up leader was handed every job whose key exists |
| `JobTakeover.HandedIffWatched` | worker/controller-etcd.go:239-287 | The condition is exact: a job created after the read is handed over if and only if the watch was there by then |
| `JobTakeover.OnlyCreatedIsHanded` | worker/controller-etcd.go:251-275 | Nothing but jobs whose key was created is given to `receiveJob`: no update, no deletion, no other key |
| `JobRepeats.SkipsForever` | worker/controller-etcd.go:249-269 | Once the watcher can hand over nothing from before the list, it never can again |
| `JobRepeats.RepeatsIffBehind` | worker/controller-etcd.go:249-269 | When the lister writes `lastJobRevision`, a job from before the list can still be handed over by the watcher if and only if the watcher is in the middle of an older event and behind with others |
| `JobRepeats.ListedJobCanRepeat` | worker/controller-etcd.go:249-285 | That happens: a run in which a job of the list can be handed over by the watcher too |
| `JobTerms.ObserveKeepsInv` | worker/controller-etcd.go:239-263 | A watcher of any term, current or earlier, hands its event over or finds that it was handed over before |
| `JobTerms.RunKeepsInv` | worker/controller-etcd.go:218-290 | Over any number of terms no watcher and no value of the shared `lastJobRevision` is ahead of what was handed over |
| `JobTerms.NoJobLostInAnyTerm` | worker/controller-etcd.go:218-290 | No job is lost in any term, although watchers of earlier terms are still at work and write `lastJobRevision` |
| `JobTerms.LiveJobsWereHandedInAnyTerm` | worker/controller-etcd.go:218-290 | Hence in any term a caught-up leader was handed every job whose key exists |
| `JobTerms.OnlyCreatedIsHandedInAnyTerm` | worker/controller-etcd.go:251-275 | In no term anything but created jobs is given to `receiveJob` |
| `JobTerms.TermBeginsAfresh` | worker/controller-etcd.go:219-219 | A term begins as a single takeover does, and the watchers of earlier terms stay as they are |
| `JobTerms.TermIsTakeover` | worker/controller-etcd.go:218-290 | Each term's own steps are those of a single takeover; watchers of earlier terms only hand over more and write `lastJobRevision` |
| `JobTerms.EarlierWatcherHandsOver` | worker/controller-etcd.go:239-263 | That happens: a run in which the watcher of the first term hands over a job after the second has begun |
| `JobWait.RunKeepsInv` | worker/controller-etcd.go:72-158 | Every deletion of a job key in a run follows a success for that ID, and every waiter has seen what its answer says |
| `JobWait.NilMeansDone` | worker/controller-etcd.go:119-158 | A nil answer means that the key was deleted after the waiter's own `AddJob`, and that deletion follows a `ProcessJob` that succeeded for the ID |
| `JobWait.AnswerFromEarlierWork` | worker/controller-etcd.go:72-102 | The condition can fail: a reachable run in which a caller is told "done" by work that ended before its request |
| `JobWait.NilMeansNewWork` | worker/controller-etcd.go:72-158 | If no handler was between finishing the job and deleting its key when it was added, every later nil answer stands for a deletion that follows a success after the `AddJob` |
| `JobWait.OldWorkAnswers` | worker/controller-etcd.go:104-158 | If one was, two more steps tell the caller that the job is done without any new work |
| `JobWait.AnswersAreNewIffNobodyDone` | worker/controller-etcd.go:72-158 | So all answers in all continuations come from work after the request if and only if no handler was at that point when the job was added |
| `JobAnswers.AnsweredIff` | worker/controller-etcd.go:119-158 | A waiter has an answer exactly if its read did not find the key, its watcher saw a deletion, or one of them failed |
| `JobAnswers.PassedDeletionAnswers` | worker/controller-etcd.go:124-143 | A waiter whose watcher has passed a deletion of its key has an answer |
| `JobAnswers.CaughtUpWaiterIsAnswered` | worker/controller-etcd.go:119-158 | With the watcher there before the read, nobody waits in vain: when it has caught up and the key is gone, the caller has its answer |
| `JobAnswers.UnansweredIff` | worker/controller-etcd.go:119-158 | In either order: a caller whose watcher has caught up has no answer if and only if its read found the key and no deletion came after the watcher was there |
| `JobAnswers.MissedDeletion` | worker/controller-etcd.go:122-158 | That can happen, because the watcher is started in a goroutine: a run in which the job is done and its caller waits for ever |
| `SyncQueue.ChannelsAfter` | sync/run.go:47-80 | A channel is full exactly while some call owns it |
| `SyncQueue.OneRunner` | sync/run.go:47-80 | Never more than one call is between taking the semaphore and giving it back |
| `SyncQueue.EveryCallIsCovered` | sync/run.go:47-67 | Every call, also one that returned at once, is followed by a run that starts after it or has a waiter whose run is still to start |
| `SyncQueue.OverHasRunItself` | sync/run.go:47-80 | A call that is over has had exactly one run of its own, begun after the call, unless it is a queued call that returned at once, which has had none; a direct `Run` is never of that kind |
| `SyncQueue.CoalescedHasWaiter` | sync/run.go:49-55 | A queued call returns at once only while another one waits |
| `SyncQueue.BurstIsCoalesced` | sync/run.go:47-80 | A run in which, of three queued calls, one runs, one waits and one has returned at once, while a direct call waits |
| `SyncQueue.NeverStuck` | sync/run.go:47-80 | While a call is not over, some call can take a step |
| `SyncQueue.AdvanceMakesProgress` | sync/run.go:47-80 | Every step leaves less to do |
| `SyncQueue.WorkBounds` | sync/run.go:47-80 | A stretch without new calls is no longer than the work left |
| `SyncQueue.QueueDrains` | sync/run.go:47-80 | Without new calls both channels are empty and every call was served after at most six steps per call |
| `Nginx.DomainOfSiteKey` | webserver/nginx.go:279-280 | The domain of a site's file can be read off its name |
| `Nginx.Templates.DesiredKeys` | webserver/nginx.go:69-123 | The desired files are the three common ones and one for every healthy site |
| `Nginx.Templates.DesiredContent` | webserver/nginx.go:101-120 | With distinct domains the file of a healthy site is that site's rendering |
| `Nginx.Templates.DesiredWithout` | webserver/nginx.go:101-120 | Marking more sites as broken takes exactly their files out of the desired ones |
| `Nginx.Templates.DesiredSame` | webserver/nginx.go:102-107 | Only the errors of the listed sites matter |
| `Nginx.NginxConfig.DesiredConfiguration` | webserver/nginx.go:69-123 | The loop gives the desired files, or an error exactly if something does not render |
| `Nginx.NginxConfig.ExistingConfiguration` | webserver/nginx.go:126-217 | Expected files are read as they are, everything else is removed, and no update is reported only if nothing was removed |
| `Nginx.NginxConfig.ReadOrRemove` | webserver/nginx.go:148-164 | One entry of a scan, whatever its name and kind |
| `Nginx.NginxConfig.ScanRoot` | webserver/nginx.go:131-165 | The scan of the configuration folder keeps `conf.d` and the two expected files, read as they are, and nothing else |
| `Nginx.NginxConfig.ExpectConfFiles` | webserver/nginx.go:167-177 | The files expected in `conf.d` are those of the default site and of the healthy sites |
| `Nginx.NginxConfig.ScanConfD` | webserver/nginx.go:179-214 | The scan of `conf.d` keeps the expected files, read as they are, and nothing else |
| `Nginx.NginxConfig.MarkBroken` | webserver/nginx.go:282-288 | The search for the broken site marks it if it is listed |
| `Nginx.NginxConfig.SyncFile` | webserver/nginx.go:247-295 | One desired file: written if its content differs; a site's file that was written is tested with the folder as it is then, stays if the answer is yes, and otherwise goes away with an error for the site; it fails exactly if an operation fails |
| `Nginx.NginxConfig.SyncFiles` | webserver/nginx.go:245-298 | The loop over the desired files, in any map order and with any answers of the test, with one test for every site's file that was not in place |
| `Nginx.FinishedFolder` | webserver/nginx.go:245-298 | With every file looked at, the folder is the desired one without the files of the broken sites |
| `Nginx.NginxConfig.SyncConfiguration` | webserver/nginx.go:220-299 | It succeeds exactly if everything renders, `conf.d` can be a folder and no operation fails. Then the folder is exactly what the remaining healthy sites ask for; every site's file that was not in place was tested once with its new content, and exactly the sites whose test failed lost their health; no update means that nothing changed; a folder already in sync gives no update |
| `Nginx.NginxConfig.SiteIsVetted` | webserver/nginx.go:271-295 | The same for one site: its file was in place and it stays healthy, or it was tested with its rendering and is healthy exactly if it was accepted |
| `AppManager.Manager.EnsureSiteFolder` | appmanager/appmanager.go:122-137 | A folder is made if the name is free; a link to a folder will do; it fails exactly if something else is in its place or the operation fails |
| `AppManager.Manager.WriteTlsFiles` | appmanager/appmanager.go:540-559 | The key and the certificate on disk are the site's, unless reading or writing a file failed, which is ignored; otherwise no update means that they were before; settled files are never touched |
| `AppManager.Manager.WriteFileIfChanged` | appmanager/appmanager.go:540-559 | One file: an empty one is always written; if it cannot be read or written no update is reported |
| `AppManager.Manager.ActivateApp` | appmanager/appmanager.go:562-568 | The link of the site points to the app and nothing else of the folder changes |
| `AppManager.Manager.SyncSiteFolder` | appmanager/appmanager.go:170-216 | What a healthy site's path leads to is complete afterwards, but for a key or certificate that could not be written, or the site has an error, and that exactly if something is in the place of its folders, there is no certificate, or an operation for it failed; other sites' folders and health stay as they are; settled files are not written again |
| `AppManager.Manager.RemoveExtraneous` | appmanager/appmanager.go:219-247 | Exactly the expected folders stay: an expected link to a folder goes away like everything else |
| `AppManager.Manager.SyncSiteFolders` | appmanager/appmanager.go:140-250 | The folder with the sites holds the default site and the healthy sites and nothing else, each with its own link and certificate (if it could be written), except those that were links before; exactly the blocked sites, and those for which an operation failed, lose their health; no update means that only links changed, if everything could be written; settled folders give no update |
| `AppManager.Manager.HealthOneMore` | appmanager/appmanager.go:163-216 | One more turn of the loop: nobody else's health changes, and the site's own does for these reasons only |
| `AppManager.Manager.FolderThereIffNotLink` | appmanager/appmanager.go:170-247 | After success a healthy site's folder is there if and only if its entry was not a symbolic link to a folder before, and it is complete if everything could be written |
| `AppManager.Manager.LinkedFolderIsLost` | appmanager/appmanager.go:224-246 | At that input: the linked folder of a healthy site is gone, and the site has no error |
| `AppManager.FetchOneMore` | appmanager/appmanager.go:290-303 | A new missing app keeps the queue free of repetitions and complete |
| `AppManager.Manager.QueueMissingApps` | appmanager/appmanager.go:263-311 | Health is reset, and every distinct app that is missing is queued exactly once, while the workers finish queued jobs at any time and in any order |
| `AppManager.ResetKeepsStaging` | appmanager/appmanager.go:269-271 | Resetting the health of the next site loses no error that a worker recorded meanwhile |
| `AppManager.WorkerKeepsStaging` | appmanager/appmanager.go:743-758 | A finished job leaves its app staged completely, or its site with an error and anything in the app's folder; nobody else gets one |
| `AppManager.Manager.WorkersGoOn` | appmanager/appmanager.go:743-758 | Any number of workers' steps, in any order, keep what is known about queue, apps and errors; with all of them nothing is pending |
| `AppManager.Manager.RemoveExtraneousApps` | appmanager/appmanager.go:319-371 | Exactly the folders of expected apps stay |
| `AppManager.Manager.SyncApps` | appmanager/appmanager.go:253-374 | Only wanted apps stay. One that was missing is staged completely or its fetching failed for a site that carries the error; a folder that was there stays as it was, also a half-staged one, and brings no error; anything else in its place goes away. A site has an error afterwards exactly if a job of its own failed |
| `AppManager.StagedIffNotHalfStaged` | appmanager/appmanager.go:286-303 | An app whose fetching did not fail is staged completely if and only if it was missing or staged completely before |
| `AppManager.HalfStagedStays` | appmanager/appmanager.go:647-742 | At that input: what a failed staging has left of an app is still there, half staged, after the next successful run |
| `AppManager.Manager.SyncState` | appmanager/appmanager.go:82-119 | Apps and folders together, whichever sites failed along the way. A site has an error exactly if an operation for it failed, something is in the place of its folders, or there is no certificate for it; without failures the call succeeds; with settled folders and no failing site only the common files can report an update |
| `SyncRun.Runner.Run` | sync/run.go:98-170 | If no operation fails and the sites can be rendered, a run returns without an error. When it does, a healthy site has its folder exactly if that was not a link before, and then also its link and its rendering and, if they could be written, its key and certificate; every wanted app that was missing is staged completely or a site that wants it carries the error, and one that had a folder, half staged or not, has it as before; every file in `conf.d` but the default one is that of a healthy site; a site has an error exactly if an operation for it failed, it is blocked, or the web server rejected its file in a test, and the file of any other site was in place or was accepted; without a restart neither files nor folders changed, apart from links and what could not be written; a second run with nothing failing does not restart; and over all runs the web server has what is on disk if and only if no run since its last restart failed, or could not write a key or certificate, after changing something |
| `SyncRun.Runner.Conclude` | sync/run.go:110-154 | The restarts at the end of a run, and the history they leave |
| `SyncRun.Runner.BecomesExplained` | sync/run.go:120-136 | The reasons of both reconcilers together account for every error of a listed site |
| `SyncRun.UpToDateIffNoFailedChange` | sync/run.go:98-154 | The last clause, for every history of runs in which clean runs that change something restart the web server |
| `SyncRun.Runner.Record` | sync/run.go:110-154 | A run keeps the history true: if the web server is up to date by the history, the files and folders are those of its last restart |
| `SyncRun.Runner.HalfStagedIsServed` | sync/run.go:120-136 | A healthy site whose app was half staged before is served with the app as it was left |
| `SyncRun.Runner.ServedIffNotLink` | sync/run.go:120-136 | The two reconcilers agree: a site that is healthy after both, and whose key and certificate could be written, is served unless its folder was a link |
| `SyncRun.Runner.BecomesQuiet` | sync/run.go:120-136 | A run that succeeds for all sites and writes everything leaves nothing to do, if no folder was a link and no certificate is empty |
| `SyncRun.Runner.QuietSyncs` | sync/run.go:120-136 | Then the next run finds the web server in sync |
| `SyncRun.Runner.SiteOfFile` | sync/run.go:120-136 | Every managed file is the file of a listed healthy site |
| `DomainLists.JoinSplit` | worker/processor.go:42 | Joining what was split gives the text back, always |
| `DomainLists.SplitJoin` | certificates/self-signed.go:83 | A list survives joining and splitting if and only if no name has a comma |
| `DomainLists.SortSorts` | certificates/certificates.go:135-137 | Sorting gives a sorted permutation |
| `Sorting.SortSorts` | certificates/certificates.go:135-137 | The same for any order |
| `DomainLists.SameSortedIffPermutation` | certificates/certificates.go:134-140 | Comparing sorted copies compares the lists as multisets |
| `Secrets.UintPut` | state/state.go:524-527 | Little-endian numbers read back as written |
| `Secrets.DecodeEncode` | state/state.go:500-508 | A frame with non-empty parts decodes to them |
| `Secrets.EncodeDecode` | state/state.go:500-508 | Whatever decodes is the frame of what it decodes to, although the sum of the lengths is computed in 32 bits |
| `Secrets.DecodeIffEncoded` | state/state.go:500-532 | Hence decoding gives a pair exactly for the frame of that pair |
| `Secrets.DecodePanicsIff` | state/state.go:502-507 | The exact frames, with a sum that wrapped around, on which the slicing panics |
| `Secrets.DecodePanicsAt` | state/state.go:500-507 | Sixteen bytes with the lengths 2^32 - 1 and 9 are such a frame, whatever follows |
| `Secrets.OpenSealed` | state/state.go:403-445 | The envelope with the nonce in front opens to the sealed value |
| `Secrets.CertificateRoundTrip` | state/state.go:486-532 | A pair of at most 204800 bytes each comes back exactly if neither part is empty, and as an error otherwise |
| `Secrets.SecretKeysDiffer` | state/state.go:569-582 | Keys of different types never clash; keys of one type clash only for the same name or the same digest |
| `Secrets.SecretKeyValidIff` | state/state.go:569-582 | A request is valid exactly for a certificate that is issued here, or for an imported one by one name that is not empty |
| `SecretStore.Manager.SetSecret` | state/state.go:414-455 | Exactly this secret changes, to the sealed value; it succeeds exactly with a cipher, a nonce, a loaded state and a store that locks and writes |
| `SecretStore.Manager.GetSecret` | state/state.go:383-411 | The opened value, nothing for a missing or short one, an error otherwise |
| `SecretStore.Manager.DeleteSecret` | state/state.go:458-483 | Exactly this secret goes away, if the state is loaded and the store locks and writes |
| `SecretStore.Manager.SetCertificate` | state/state.go:513-542 | When it is refused and why, which secret changes to which bytes, and when it succeeds |
| `SecretStore.Manager.GetCertificate` | state/state.go:486-510 | The answer for the secret of the type and names |
| `SecretStore.Manager.RemoveCertificate` | state/state.go:545-553 | Exactly the certificate's secret goes away |
| `SecretStore.Manager.ListImportedCertificates` | state/state.go:556-566 | Exactly the names of imported certificates, each once, in any map order |
| `SecretStore.SetThenGet` | state/state.go:486-582 | What any request for any certificate gets after another one was stored: the stored pair for the same secret, and what it got before otherwise |
| `SecretStore.ListedIffImported` | state/state.go:556-582 | A stored certificate is listed under a name exactly if it was imported under it |
| `Certificates.InspectAccepts` | certificates/certificates.go:118-144 | Accepted if and only if valid since before now and for twelve hours more, and, for issued certificates, made for the site's names as a multiset |
| `Certificates.SameNamesIffCommaFree` | certificates/certificates.go:134-140 | The names a job issues for are the site's if and only if none has a comma |
| `Certificates.FreshCertificateAccepted` | certificates/self-signed.go:72-103 | What a site's job issues is accepted from three seconds to 8748 hours later, if and only if no name has a comma |
| `SelfSigned.JobsSharedIffKeysShared` | utils/jobs.go:34-43 | Two requests share a job ID exactly when they look up the same secret, for both kinds of jobs; the two kinds never share one |
| `SelfSigned.OtherJobsNotShared` | utils/jobs.go:34-43 | Jobs of other kinds are never shared |
| `SelfSigned.JobStoresWhereLookedUp` | worker/processor.go:40-66 | The job's secret key is the requester's, for every list of names |
| `SelfSigned.Node.GenerateTLSCert` | certificates/self-signed.go:109-167 | The validity window in whole seconds and the names of a new certificate, never for an empty list |
| `SelfSigned.Node.ProcessJob` | worker/processor.go:29-80 | It succeeds exactly for a known kind with nothing failing on the way; then the certificate is stored under the key of its type, for ACME the self-signed one is gone, and no other certificate changed, even on failure |
| `SelfSigned.Node.RequestJob` | certificates/self-signed.go:79-103 | The site's own job is asked for, also if that fails, and after an answer without an error the requester finds its certificate |
| `SelfSigned.Node.GetSelfSignedCertificate` | certificates/self-signed.go:42-104 | What is found at first decides: a job is asked for exactly if there is no certificate or inspection refuses it, and otherwise the answer is that pair, an error or a panic; a returned pair is the stored one and passes inspection; without commas one job is asked for, and it fails or the call returns its certificate; with a comma no number of jobs is enough |
| `SelfSigned.Node.LookUp` | certificates/self-signed.go:50-77 | The look-up and the inspection, for whatever is stored |
| `SelfSigned.Node.DeliveredSettles` | certificates/self-signed.go:72-103 | After an answered request no further one is needed if and only if no name has a comma |
| `SiteTable.LookupIsUnambiguous` | state/state.go:171-180 | In a table without shared names a name resolves to a site exactly if the site has it |
| `SiteTable.AliasesAreFree` | api/routes/site.go:428-450 | Accepted aliases are the strings of the list, and each was free or of the same domain |
| `SiteTable.PatchFieldsIsPatch` | api/routes/site.go:310-453 | A patch keeps domain, app and kind of the site, and its aliases are old ones or checked ones |
| `SiteTable.CreatedResolves` | api/routes/site.go:87-98 | A created site resolves under its names, every other name as before |
| `SiteTable.ReplacedResolves` | state/state.go:212-255 | The domain identifies the site to update, and only its names change hands |
| `SiteTable.PatchedResolves` | api/routes/site.go:262-468 | After a patch the site resolves under its new names, its dropped names are free, and every other name resolves as before |
| `SiteTable.DeployedResolves` | api/routes/deploy.go:29-76 | Deploying changes no name |
| `SiteTable.RemovedResolves` | state/state.go:258-289 | Removing with the last site moved into the gap takes away exactly one site; its names are free and every other name resolves as before |
| `SiteTable.StepKeepsDisjoint` | api/routes/site.go:37-468 | Every request keeps the sites' names apart |
| `SiteTable.RunKeepsDisjoint` | api/routes/site.go:37-468 | So does every sequence of requests, with any of them failing to be saved |
| `SiteTable.InterleavedCreates` | api/routes/site.go:87-161 | The requests must be atomic: two that are both accepted against the same table, whatever they ask for, leave the names apart if and only if the two sites have none in common |
| `SiteTable.InterleavedCreatesCollide` | api/routes/site.go:87-161 | In particular two accepted requests for the same domain collide |
| `SiteTable.DefaultNameIsTaken` | api/routes/site.go:410-451 | A request that is carried out on a table without the reserved name brings it in if and only if it is a patch whose last field about aliases lists it |
| `SiteTable.AliasAfterPatch` | api/routes/site.go:410-451 | The aliases after a patch are exactly those that its last field about aliases lists, or those from before |
| `SiteTable.CreatedWithoutDefault` | state/types.go:42-43 | A new site never has the reserved name, also not a generated one |
| `SiteTable.DefaultNameComesFromPatch` | api/routes/site.go:37-468 | Over every sequence of requests the reserved name comes from such a patch |
| `SiteTable.NeighboursCommute` | api/routes/site.go:310-453 | Swapping neighbouring fields of a patch with different names leaves the result as it is, or both are refused |
| `SiteTable.PatchOrderIrrelevant` | api/routes/site.go:310-453 | Any two orders of fields with distinct names in lowercase give the same site, or are both refused |
| `SiteTable.SameNameOrder` | api/routes/site.go:310-453 | Two fields with the same name in lowercase can be visited in either order if and only if one is refused, or one sets nothing, or both set the same |
| `SiteTable.OrderDecides` | api/routes/site.go:410-451 | At an input: an empty list and a free name, under `aliases` and `Aliases`, give two different sites |
| `SiteApi.Manager.GetSite` | state/state.go:171-180 | The loop finds the first site with the name |
| `SiteApi.Manager.AddSite` | state/state.go:183-209 | Appends the site, or changes nothing; it succeeds exactly if the store is healthy, locks and writes, and then the store has it |
| `SiteApi.Manager.UpdateSite` | state/state.go:212-255 | Replaces the first site of the domain, or reports that there is none |
| `SiteApi.Manager.DeleteSite` | state/state.go:258-299 | Removes the first site with the name, or reports that there is none |
| `SiteApi.Api.CreateTlsOf` | api/routes/site.go:100-154 | The settings are accepted if and only if they fit the request: of the type asked for, issued ones without certificate and version, others naming a certificate that exists, never an empty version; and which refusal it is otherwise |
| `SiteTable.CreateTlsFits` | api/routes/site.go:100-154 | The same of the function that the specification uses |
| `SiteTable.CreatedIff` | api/routes/site.go:37-167 | A request for a site gets exactly a site with the domain it asks for, its aliases, app and fitting settings, none of whose names is reserved or taken |
| `SiteTable.PatchTlsFits` | api/routes/site.go:314-402 | The tls object of a patch sets exactly settings that fit it: of the type asked for, never ACME for a temporary site, a certificate that exists under its type, a version for the key vault only; and which refusal it is otherwise |
| `SiteTable.AliasesAcceptedIff` | api/routes/site.go:424-450 | A list of aliases is accepted exactly if all its elements are texts that no other site has |
| `SiteTable.PatchAcceptedIff` | api/routes/site.go:308-453 | A patch is accepted exactly if each of its fields is acceptable for the site |
| `SiteTable.PatchDoes` | api/routes/site.go:308-453 | After a patch the site has settings that fit its last tls object and the aliases that its last field about aliases lists, in order, and everything else as before; it is saved exactly if such an object or list is there |
| `SiteApi.Api.CreateSiteHandler` | api/routes/site.go:37-167 | The status and the table after the request, for every request; success exactly if the manager could lock and save, and then the store has the new table |
| `SiteApi.Api.CollectAliases` | api/routes/site.go:424-450 | The loop over the aliases stops at the first bad one with its status |
| `SiteApi.Api.PatchLoop` | api/routes/site.go:308-453 | The loop over the fields equals the specification, in the order given; it succeeds exactly if every field is acceptable, and then the site is patched as the fields ask for |
| `SiteApi.Api.PatchTlsOf` | api/routes/site.go:320-402 | The settings for a tls object, accepted exactly if they fit it, and the status of each refusal |
| `SiteApi.Api.PatchOne` | api/routes/site.go:312-452 | One field of the patch |
| `SiteApi.Api.PatchSiteHandler` | api/routes/site.go:262-468 | The status and the table after the request, for every request; success exactly if the manager could lock and save, and then the store has the new table, and then the site is patched as the fields ask for |
| `SiteApi.Api.DeploySiteHandler` | api/routes/deploy.go:29-76 | The status and the table after the request, for every request; success exactly if the manager could lock and save, and then the store has the new table |
| `SiteApi.Api.DeleteSiteHandler` | api/routes/site.go:216-259 | The status and the table after the request, for every request; success exactly if the manager could lock and save, and then the store has the new table |
| `Escape.EscapeConfigString` | webserver/nginx.go:615-631 | The loop gives the escaped text |
| `Escape.ReadEscaped` | webserver/nginx.go:615-631 | nginx reads the escaped text up to its own closing quote and no further |
| `Escape.EscapeRoundTrip` | webserver/nginx.go:615-631 | For every text, undoing the quoting and expanding `${dollar}` gives the text back, whatever follows it |
| `Escape.EscapeIsInjective` | webserver/nginx.go:615-631 | Different texts have different escaped forms |
| `Escape.HeaderPanicsIff` | utils/headers.go:24-30 | The exact names on which the check of the first two bytes panics |
| `Escape.HeaderAllowedIff` | utils/headers.go:24-51 | Exactly the headers are allowed that begin with an x and a dash or are in the list, in any spelling |
| `Escape.CleanHeaders` | webserver/nginx.go:570-582 | The loop, in any order and for any filter: it fails exactly on a name that panics, and otherwise has every allowed header |
| `Escape.SanitizeHeaders` | webserver/nginx.go:570-582 | The same for the filter of the program |
| `Escape.NoHeaderLost` | webserver/nginx.go:570-582 | Every allowed header is there under its own name with its own value, as nginx reads them |
| `Escape.AsManyAsAllowed` | webserver/nginx.go:570-582 | There are as many clean headers as allowed ones: none is merged with another |
| `WorkerPool.KeepsPlaces` | statuscheck/statuscheck.go:166-260 | Every step moves a site from one place to another and duplicates none |
| `WorkerPool.RunKeepsInv` | statuscheck/statuscheck.go:166-260 | For every schedule each visited site is in exactly one place: result, results channel, jobs channel, or a worker |
| `WorkerPool.ResultIsComplete` | statuscheck/statuscheck.go:224-250 | The final result has exactly one entry per site, nothing is left behind, and an error is reported exactly if a worker found one |
| `WorkerPool.EntriesAreReported` | statuscheck/statuscheck.go:202-242 | Every entry of the result says what the worker that had the job reported about its site, or what the main loop knew |
| `WorkerPool.EveryScheduleSameOrder` | statuscheck/statuscheck.go:245-248 | With distinct domains the order of the result is the same for every schedule of the workers |
| `WorkerPool.SendNeverBlocks` | appmanager/appmanager.go:254-261 | A worker never waits for room for its result |
| `WorkerPool.NeverStuck` | statuscheck/statuscheck.go:166-260 | As long as the main loop or a worker is not done, something can happen |
| `WorkerPool.FullChannelDrains` | statuscheck/statuscheck.go:202-212 | While the main loop waits for room in the jobs channel, a worker can go on |
| `WorkerPool.StepWorks` | statuscheck/statuscheck.go:166-260 | Every step leaves less to do |
| `WorkerPool.RunEnds` | appmanager/appmanager.go:253-317 | A run over n sites has at most 4n + 5 steps |
| `StatusCheck.SameMessage` | statuscheck/statuscheck.go:229 | For one domain the messages differ exactly if the errors do |
| `StatusCheck.ResultReader.ReadResult` | statuscheck/statuscheck.go:226-240 | One result is notified exactly if its error differs from what the last check of the domain found |
| `StatusCheck.ResultReader.ReadResults` | statuscheck/statuscheck.go:224-242 | The loop sends exactly the news, in order, adds every result to the cache, and reports an error exactly if there was one |
| `StatusCheck.RepeatedNewsNeedsChange` | statuscheck/statuscheck.go:234-240 | Between two notifications with the same text the domain answered or failed in another way |
| `CertMonitor.AtMostNine` | worker/cert-monitor.go:139-199 | A domain is notified at most nine times while the worker lives |
| `CertMonitor.TightestIsNearest` | worker/cert-monitor.go:56-56 | The tightest threshold passed is the one with the fewest days: fewer days are left than it says, and not fewer than the next tighter one says |
| `CertMonitor.FirstWarning` | worker/cert-monitor.go:56-56 | Some threshold is passed exactly if fewer than thirty days are left |
| `CertMonitor.WarningsTighten` | worker/cert-monitor.go:139-199 | Every notification for a domain says fewer days than the ones before |
| `CertMonitor.SentIsLeast` | worker/cert-monitor.go:139-143 | The remembered index is the tightest one notified |
| `CertMonitor.Monitor.FindDue` | worker/cert-monitor.go:177-200 | The loop over the thresholds stops at the tightest one passed, if it is tighter than the remembered one |
| `CertMonitor.Monitor.CheckImported` | worker/cert-monitor.go:139-200 | One notification at most, for the tightest threshold passed, and exactly if it is tighter than all sent before; the indices sent for a domain strictly decrease |
| `CertMonitor.Monitor.CheckSite` | worker/cert-monitor.go:145-236 | The job that one site needs is run, and no other; the call fails exactly if that fails; every threshold passed by an imported certificate was notified |
| `CertMonitor.NoJobNotExpiring` | worker/cert-monitor.go:147-209 | An issued certificate for which no job is due is not about to expire by the inspection at the next daily pass, nor for twelve days more |
| `CertMonitor.NoJobMargin` | worker/cert-monitor.go:150 | The exact margin: thirteen and a half days for self-signed certificates, twenty and a half for those from ACME |
| `CertMonitor.NoJobAfterIssue` | worker/cert-monitor.go:150 | With the certificate that a job issues no job is due until two weeks before its end |
| `CertMonitor.TemporaryIsReplaced` | worker/cert-monitor.go:201-212 | A certificate that is not about to expire is renewed exactly if it is a self-signed one of a site that wants ACME |
| `CertMonitor.JobRenewsOwnCertificate` | worker/cert-monitor.go:147-228 | A job stores its certificate under the key where the site looks it up, by type and names |
| `CertMonitor.Monitor.Pass` | worker/cert-monitor.go:90-245 | One pass: it succeeds exactly if no certificate is broken and no job fails; the jobs run are those of the sites visited, in order; after success every certificate that needs it is renewed, every passed threshold was notified, and a sync is queued exactly if something was renewed |

## Left out

- StateCache.Convergence: does not cover the re-reads of the auxiliary watchers (`state/store-etcd.go:204-243`), which replace the cache without looking at revisions.
- SyncRun.Runner.Run: assumes distinct domains and that `_default` has no error, and does not say that the app of a served site is staged, because an app that several sites share and that fails is an error of the first of them only.
- Nginx.ConfigFolder.EnsureConfD: a `conf.d` that is a symbolic link counts as a file here, which is an error; the code fails too, but only after removing the link.
- AppManager.Manager.RemoveExtraneous: removals are assumed to succeed, here and among the apps, as the code ignores their errors (`appmanager/appmanager.go:233-245`).
- AppManager.Manager.StageApp: staging is one step that succeeds or fails, so that folders that are renamed on the way are not seen, and the manifests that are loaded after staging are not kept; with an app that several sites share, the code keeps one index only (`appmanager/appmanager.go:307`).
- AppManager.Manager.SyncApps: assumes distinct domains; with a domain listed twice, the second visit would erase the error of a job that has already failed.
- AppManager.Manager.SyncCommonFiles: the default app, the miscellaneous files and the Diffie-Hellman parameters are a call that succeeds or fails.
- SelfSigned.Node.GetSelfSignedCertificate: has a bound on the rounds where the program has none, so that the case with a comma can be stated; an ACME job that removes the certificate between the answer and the look-up is not part of the request.
- SelfSigned.Node.GenerateACMECertificate: issuing through ACME gives arbitrary bytes or an error.
- JobWait.NilMeansDone: says nothing about how many messages a waiter is sent, nor that a waiter for a failed job is ever answered, because the code does not promise it.
- JobTerms.NoJobLostInAnyTerm: a watcher of an earlier term may take any later event here, more than the rest of its last batch, which it may in the program; that it stops is not part of the model.
- WorkerPool.RunEnds: `SyncApps` may return early when a path cannot be examined (`appmanager/appmanager.go:286-289`), and then its idle workers wait forever; the pool here always closes its jobs.
- Revisions are numbered from 1, with the empty store at 0; etcd starts elsewhere, and nothing depends on it.
- A put with a dead lease is an error that changes nothing.
- Lost updates between nodes: the cache is not read again under the lock, so no claim is made.
- Propagation of deleted secrets: their keys are never deleted in etcd (`state/store-etcd.go:513-531`).
- Serialization of the state into several keys, node health and cluster health, and the file-based store.
- Replacing the whole state, which may bring in sites that share names.
- The age of the cached health results and the requests to the apps (`statuscheck/statuscheck.go:47-163`).
- The validation of cache times and proxy URLs in manifests (`webserver/nginx.go:562-591`).
- nginx beyond double-quoted texts and the variable `$dollar`, which the model expands in header names and values alike; only lowercase forms that are ASCII letters matter to the header filter, so other letters keep their case.
- HTTP routing, authentication, webhooks, logging, configuration, Azure, S3 and Key Vault clients, archives and bundles.

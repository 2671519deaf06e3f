# Tarian: verified protocols

Tarian guards Kubernetes pods. Agents in the pods and on the nodes compare files and processes with
constraints kept by a server; events travel through the server's queues to a store, to Alertmanager
and to an action handler that may delete pods; a webhook injects the pod agent. This project models
the protocols between these parts and proves what every run of them keeps. Check it with
`dafny verify dfyconfig.toml`.

## What is modelled

| file | subject |
|---|---|
| `Model`, `Events` | the messages; `[]` and `""` also stand for absent protobuf fields |
| `Seqs`, `Strings` | sequence helpers; the functions of Go's `strings` package in use, with their laws |
| `ConfigServer` | the constraint RPCs over a store whose calls may fail |
| `FileRegistration` | the registration protocol as a state machine; the meaning of validation |
| `RegistrationProofs`, `RegistrationResults` | what passes from a fresh snapshot keep; convergence |
| `StalePasses` | what is left of a file's constraints from any snapshot and with any failures |
| `ChecksumBound` | one checksum per file over every run, and exactly how it breaks |
| `SeveralAgents` | agents running at once, and when their names keep out of each other's way |
| `PodAgent`, `RegisterMode` | the agent's loops, tied to that state machine, and registering and validating put together |
| `PodWatcher`, `Cgroup` | the container-ID index against a scan; the ID found in a cgroup file |
| `EventPipeline`, `PipelineProofs`, `EventDelivery`, `Ingestion` | queues, goroutines, store and alert dispatcher over every interleaving; that events are stored and posted about; the objects behind the steps |
| `ActionHandler` | queued events against a cluster whose pods come and go |
| `NodeAgent` | process validation, process registration, local against remote filtering |
| `Injector`, `AgentCommand`, `PodLabels` | what the webhook writes, and what the agent's command line and lists make of it |
| `InjectedAgent` | an injected agent from its arguments to its first pass |
| `RuleDedup` | deduplication that writes into the slice being read |

How the model is set up:

- What changes state in the program is a class here (`ConstraintStore`, `Server`, `PodAgent`,
  `NodeAgent`, `ChannelQueue`, `EventServer`, `EventStore`, `ConsumeLoop`, `AlertDispatcher`,
  `KubeClient`, `ActionHandler`, `LabelMap`), each method with the loop of the original. A method's contract
  equates the new state with a function of the old one; the lemmas are about these functions and
  about the state machines whose steps they are.
- Whether a database or API call fails is decided by an arbitrary function from call numbers,
  `down: nat -> bool`; a failing call changes nothing. Posting alerts and updating marks fail by step
  in the same way. Clocks and UUIDs are inputs. SHA-256 (in texts of 64 characters without a dash), glob
  matching, directory walks, durations and regular expressions are arbitrary functions.
- One RPC is one step, and so is one Get-and-Delete pair of the action handler. Between steps every
  other party may act. Within one pass the pod agent's own syncs may act too: reading a file, beginning
  the deletion with the snapshot of that moment, every removal, and the addition, which registers the
  checksum read before, are steps of their own.
- `a.IsSubset(b)` of the set library says that `b` lies in `a`, as
  `test/e2e/podagent_sync_constraints_test.go:30-50` confirms.

Where the code does less than it seems to promise, the code is modelled as it is, with the exact
condition under which the promise holds:

- A replaced checksum disappears only if the deletion reaches it. The loop ends at the first removal that
  errors - also at a listed constraint that is already gone, which the server answers with an error -,
  and the agent adds the new checksum all the same. `VisitLeavesOneExactly` and
  `OneChecksumExactlyIfListed` give the exact condition; `UnsyncedPassLeavesTwo`,
  `GoneConstraintStopsDeletion` and `FailedRemovalLeavesTwo` are inputs that leave two.
- A file that a pass visits twice, below overlapping roots, and that changes in between, can keep both
  checksums (`RewrittenFileLeavesTwo`); `OneChecksumPerFile` and `OvertakenLeavesTwoExactly` say when.
- `deduplicateRules` starts its result afresh for every rule, so at most the last rule survives
  (`CompleteExactly`, `NewRuleIsLost`).
- The server leaves out constraints without a selector when labels are requested, the node agent
  applies them (`FiltersAgreeExactly`).
- Labels are compared as `key=value` texts, which confuses labels exactly if one key followed by `=` begins
  the other (`KeysShareTexts`, `TextsCompareLabelsExactly`); labels as Kubernetes admits them are safe
  (`KubernetesLabelsAreTold`).
- An alert is posted about the first target that has a pod only, so a mark says that every pod was
  posted about exactly if there is no other (`EveryPodAlertedExactly`); an event without such a target
  is marked as sent without a post (`PodlessEventIsMarked`).
- Process registrations are named in units of 3.6 milliseconds, and the second of one pod within such a
  unit is refused (`SecondRegistration`).
- The index answers a query of fewer than 15 characters only for a container of precisely that ID
  (`FindPodAgreesWithScan`).
- The webhook hands the ignore list to agents in threat-scan mode too, whose command has no such flag and
  refuses to start; the same happens for an interval that is no duration (`AgentStartsExactly`,
  `ThreatScanRefusesIgnorePaths`).
- An empty list is joined to an empty text, which is split into one empty item (`ListRoundTrip`,
  `MountPathsArrive`, `IgnorePathsArrive`). For the paths to register that item is a root which does not
  exist, and the agent crashes at it (`StartRegistering`, `NoMountsCrash`).
- Constraints of two pods can share a name only if one pod is named like the other with a dash and ten
  digits of a file's hash (`AutoReservedExactly`, `RegistrationReservedExactly`).

## Model

| member | source | states |
|---|---|---|
| RegistrationResults.RegistrationConverges | pkg/podagent/podagent.go:437-599 | Whatever happened before - failed calls, stale passes, other clients -, after a pass from a synced snapshot over any list of files, interleaved with syncs, writes to other files and other clients, the next synced snapshot accepts a listed file that kept its checksum if it had to be registered or some constraint with a rule for its checksum was not removed; and only then, unless another client added such a rule. |
| RegistrationResults.LastReadingDecides | pkg/podagent/podagent.go:468-532 | From any snapshot, after any history with writes to the file itself, failed calls and removals: a file that is about to be read, and keeps its checksum from then on, is accepted after the pass and a sync - if it has to be registered, always, where the ten digits of stored checksums tell; otherwise if a matching rule for its checksum that is stored then is not removed, and only then unless others add one. |
| RegistrationResults.AcceptedExactly | pkg/podagent/podagent.go:437-546 | The convergence of one file over any orderly run of a pass from its beginning on. |
| RegistrationResults.CarriersFollowed | pkg/podagent/podagent.go:482-532 | A constraint with the rule that makes registering a file unnecessary leaves the store only by a call of another client that names it, and enters it only by one that adds it: the agent touches none. |
| RegistrationResults.UnneededAcceptedExactly | pkg/podagent/podagent.go:482-532 | So a file that need not be registered is accepted in the end if a matching rule for it was kept, and only then unless others add one. |
| RegistrationResults.RunKeepsUnderway | pkg/podagent/podagent.go:482-532 | From the last reading on, the constraint of a file that must be registered is stored or still going to be stored. |
| SeveralAgents.AgentsConverge | pkg/podagent/podagent.go:437-599 | With any number of agents at one server, in whatever phases and with whatever snapshots, a file that an agent is about to read, must register and that keeps its checksum is accepted after its pass and a sync, if the agents' names are apart. |
| SeveralAgents.JointIsOrderly | pkg/podagent/podagent.go:437-599 | A run of several agents at once is, for one of them, a run in which the calls of the others are calls of other clients. |
| SeveralAgents.OtherAgentIsOrderly | pkg/podagent/podagent.go:558-599 | Each single call of an agent whose names are apart is one that the results about a file of another agent admit. |
| SeveralAgents.AutoReservedExactly | pkg/podagent/podagent.go:490-502 | The constraint one agent registers bears a name reserved for a file of another in its namespace if and only if the pods have one name and the ten digits agree, or the pod is named like the other one with a dash and the ten digits of the file, or goes on from there. |
| SeveralAgents.ApartExactly | pkg/podagent/podagent.go:490-502 | Two files of two agents share no name if and only if the namespaces differ, or neither pod is named like that and the names or digits differ. |
| SeveralAgents.RegistrationReservedExactly | pkg/nodeagent/nodeagent.go:595-600 | The constraint the node agent registers for a process bears a reserved name if and only if its pod is in the namespace and named like that. |
| SeveralAgents.OwnPodIsNotReserved | pkg/nodeagent/nodeagent.go:595-600 | In particular, it never takes a reserved name for a process of the agent's own pod. |
| RegisterMode.RegisterThenValidate | pkg/podagent/podagent.go:240-546 | The agent's own methods in sequence: after sync, register and sync, validation reports no file below the roots that no ignore pattern matches, for any roots, patterns, manual constraints and old registrations - unless a root does not exist, and exactly then the pass crashes. Even then every unignored file below the roots before, of which no constraint of the pod gave a checksum, is stored: under pod name and ten digits of path and content, with the pod's labels and the one rule. |
| RegisterMode.UnlistedIsStored | pkg/podagent/podagent.go:514-532 | An undisturbed pass from a synced snapshot stores exactly that constraint of a visited file without a rule that gives a checksum. |
| RegisterMode.UndisturbedPassConverges | pkg/podagent/podagent.go:437-546 | The same for a pass without interleaving, over any keyed and well-named store, with any number of old constraints per file. |
| ChecksumBound.OneChecksumPerFile | pkg/podagent/podagent.go:456-532 | In every run with working database calls whose passes begin from a fresh snapshot - with syncs, additions under other names, removals of anything and writes to files at any time - at most one constraint is named after each file at every moment, provided no file that the pass has read and will visit again gets a checksum of other first ten digits. |
| ChecksumBound.BoundUnlessOvertaken | pkg/podagent/podagent.go:482-532 | In every such run, with any writes, the bound holds unless a deletion is overtaken: it begins with a constraint stored of another checksum, of a file that was not registered when the pass began or that the snapshot of that moment does not list. |
| ChecksumBound.OvertakenLeavesTwoExactly | pkg/podagent/podagent.go:482-532 | A deletion and addition, undisturbed from its beginning on, leaves more than one constraint of its file if and only if it is overtaken. |
| ChecksumBound.StepKeepsBound | pkg/podagent/podagent.go:437-599 | Every step other than the beginning of an overtaken deletion keeps the bound, and what is stored of the file being registered stays removable. |
| ChecksumBound.StepKeepsInStep | pkg/podagent/podagent.go:437-599 | Every step other than such a rewriting keeps each file still to be visited from being overtaken. |
| ChecksumBound.RewrittenFileLeavesTwo | pkg/podagent/podagent.go:456-532 | A run: a file below two roots whose content changes between its two visits ends with two checksums, from a fresh snapshot and with a working database. |
| RegistrationResults.PassMeaning | pkg/podagent/podagent.go:456-546 | After an undisturbed pass from a fresh snapshot a file's constraints are exactly the one with its present checksum if it was visited and not registered with that checksum, and otherwise what they were - however many were stored, and whatever the order and repetition of files. |
| StalePasses.ReplaceMeaning | pkg/podagent/podagent.go:490-532 | Replacing a file's constraints from any snapshot and with any failing calls: those listed before the first removal that errors go, the rest stays in order, and the new one joins unless its name is taken or the database fails. |
| StalePasses.VisitMeaning | pkg/podagent/podagent.go:481-532 | The same for one visit, which replaces only what it needs to. |
| StalePasses.RemoveNamesMeaning | pkg/podagent/podagent.go:586-599 | The deletion loop takes out exactly the names before the first that is not stored, was removed already, or whose database call fails, and makes the stated number of calls. |
| StalePasses.VisitLeavesOneExactly | pkg/podagent/podagent.go:481-532 | For every keyed store, every snapshot and any failures: after a visit exactly one constraint of the file is left if and only if - where it must be registered and the addition works - every stored one bears the new name or is listed before the first removal that errors; where the addition fails, if exactly one is beyond those; where nothing is needed, if one was stored. |
| StalePasses.PassLeavesOneExactly | pkg/podagent/podagent.go:456-546 | The same for a whole pass over any list of files: the store at the last visit of a file decides about it. |
| StalePasses.OneChecksumExactlyIfListed | pkg/podagent/podagent.go:456-546 | With a working database, for every keyed store, snapshot and list of files, stated about the store before the pass: one checksum of a visited file that must be registered is left if and only if every stored one bears the new name or is listed before the first name that is not found; a second visit finds the new name. |
| StalePasses.UnlistedStays | pkg/podagent/podagent.go:586-599 | From a snapshot that lists nothing under a file's name prefix, any pass over any store, whatever fails, leaves all of the file's constraints and at most adds the new one, once. |
| StalePasses.UnsyncedPassLeavesTwo | pkg/podagent/podagent.go:586-599 | An input: two passes of one agent without a sync between, with a working database, end with the checksums of both. |
| StalePasses.GoneConstraintStopsDeletion | pkg/podagent/podagent.go:593-595 | An input: a listed constraint that is already gone ends the deletion, so a stored one that is listed after it stays beside the new one. |
| StalePasses.FailedRemovalLeavesTwo | pkg/podagent/podagent.go:494-502 | An input: a removal that fails on the database leaves both checksums. |
| RegistrationResults.DoneIsAccepted | pkg/podagent/podagent.go:482-532 | The next synced snapshot lists of a file dealt with exactly the constraints the pass aimed at, and accepts it if it had to be registered. |
| RegistrationResults.PassTracksFiles | pkg/podagent/podagent.go:456-546 | Throughout a pass a listed file is still to be visited, being replaced, or done: none is skipped. |
| RegistrationResults.FinishIsRun | pkg/podagent/podagent.go:437-546 | Running the agent alone to the end of its pass is one of the runs of the state machine and deals with every listed file. |
| RegistrationProofs.NamesKeptByRun | pkg/podagent/podagent.go:548-599 | Over every run, with any failures and stale snapshots, names stay unique and a constraint named after a file by this agent carries exactly that file's rule and the pod's labels. |
| RegistrationProofs.StepKeepsInv | pkg/podagent/podagent.go:437-599 | Every step of a pass that leaves a file its checksum keeps its invariant: its stored constraints are those at the start, the part still to be deleted, or the goal. |
| RegistrationProofs.RunKeepsInv | pkg/podagent/podagent.go:437-599 | So does every orderly run. |
| RegistrationProofs.SyncKeepsOwn | pkg/server/config_server.go:66-90 | The label filter of a sync loses none of the constraints named after the agent's files. |
| RegistrationProofs.AddOwn | pkg/podagent/podagent.go:558-577 | Adding a file's constraint leaves exactly it for that file - also when the server rejects the duplicate name - and touches no other file. |
| RegistrationProofs.RemoveOwn | pkg/podagent/podagent.go:586-599 | Removing under a file's name prefix touches the constraints of that file only. |
| RegistrationProofs.RemoveListed | pkg/podagent/podagent.go:586-599 | On the first visit each removal succeeds and takes the next of the file's constraints. |
| RegistrationProofs.RemoveRevisited | pkg/podagent/podagent.go:586-599 | On later visits, as overlapping roots cause, a removal takes at most the constraint added before and may answer an error. |
| FileRegistration.ViolationMeaning | pkg/podagent/podagent.go:297-362 | A file is reported if and only if some rule gives a checksum of it and no rule gives that of its present content - of empty content, if it cannot be read. |
| FileRegistration.ViolationRecord | pkg/podagent/podagent.go:344-350 | A report gives the present checksum and, as the expected one, that of the last rule with a checksum. |
| FileRegistration.ViolationsIgnoreOrder | pkg/podagent/podagent.go:297-362 | Which files are reported does not depend on the order or repetition of constraints. |
| FileRegistration.ValidationIsMonotone | pkg/podagent/podagent.go:297-362 | More constraints never turn an accepted file into a reported one. |
| FileRegistration.OwnersAreUnique | pkg/podagent/podagent.go:490-502 | Without a clash of the ten digits, a constraint is named after at most one file. |
| PodAgent.PodAgent.SyncConstraints | pkg/podagent/podagent.go:240-255 | The snapshot becomes what the server answers for the agent's namespace and labels. |
| PodAgent.PodAgent.ValidateFileChecksums | pkg/podagent/podagent.go:297-362 | The two maps filled in loops and subtracted are exactly the specified violations, with expected and actual checksums. |
| PodAgent.PodAgent.CheckRules | pkg/podagent/podagent.go:314-354 | The inner loop keeps both maps right for the rules seen so far. |
| PodAgent.PodAgent.RegisterFileChecksums | pkg/podagent/podagent.go:437-546 | The pass leaves the store as the state machine does when it runs to the end over the visited files, which `VisitedPlaces` tells; it crashes if and only if a root does not exist, having visited the roots before. |
| PodAgent.VisitedPlaces | pkg/podagent/podagent.go:456-466 | The files a pass visits, by position: root after root up to the first missing one, below each in walking order, exactly those that no ignore pattern matches. |
| PodAgent.VisitedMembers | pkg/podagent/podagent.go:456-466 | A file is visited if and only if it stands below a root that exists, as do those before it, and no ignore pattern matches it. |
| PodAgent.PodAgent.RegisterBelow | pkg/podagent/podagent.go:457-535 | The walk below one existing root does the state machine's steps for its files that are not ignored, in walking order. |
| PodAgent.PodAgent.VisitFile | pkg/podagent/podagent.go:481-532 | One file: nothing, add, or delete by prefix and add, as the registered checksum decides. |
| PodAgent.PodAgent.RegisteredSums | pkg/podagent/podagent.go:438-454 | The map holds for each name the checksum of its last usable rule. |
| FileRegistration.LastRuleWins | pkg/podagent/podagent.go:438-454 | What stands registered of a file is the checksum of the last rule that gives one, constraint after constraint. |
| FileRegistration.NeedsExactly | pkg/podagent/podagent.go:482-520 | A file is left alone if and only if the last rule that gives its checksum gives the present one. |
| PodAgent.PodAgent.IsIgnored | pkg/podagent/podagent.go:462-466 | True if and only if some ignore pattern matches. |
| PodAgent.PodAgent.DeleteConstraintByNamePrefix | pkg/podagent/podagent.go:586-599 | Removes in snapshot order what the prefix selects, up to the first error. |
| PodAgent.PodAgent.CreateConstraintWithFileRule | pkg/podagent/podagent.go:558-577 | Adds the constraint with the pod's labels and the one rule, and passes on the reply. |
| PodAgent.VisitIsFinish | pkg/podagent/podagent.go:481-532 | The small steps of the state machine for one file amount to one visit. |
| PodAgent.ChosenIsReplaced | pkg/podagent/podagent.go:490-532 | The small steps from the beginning of the deletion on amount to replacing. |
| PodAgent.RegisteringIsDeleteRun | pkg/podagent/podagent.go:586-599 | The deletion steps, one RPC each, amount to the deletion loop. |
| ConfigServer.Server.GetConstraints | pkg/server/config_server.go:49-99 | The reply is one filter over the stored constraints by namespace and labels, in order; nothing if the database fails. |
| ConfigServer.GetMeaning | pkg/server/config_server.go:49-90 | The reply in terms of labels: in order, the constraints of the namespace - of all, if none is named - whose selector is not empty and has only labels with the `key=value` text of a requested one, or all if no labels are requested; nothing if the database fails. |
| ConfigServer.Server.AddConstraint | pkg/server/config_server.go:110-140 | New store and reply for every case: incomplete request, failing check, taken name, failing write, success. |
| ConfigServer.AdditionMeaning | pkg/server/config_server.go:110-140 | An addition succeeds if and only if namespace and name are given, no constraint has both and the database works; each error has its exact condition; and only success changes the store, by the constraint at its end. |
| ConfigServer.Server.RemoveConstraint | pkg/server/config_server.go:151-173 | New store and reply for every case: incomplete request, failing check, unknown name, failing write, success. |
| ConfigServer.FilterByLabels | pkg/server/config_server.go:66-90 | Keeps, in order, the constraints whose selector lies in the requested labels; all of them without requested labels. |
| ConfigServer.LabelSet | pkg/server/config_server.go:69-82 | Collects the `key=value` texts. |
| ConfigServer.FilterInTwoPasses | pkg/server/config_server.go:58-90 | Filtering by namespace in the store and by labels in the server is one filter. |
| ConfigServer.EveryRunKeepsKeyed | pkg/server/config_server.go:110-173 | Over every sequence of calls, with any failures, names are complete and pairs of namespace and name unique. |
| ConfigServer.RemovedIsGone | pkg/server/config_server.go:151-173 | After any run a removal succeeds if and only if namespace and name are given, a constraint has both and the database works, and leaves exactly the constraints of other names; each error has its exact condition and leaves the store as it was. |
| ConfigServer.RemoveFirstIsExact | pkg/server/config_server.go:166-172 | In a keyed store, removal takes out exactly the constraint of that name. |
| ConfigServer.AddedIsFound | pkg/server/config_server.go:110-140 | After an addition, the next working Get whose namespace and labels fit returns the old matches and behind them the new constraint. |
| ConfigServer.UnremovedStays | pkg/server/config_server.go:151-173 | Over every sequence of calls a stored constraint stays as long as no call removes its name. |
| ConfigServer.RemoveUndoesAdd | pkg/server/config_server.go:133-172 | Removing what was just added gives back the store as it was. |
| PodWatcher.ContainerIndexFunc | pkg/nodeagent/enrich_kubernetes.go:40-82 | The keys of a pod are those of its containers of all three kinds, or an error; `IndexableExactly` and `IndexKeysMeaning` tell which. |
| PodWatcher.AppendContainerIDs | pkg/nodeagent/enrich_kubernetes.go:42-57 | The closure's loop extends the captured slice by the keys of one list, stopping at a malformed ID. |
| PodWatcher.IndexableExactly | pkg/nodeagent/enrich_kubernetes.go:42-57 | A pod can be indexed if and only if each container ID is empty - not started yet - or falls into two parts at `//`. |
| PodWatcher.IndexKeysMeaning | pkg/nodeagent/enrich_kubernetes.go:42-105 | The keys are, in order, the second parts of the non-empty IDs, cut to 15 characters. |
| PodWatcher.IndexKeysMembers | pkg/nodeagent/enrich_kubernetes.go:93-105 | A pod with such IDs is filed under a key if and only if the second part of some non-empty ID, cut, is the key. |
| PodWatcher.FiledMeaning | pkg/nodeagent/enrich_kubernetes.go:40-105 | A pod filed under a query's key matches the query if and only if it runs it - by prefix for long queries, under the full ID for short ones - whatever containers it has beside that have not started. |
| PodWatcher.ScanMeaning | pkg/nodeagent/enrich_kubernetes.go:187-216 | A scan answers if and only if a listed pod runs the query, and answers such a pod. |
| PodWatcher.FindPodAgreesWithStore | pkg/nodeagent/enrich_kubernetes.go:165-233 | Every answer is a stored pod that runs the query; from 15 characters on there is one if and only if some stored pod runs it, below if and only if one has it as full ID. |
| PodWatcher.FindPodAgreesWithScan | pkg/nodeagent/enrich_kubernetes.go:165-216 | Index and full scan answer alike if and only if the query is long, or a pod has it as full ID, or none runs it. |
| PodWatcher.ShortQueryIsMissed | pkg/nodeagent/enrich_kubernetes.go:165-177 | Inputs: beside a container not started yet, a short beginning of a container ID finds its pod in a scan and not by the index. |
| Cgroup.OffsetIsPosition | pkg/nodeagent/enrich_container.go:81-93 | Slicing the directory at the returned offset gives the returned ID, the longest tail without `:` and `-`. |
| Cgroup.LookupMeaning | pkg/nodeagent/enrich_container.go:102-114 | A line's ID is its longest tail without `/`, `:` and `-`, cut to 31 characters, or nothing if that is shorter. |
| Cgroup.FirstContainerIDMeaning | pkg/nodeagent/enrich_container.go:58-69 | The search stops at the first line that has `pod`, `docker` or `libpod` in it and carries an ID. |
| Cgroup.LineIDIsPart | pkg/nodeagent/enrich_container.go:102-114 | The ID of a line is 31 consecutive characters of the file without separators. |
| Cgroup.SearchMeaning | pkg/nodeagent/enrich_container.go:57-70 | The result is empty if and only if no line with one of the three words carries an ID; otherwise it is such a piece of the file. |
| Cgroup.LastDirectoryIsFound | pkg/nodeagent/enrich_container.go:57-70 | Of a line that ends, behind a text with `pod` in it and a slash, with a container ID, the ID's first 31 characters are found. |
| Cgroup.KubepodsLine | pkg/nodeagent/enrich_container.go:57-70 | An input: the line of a container of a Kubernetes pod. |
| Cgroup.AgentLookupsAreComplete | pkg/nodeagent/nodeagent.go:233-248 | With the ID from any cgroup file, the pod lookup answers if and only if some stored pod runs a container whose ID starts with it. |
| PipelineProofs.NothingLostOrReordered | pkg/server/ingestion_worker.go:45-78 | In every interleaving and for both queues: processed, held and buffered events, in order, are the accepted ones up to the stamps; buffers keep their bounds; detections travel alone. |
| PipelineProofs.EveryRunHolds | pkg/server/ingestion_worker.go:40-78 | All pipeline invariants hold after every run from the start. |
| EventDelivery.ProcessedIsStored | pkg/server/ingestion_worker.go:69-78 | In every run an event of either lane that a worker processes while the store works is stored from then on, under its new UID and timestamp, with type, targets and client timestamp as they were; one that it processes while the store fails never is. |
| EventDelivery.IngestedIsStored | pkg/server/event_server.go:50-73 | From RPC to store in every interleaving: as long as the store works, the stored events of a kind, in the order of storing, followed by what its lane holds, are the ingested events of that kind, one by one. |
| PipelineProofs.StepKeepsInv | pkg/server/ingestion_worker.go:45-78 | Every step of any goroutine keeps them. |
| PipelineProofs.MoveKeepsContents | pkg/server/ingestion_worker.go:48-67 | Moving an event along changes nothing about a lane's contents except the stamps. |
| PipelineProofs.LaneNeverStuck | pkg/server/ingestion_worker.go:45-67 | While a lane holds an unprocessed event some goroutine can move, whatever the buffers hold. |
| PipelineProofs.EveryScheduleDrains | pkg/server/ingestion_worker.go:45-78 | Without new events every schedule ends after the same number of moves, with all events processed in order of acceptance. |
| PipelineProofs.StoredWasPublished | pkg/server/ingestion_worker.go:69-78 | A stored event has the content of an event accepted for its own queue. |
| PipelineProofs.AlertsAccounted | pkg/server/alert_dispatcher.go:76-155 | In every interleaving, for a stored violation or Falco alert with a pod among its targets: successful posts equal failed mark updates plus one if it is marked; without a pod there is no post; other types are neither posted nor marked. |
| EventDelivery.RoundLeavesNoneUnsent | pkg/server/alert_dispatcher.go:76-94 | Among whatever steps of the others: after a fetch, and once what was fetched has been handled without failures, every violation and Falco alert stored before the fetch is marked as sent, and has been posted about if some target has a pod. |
| EventDelivery.FetchedIsPosted | pkg/server/alert_dispatcher.go:82-93 | In every run, a fetched violation or Falco alert is posted about the first pod among its targets, if any, and marked, unless the post or the update fails; a failed post leaves store and posts as they were. |
| EventDelivery.FailedPostIsFetchedAgain | pkg/server/alert_dispatcher.go:76-93 | Whatever else happens until then, the next fetch after a failed post yields the event again. |
| PipelineProofs.AlertedPodMeaning | pkg/server/alert_dispatcher.go:111-152 | The pod alerted about is that of the first target that has one. |
| PipelineProofs.EveryPodAlertedExactly | pkg/server/alert_dispatcher.go:111-155 | In every interleaving, every pod among the targets of a violation or Falco alert marked as sent has been posted about if and only if they are all the same one. |
| PipelineProofs.PodlessEventIsMarked | pkg/server/alert_dispatcher.go:82-93 | A run: a violation without a pod goes through the pipeline and is marked as sent with no post made. |
| PipelineProofs.PostsAreJustified | pkg/server/alert_dispatcher.go:82-152 | Every post goes back to an accepted violation or Falco alert and names the first pod among its targets. |
| PipelineProofs.HandleKeepsAccounts | pkg/server/alert_dispatcher.go:82-93 | Handling an unsent event keeps the account of every stored event. |
| PipelineProofs.FetchedMeaning | pkg/server/dgraphstore/dgraph_event_store.go:338-365 | In whatever order the query answers, a fetch yields exactly the stored, unmarked events other than detections, each once. |
| Ingestion.ChannelQueue.Publish | pkg/protoqueue/channel.go:26-31 | The message joins the end unless 1000 are waiting. |
| Ingestion.ChannelQueue.NextMessage | pkg/protoqueue/channel.go:41-44 | The oldest message leaves. |
| Ingestion.EventServer.IngestEvent | pkg/server/event_server.go:50-73 | An accepted event joins exactly one queue, the detection queue exactly for detections; a missing event is an error and changes nothing. |
| Ingestion.ConsumeLoop.ReceiveStep | pkg/server/ingestion_worker.go:51-56 | The forwarder's receive is the state machine's step, possible exactly when that is. |
| Ingestion.ConsumeLoop.ForwardStep | pkg/server/ingestion_worker.go:58-58 | So is its send into the channel, possible unless 1000 events are waiting there. |
| Ingestion.ConsumeLoop.TakeStep | pkg/server/ingestion_worker.go:64-64 | So is the worker's receive. |
| Ingestion.ConsumeLoop.ProcessEvent | pkg/server/ingestion_worker.go:69-78 | The worker's processing is the state machine's step, of which `ProcessedIsStored` says what is stored; it goes on whether or not the store fails. |
| Ingestion.AlertDispatcher.SendAlerts | pkg/server/alert_dispatcher.go:76-94 | One round leaves store, posts and failed updates as handling the fetched events, in the order fetched, does. |
| Ingestion.AlertDispatcher.HandleEvent | pkg/server/alert_dispatcher.go:82-93 | One fetched event is handled as the state machine has it, of which `FetchedIsPosted` says what is posted and marked. |
| Ingestion.AlertDispatcher.SendAlert | pkg/server/alert_dispatcher.go:111-155 | Posts about the first target with a pod and reports that post's error; without such a target there is no error. |
| Ingestion.RoundIsRun | pkg/server/alert_dispatcher.go:77-94 | A round of the dispatcher is a run of the state machine. |
| ActionHandler.ProcessMeaning | pkg/clusteragent/action_handler.go:87-128 | Without API errors the pods left are exactly those that are not older than the event, or that no target names with a fulfilled trigger - violated processes, violated files, or a Falco alert whose priority number is no larger - of a delete-pod action on their namespace whose selector is among the labels reported. |
| ActionHandler.OneActionDeletesExactly | pkg/clusteragent/action_handler.go:101-228 | One event about one older pod, one delete-pod action on its namespace without a selector: the pod goes if and only if one of the three triggers is fulfilled. |
| ActionHandler.EveryDeletionIsRecorded | pkg/clusteragent/action_handler.go:183-228 | With whatever API errors, processing an event records exactly one deletion for each pod that goes, and none else. |
| ActionHandler.OrderDoesNotMatter | pkg/clusteragent/action_handler.go:93-127 | The outcome depends on the sets of targets and actions only. |
| ActionHandler.TryActionsMeaning | pkg/clusteragent/action_handler.go:101-125 | The same for one target, over the inner loop. |
| ActionHandler.EveryDeletionIsJustified | pkg/clusteragent/action_handler.go:75-228 | In every run, each deletion has a queued event, one of its targets, and a delete-pod action with fulfilled trigger, equal namespace and a selector within the event's pod labels; the deleted pod was older than the event. |
| ActionHandler.NewIncarnationSurvives | pkg/clusteragent/action_handler.go:132-155 | A pod outlives every run whose events are stamped at or before its creation, however actions, events and other pods change. |
| ActionHandler.DeletionStep | pkg/clusteragent/action_handler.go:183-228 | A deletion takes out one pod, by an action that is current at that moment; every other step of the handler leaves all pods alone. |
| ActionHandler.StepKeepsInv | pkg/clusteragent/action_handler.go:75-128 | Every step keeps the justification of all deletions. |
| ActionHandler.ActionHandler.ProcessActions | pkg/clusteragent/action_handler.go:87-128 | The nested loops leave the cluster as the specification says; targets without pod are skipped, and the deletions are reported one by one. |
| ActionHandler.ActionHandler.ProcessTarget | pkg/clusteragent/action_handler.go:100-126 | The same for one target. |
| ActionHandler.ActionHandler.ConsiderAction | pkg/clusteragent/action_handler.go:102-228 | One action for one target: triggers, match, timestamp guard and deletion, with the API calls they make; `ProcessMeaning` says which pods go. |
| ActionHandler.ActionHandler.IsFulfilled | pkg/clusteragent/action_handler.go:102-116 | True if and only if the target has violated processes, violated files, or a Falco alert with a priority number no larger than the action's, and the action asks for that. |
| ActionHandler.ActionHandler.RunAction | pkg/clusteragent/action_handler.go:183-228 | Deletes the pod for a delete-pod action and reports it, unless the call fails. |
| ActionHandler.ActionHandler.IsEventTimestampRecent | pkg/clusteragent/action_handler.go:132-155 | True if and only if there is a client, the lookup succeeds and the event is strictly younger than the pod. |
| ActionHandler.ActionHandler.SetActions | pkg/clusteragent/action_handler.go:286-291 | The current actions are replaced. |
| NodeAgent.ProcessRegistrationConverges | pkg/nodeagent/nodeagent.go:585-632 | Once an accepted registration has been synced - with any calls of other clients in between that do not remove it - the same event is no violation if and only if its command, as a regular expression, matches itself or another constraint allows it. |
| NodeAgent.RegisteringSettlesExactly | pkg/nodeagent/nodeagent.go:381-420 | The decision about the same event then turns from registering to fine under exactly that condition, and otherwise stays. |
| NodeAgent.SecondRegistration | pkg/nodeagent/nodeagent.go:595-607 | Of two violations of one pod the second registration is refused if and only if it falls into the same 3.6 milliseconds as the first, for then both bear the same name. |
| NodeAgent.DecisionMeaning | pkg/nodeagent/nodeagent.go:381-420 | Each decision has its exact condition: ignored before the first sync, without an annotation, or if it may not register; otherwise fine if it is no violation, and registered if a rule of the annotation, trimmed, is `processes` or `all`. |
| NodeAgent.DecisionIsMonotone | pkg/nodeagent/nodeagent.go:381-420 | More constraints leave a decision as it is or turn it to fine. |
| NodeAgent.RegistrationSelects | pkg/nodeagent/nodeagent.go:592-603 | The registered selector fits the pod, with the template hash among the labels and without, and never contains it. |
| NodeAgent.ValidationIsMonotone | pkg/nodeagent/nodeagent.go:454-503 | More constraints never turn an allowed process into a violation. |
| NodeAgent.FiltersAgreeExactly | pkg/nodeagent/nodeagent.go:513-533 | For a labelled pod the server's filter and the agent's own give the same constraints in the same order if and only if every constraint of the namespace has a selector. |
| NodeAgent.UnselectiveConstraintDiffers | pkg/nodeagent/nodeagent.go:518-520 | An input: a constraint without a selector is left out by the server and applied by the agent. |
| NodeAgent.TextsCompareLabels | pkg/nodeagent/nodeagent.go:522-532 | Comparing `key=value` texts is comparing labels, if no key of the selector clashes with one of the pod. |
| NodeAgent.TextsCompareLabelsExactly | pkg/nodeagent/nodeagent.go:522-532 | For two sets of keys: texts decide about all selectors and labels with these keys, whatever the values, if and only if no key of the one clashes with a key of the other. |
| NodeAgent.KeysShareTexts | pkg/nodeagent/nodeagent.go:522-530 | Two different keys can give the same text if and only if they clash: one followed by `=` begins the other. |
| NodeAgent.TextsDecideExactly | pkg/nodeagent/nodeagent.go:522-532 | Given the labels of a pod: texts decide about every selector if and only if the labels contain every label that shares a text with one of them. |
| NodeAgent.KubernetesLabelsAreTold | pkg/nodeagent/nodeagent.go:522-532 | If no label of a pod has `=` in key or value, as in Kubernetes, texts decide about every selector, also one with `=` in its keys. |
| NodeAgent.TextDeterminesLabel | pkg/server/config_server.go:69-82 | Without `=` in keys a text determines its label. |
| NodeAgent.EqualsSignConfuses | pkg/server/config_server.go:69-82 | An input: two labels that share a text, and a selector that is taken to select the other label. |
| NodeAgent.NodeAgent.SyncConstraints | pkg/nodeagent/nodeagent.go:167-182 | The agent asks for the constraints of all namespaces, unfiltered. |
| NodeAgent.NodeAgent.ValidateProcess | pkg/nodeagent/nodeagent.go:454-503 | A violation if and only if the event is from a pod and no non-empty rule of a constraint in its namespace, with a selector among its labels, compiles and matches the command. |
| NodeAgent.ViolationMeaning | pkg/nodeagent/nodeagent.go:454-533 | The same of the specification that the results about process registration use. |
| NodeAgent.NodeAgent.HandleExecEvent | pkg/nodeagent/nodeagent.go:381-420 | The decision to ignore, accept, register or report, for every combination of annotations and settings. |
| NodeAgent.NodeAgent.MatchLabelsFromPodLabels | pkg/nodeagent/nodeagent.go:622-632 | Whatever order Go visits the map in, each label appears exactly once. |
| NodeAgent.NodeAgent.RegisterViolationsAsNewConstraint | pkg/nodeagent/nodeagent.go:585-613 | Deletes the template hash from the shared label map, and adds a constraint with the command as rule and the remaining labels as selector, named after pod and time. |
| PodLabels.ReadLabels | cmd/tarian-pod-agent/cmd/util.go:13-44 | The scanner loop yields these labels; a file without a line with `=` is an error. |
| PodLabels.LinesMeaning | cmd/tarian-pod-agent/cmd/util.go:25-38 | The labels are, in order, those of the lines with `=`: the key is what stands before the first one, the value what stands behind it, without outer quotes. |
| PodLabels.LineRoundTrip | cmd/tarian-pod-agent/cmd/util.go:25-38 | A printed label is read back if and only if its key has no `=` and its value no outer quotes. |
| PodLabels.LabelFileRoundTrip | cmd/tarian-pod-agent/cmd/util.go:25-38 | A printed label file is read back, in order, if and only if that holds for every label. |
| PodLabels.DropTemplateHash | cmd/tarian-pod-agent/cmd/register.go:77-87 | The loop removes the first template hash, and nothing else. |
| PodLabels.HashIsDropped | cmd/tarian-pod-agent/cmd/register.go:77-87 | No template hash is left and the other labels stay in order if and only if there was at most one. |
| PodLabels.ParseList | cmd/tarian-pod-agent/cmd/register.go:121-133 | The loop splits at commas and trims every piece. |
| PodLabels.ListRoundTrip | cmd/tarian-pod-agent/cmd/register.go:121-133 | Splitting and trimming undoes joining if and only if the list is not empty and no item has a comma or outer spaces. |
| Injector.Handle | pkg/clusteragent/webhookserver/podagent_injector.go:58-198 | Which pods are let through and what is added to the others, as specified. |
| Injector.InjectionMeaning | pkg/clusteragent/webhookserver/podagent_injector.go:76-187 | A pod is patched if and only if an annotation asks for it and no container has the agent's name; the patch keeps every container and volume and adds one of each at the end, the container with the configured name and image, the pod-info mount, and the pod's mounts. |
| Injector.SettingsArrive | pkg/clusteragent/webhookserver/podagent_injector.go:104-118 | Any agent that starts has the command its annotation asks for, and reads the configured host and port, and pod name, namespace, UID and label file, each under its own flag. |
| Injector.CollectMounts | pkg/clusteragent/webhookserver/podagent_injector.go:89-102 | The nested loops yield the pod-info mount and then the deduplicated mounts of all containers. |
| Injector.AllMountsMeaning | pkg/clusteragent/webhookserver/podagent_injector.go:92-102 | The mounts of every container count, in order. |
| Injector.UnseenMeaning | pkg/clusteragent/webhookserver/podagent_injector.go:92-102 | These are, in order, exactly the mounts at whose position a volume name occurs for the first time. |
| Injector.CollectPaths | pkg/clusteragent/webhookserver/podagent_injector.go:129-145 | The mount paths other than pod info and service account, and two link patterns for each. |
| Injector.MountPathsMeaning | pkg/clusteragent/webhookserver/podagent_injector.go:129-145 | The paths to register are, in order, those of the mounts other than pod info and service account. |
| Injector.LinkPatternsMeaning | pkg/clusteragent/webhookserver/podagent_injector.go:142-144 | Each path has its two link patterns, in order. |
| Injector.AgentStartsExactly | cmd/tarian-pod-agent/cmd/threat_scan.go:43-58 | An injected agent gets past its command line if and only if the log encoding is one it knows, it registers or the pod has no ignore annotation, and the interval annotation is absent or a duration; and what it then reads are exactly the flags written. |
| Injector.FlagsAcceptedExactly | cmd/tarian-pod-agent/cmd/register.go:49-59 | The command accepts all flags of the webhook under just these conditions on the annotations. |
| Injector.ThreatScanRefusesIgnorePaths | pkg/clusteragent/webhookserver/podagent_injector.go:104-152 | An input: a pod to be scanned that has ignore paths gets an agent that refuses its arguments. |
| AgentCommand.PrintedLineIsParsed | cmd/tarian-pod-agent/cmd/root.go:41-66 | A printed command line is read back, the last value of each flag holding, if and only if the command accepts every flag and the log format is known. |
| AgentCommand.PrintedAreParsed | cmd/tarian-pod-agent/cmd/register.go:49-59 | Printed flags are read back if and only if the command defines them all and their values can be used. |
| Injector.BuildArgs | pkg/clusteragent/webhookserver/podagent_injector.go:104-156 | The arguments are the printed flags of the specification, around the command. |
| Injector.ArgumentsArrive | pkg/clusteragent/webhookserver/podagent_injector.go:109-156 | A registering agent that starts reads the joined mount paths, the joined ignore list, the rules and the label file from its arguments; no other argument is taken for them. |
| Injector.MountPathsArrive | pkg/clusteragent/webhookserver/podagent_injector.go:129-147 | The paths a registering agent that starts visits are the collected ones if and only if there is one and none has a comma or outer spaces. |
| Injector.IgnorePathsArrive | pkg/clusteragent/webhookserver/podagent_injector.go:120-152 | The ignore list of a registering agent that starts is the user's patterns, trimmed, then two patterns per mount path, in order, if and only if there is a pattern at all and no path has a comma or a leading space. |
| InjectedAgent.StartRegistering | cmd/tarian-pod-agent/cmd/register.go:64-150 | From its arguments to its first pass, an agent injected with the register annotation is refused, fails over its labels, crashes or registers, each under an exact condition on pod, label file and existing paths; in the last two cases the store is what a pass over the webhook's paths makes of it, in all others what it was. |
| InjectedAgent.RunRegisterCommand | cmd/tarian-pod-agent/cmd/register.go:64-133 | The command fails if and only if a label file is named and has no label; otherwise names, labels, paths and ignore patterns are set from the flags, and registration is on exactly if a rule asks for it. |
| InjectedAgent.EnablesFiles | cmd/tarian-pod-agent/cmd/register.go:109-119 | The loop finds out whether some rule, trimmed, is `files` or `all`. |
| InjectedAgent.RootMissingExactly | pkg/podagent/podagent.go:456-460 | The roots an agent is handed miss one if and only if the webhook collected no path or a piece of one does not exist. |
| InjectedAgent.NoMountsCrash | pkg/podagent/podagent.go:456-460 | An input: a pod without mounts, for which the agent walks the empty root and crashes. |
| Injector.SecondInjectionDoesNothing | pkg/clusteragent/webhookserver/podagent_injector.go:83-87 | A pod that has been patched is let through as it is. |
| RuleDedup.DeduplicateInPlace | cmd/tarianctl/cmd/add/constraints.go:320-346 | Writing into the array being read never disturbs what is still to be read; the result is the last rule, unless it is known. |
| RuleDedup.DeduplicateRules | cmd/tarianctl/cmd/add/constraints.go:320-376 | The same for process rules and for file rules, each compared with the rules of its kind. |
| RuleDedup.Find | cmd/tarianctl/cmd/add/constraints.go:326-339 | True if and only if some constraint has the rule. |
| RuleDedup.SurvivorsMeaning | cmd/tarianctl/cmd/add/constraints.go:320-376 | What is returned of either kind is the last rule, if and only if no constraint has it. |
| RuleDedup.CompleteExactly | cmd/tarianctl/cmd/add/constraints.go:322-346 | All new rules are returned if and only if none but the last is new. |
| RuleDedup.NewRuleIsLost | cmd/tarianctl/cmd/add/constraints.go:322-346 | An input: of two new rules the first is lost, beside a constraint that has neither. |
| Strings.JoinOfSplit | cmd/tarian-pod-agent/cmd/register.go:121-133 | Joining what was split gives back the text, and no piece contains the separator. |
| Strings.SplitUndoesJoin | pkg/clusteragent/webhookserver/podagent_injector.go:147-151 | Splitting undoes joining if and only if the list is not empty and no item contains the separator. |
| Strings.PiecesOfJoined | cmd/tarian-pod-agent/cmd/register.go:121-125 | The pieces of joined texts are the pieces of the texts, and of no text one empty piece. |
| Strings.TrimSpaceMeaning | cmd/tarian-pod-agent/cmd/register.go:121-133 | What is left of a trimmed text is its part from the first to the last character that is no space. |

## Left out

- RegistrationConverges: from the final sync on, database calls are taken to work, the file in question
  to keep its checksum, and others to remove nothing that is named after it; the history before is
  arbitrary. For a file that changes during the pass, `LastReadingDecides` says what decides.
- LastReadingDecides: takes no stored constraint of the file to bear the name of its checksum, of which
  ten digits show, for another one.
- OneChecksumPerFile: takes database calls to work and passes to begin from a fresh snapshot; for other
  passes `VisitLeavesOneExactly` and `PassLeavesOneExactly` say what they leave.
- NamesKeptByRun: like all results about runs of the registration protocol, it takes other clients not to
  add constraints under the names that begin with this pod's name and a file's ten digits;
  `AutoReservedExactly` and `RegistrationReservedExactly` say when the other agents do not.
- Two files whose path hashes share their first ten digits: their constraints would be taken for one
  another; no two of the paths in play clash here. The pod agent's namespace is taken to be set.
- Interleaving inside one RPC (the name check and the write of an addition are not locked together) and
  between the action handler's Get and Delete.
- ProcessActions: the state machine runs it step by step among other parties, the method undisturbed.
- AlertsAccounted: UUIDs are taken not to repeat, and one dispatcher runs; an update that reports an
  error is taken not to have marked the event.
- FindPodAgreesWithStore: a pod with a malformed container ID, neither empty nor in two parts, makes the
  index function fail and is excluded; of the indexer only the promise of `ByIndex` is used.
- HandleExecEvent: returns the decision; the goroutine that registers or reports is not started here.
- RegisterFileChecksums: a walk is a list of files, or nothing for a root that does not exist. A file that
  cannot be read has the checksum of empty content, as in the code.
- ArgumentsArrive: the expansion of `$(VAR)` in arguments by Kubernetes is not modelled.
- ParseCommandLine: reads flags in the one form in which the webhook writes them, `--name=value`; other
  forms are refused.
- StartRegistering: the sync loop that runs beside the first pass is left out; the empty path is taken not
  to exist.
- Duplicate mount paths in the injector are kept, as in the code, where the set meant to detect them is
  never filled.
- The action RPCs of the configuration server: they repeat the constraint RPCs.
- gRPC, HTTP, NATS, Alertmanager and Kubernetes clients, eBPF, TLS, timeouts and sleeps; the cluster
  agent as a proxy.
- Dgraph queries and JSON conversion: the event and constraint stores are modelled by their
  interface, and nothing is claimed about detection data surviving a round trip through the database.
- The Falco sidekick listener, which mostly repeats the node agent's matching.
- The texts of alert labels, the `kind` field, environment variables of the injected container, and the
  reporting of violated files.
- The rest of the command line tools, among them collecting event targets by pod name and reading file
  rules from flags.
- What becomes of a pod between its deletion and its end: at most one deletion per pod is not claimed.

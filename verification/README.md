# Verified model of chainplane

chainplane runs blockchain nodes: adapters render the container command, the configuration and the health check of each
client, `chainsmoke` starts every rendered pod on a docker host and judges the outcome, and `versioncheck` moves pinned
image tags to newer releases. This project models the parts of it whose behaviour is hardest to see from one function and
proves what they promise, for every input, every run and every interleaving.

- **Cosmos start script.** The two embedded awk programs are modelled line by line. `TomlSet` is `tset`. `TomlMerge` is
  the meaning of `tmerge`, `TomlProgram` its two passes as loops with the arrays `ov`, `order` and `done`; `TomlMeaning`,
  `TomlKeeps` and `TomlStability` say what a merged file assigns, what it keeps, and when merging again changes nothing;
  `TomlText` says in terms of the text which lines are entries, of which key, and so what both programs do
  (`TomlLines`, `TomlReading`, `TomlSteps` and `TomlReplay` hold what they are built on). `CosmosBootstrap` is the
  first-start protocol as a machine over the data volume that can be cut off at any step; `BerachainBootstrap` and
  `BlastBootstrap` are the two smaller protocols.
- **Concurrent smoke runner.** `ImageSet` is the reference-counted image set: the object, and a transition system of jobs,
  lock and host images; `ImageSetSteps` is its invariant and `ImageSetRuns` what all its runs keep. `WorkerPool` is
  `forEach` under every interleaving.
- **Pod to docker.** `Mounts` (the stateful mount planner) and `RunPlans` build the plan; `RunPlanPod` and `MountMeaning`
  say which containers and mounts it holds and what it notes; `RunPlanMounts`, `RunPlanFiles`, `RunPlanHost`,
  `RunPlanStart` and `RunPlanContents` prove that it can be carried out on a docker host, how a start that meets failures
  ends, that nothing is left behind, and that no container is lost. `Expansion` and `Environment` are
  `$(VAR)` expansion against a token grammar; `ShellQuote` reads quoted commands back with a POSIX shell lexer.
- **Version updater.** `Versions` and `ImageTable` choose and apply updates; `VersionsFile`, `VersionsLines` and
  `VersionsRoundTrip` are the generated table and the line reader that must undo each other; `TagCache` is the concurrent
  check with its fetch-once cache.
- **Verdicts and health.** `LogVerdict` and `Identity` judge a run; `StageSync`, `TronSync` and `RpcRetry` aggregate sync
  progress and retry calls; `Overrides` and `Level0` resolve image overrides and share inspections between rows.

Loops and objects of the program are methods and classes here, each proved equal to a function of its input or old state;
the theorems are lemmas about those functions. Concurrency and crashes are state machines whose runs are sequences of
states.

## Where the code falls short of its documentation

Each of these is stated as an exact condition. The last lemma named is a failing input, unless the condition names it
already.

- `tmerge` runs on every container start and is meant to leave the file alone after the first time. It does so exactly when
  every override line starts with a bare key and no table of the override file is split. With a split table, which valid
  TOML does not have, the second merge may still change the file, and no later one does. With any other line in the
  override file, a quoted key for one, the file grows at every restart without bound (`StableIff`, `TablesOnceContiguous`,
  `SettlesIff`, `RestartsSettleOrGrow`, `UnstableOnEmpty`).
- The Cosmos bootstrap treats genesis.json as its commit point. A crash after `init` has written its own genesis.json and
  before the script removes it starts the node on that file from then on; this is the only way (`ExecGoodIff`,
  `WindowEscapes`).
- State sync is four settings made one by one. A start cut off between them leaves a part of them, and the node starts with
  that part if the next `init` keeps config.toml and no RPC answers then; again this is the only way, besides an `init` that
  forgets a part of its own config.toml (`ExecSyncIff`, `TornSync`).
- Berachain fetches config.toml left of `&&`, where `set -e` does not apply. If moving it in place fails, beacond is started
  on whatever config.toml there is, and the marker is not set; this is the only way to start without a fetched one
  (`ExecPinned`, `UnfetchedStart`).
- The image set promises never to remove an image the user already had. A failing or interrupted `docker image inspect` is
  taken for absence, and the image is then removed; this is the only way (`HostRestored`,
  `InterruptedInspectionLosesImage`).
- `parseVersionsGen` loses chains without clients and clients whose line holds both `chainDefaultImages` and a brace
  (`RoundTripIff`, `LostEntries`).
- `--update` is meant to settle. The table does, after one run if every item that has an entry is compared through it, as
  with keys in lower case (`TableSettles`), and after two in any case (`TableSettlesInTwo`). The selection does unless a
  client compared through another entry's image has an update over it; such a client is selected by every later run and
  never written (`RunSettlesIff`, `SelectedForEver`, `FallbackStuck`).
- `replaceTag` takes the last colon for the tag's, also when it is that of a registry port or of a digest
  (`ReplaceKeepsRepository`, `ReplaceLosesRepository`).
- A pod's start is given up exactly when two native sidecars share a name or one is called "pod"; a regular sidecar whose
  name is taken is left out with a note (`PodStartsIff`, `PodSidecarClashes`).
- Before volume-subpath, two pod volumes or two parts of one may become one docker volume (`OlderSharedIff`,
  `OlderEnginesCollide`).
- If the plan's last config mount spells the config file's name differently, the file is empty for all its mounts
  (`BindsBacked`, `ConfigEmptied`).
- `forEach` blocks at once with a limit of 0, and only then (`NoDeadlockIff`); the command line asks for at least 1.
- An Ethereum node whose slowest stages include post-sync ones is reported by whichever is listed first
  (`EthOrderMattersIff`, `OrderMatters`).
- `callRPCWithRetry` returns neither a value nor an error exactly for a negative retry count (`CallWithRetry`).
- An override shown by `String` reads back as itself unless its chain ends in a blank and it names no client
  (`ShownThenParsed`, `BlankLost`).

## Model

| member | source | states |
|---|---|---|
| TomlSet.Tset | internal/adapters/cosmos_init.go:149-158 | the loop over the lines with the current table equals `Set` |
| TomlSet.SetMeaning | internal/adapters/cosmos_init.go:149-158 | line by line: an assignment of the key in the table gets the value, every other line and every line's table stay |
| TomlSet.SetTwice | internal/adapters/cosmos_init.go:149-158 | setting twice is setting once with the later value, so a repeated first start repeats no edit |
| TomlSet.SetsCommute | internal/adapters/cosmos_init.go:202-229 | settings of different tables, or of keys no line assigns together, do not disturb each other |
| TomlSet.KeysApart | internal/adapters/cosmos_init.go:149-153 | one line assigns two keys only if they differ in dashes and underscores alone |
| TomlText.AssignsByText | internal/adapters/cosmos_init.go:149-153 | a line assigns a key exactly when it is white space, the key with dashes or underscores, white space and an equals sign |
| TomlText.SetByText | internal/adapters/cosmos_init.go:151-158 | such a line in the table gets the new value behind its own key, whichever of dash and underscore it has |
| TomlText.PeersSet | internal/adapters/cosmos_init.go:210-213 | setting persistent_peers changes the line persistent-peers of its table |
| TomlProgram.ReadOverrideFile | internal/adapters/cosmos_init.go:171-175 | the first pass collects the override file's entries, first-seen order, last line of each |
| TomlProgram.Flush | internal/adapters/cosmos_init.go:165-170 | the flush loop prints exactly the pending entries of the current table, in order, and marks them done |
| TomlProgram.TMerge | internal/adapters/cosmos_init.go:161-193 | the two passes with pending blanks and the end-of-file pass equal `Merge`, whose meaning by the texts of keys is `MergeByText` |
| TomlProgram.MergeLine | internal/adapters/cosmos_init.go:176-181 | one line of the second pass, by rule |
| TomlProgram.AppendTables | internal/adapters/cosmos_init.go:185-190 | the end pass prints each missing table behind a blank and its header |
| TomlProgram.TablesOnceContiguous | internal/adapters/cosmos_init.go:161-193 | an override file that defines every table once, as TOML demands, satisfies the contiguity condition |
| TomlText.EntryIff | internal/adapters/cosmos_init.go:164-180 | a line is an entry of a key exactly when it is white space, that key in bare characters, white space and an equals sign before any text |
| TomlText.SlotsByText | internal/adapters/cosmos_init.go:164-174 | two entries of one table share a slot exactly when the texts of their keys are the same |
| TomlText.FirstCharacter | internal/adapters/cosmos_init.go:172-178 | blank, header and comment lines by their first character that is not white space |
| TomlText.HeaderReads | internal/adapters/cosmos_init.go:163-173 | a header names the table in its brackets, whatever white space and comment follow |
| TomlText.AssignedByText | internal/adapters/cosmos_init.go:159-193 | what a file assigns to a key of a table is the last line there with that key's text |
| TomlText.MergeByText | internal/adapters/cosmos_init.go:159-193 | with overrides that are entries, headers, comments and blanks: the result says an override's line for its key, at each occurrence, and what the target says for every other key |
| TomlMeaning.MergeMeaning | internal/adapters/cosmos_init.go:159-193 | for all files: the result assigns what the target assigned with every overridden entry replaced, at each of its occurrences |
| TomlMeaning.BareMergeMeaning | internal/adapters/cosmos_init.go:159-193 | with bare keys the assignments are the target's overridden by the overrides |
| TomlMeaning.MergeOverrides | internal/adapters/cosmos_init.go:159-193 | both files read by one denotation: (section, key) map of the result = target's map + override file's map |
| TomlMeaning.MergeKeeps | internal/adapters/cosmos_init.go:159-193 | for any override file: apart from override lines, result and target have the same lines in order, save for headers of the tables the target lacks |
| TomlKeeps.MergeLosesNothing | internal/adapters/cosmos_init.go:159-193 | for any override file the target's own lines all occur in the result, in order |
| TomlStability.StableIff | internal/adapters/cosmos_init.go:161-193 | merging again changes nothing on every target if and only if all override lines are bare-key entries and no table is split |
| TomlStability.UnstableOnEmpty | internal/adapters/cosmos_init.go:161-193 | otherwise the second merge into the empty target makes it longer than the first did |
| TomlStability.SettlesIff | internal/adapters/cosmos_init.go:161-193 | a third merge changes nothing on every target if and only if all override lines are bare-key entries |
| TomlStability.UnreadableGrows | internal/adapters/cosmos_init.go:161-193 | with any other override line every merge of a merged file is longer |
| TomlStability.RestartsSettleOrGrow | internal/adapters/cosmos_init.go:261 | any number of restarts leaves the file at its second merge, or it grows with each of them |
| TomlStability.RestartsSettle | internal/adapters/cosmos_init.go:261 | any number of restarts leaves the file at its first merge |
| CosmosBootstrap.ExecGoodIff | internal/adapters/cosmos_init.go:194-262 | over all runs of starts and crashes: at exec the genesis is verified and metrics, a node's seeds (both settings) and its peers were set after the init that led to it, exactly when no start was cut off in the window |
| CosmosBootstrap.ExecSyncIff | internal/adapters/cosmos_init.go:214-236 | over all runs: at exec state sync is configured with all its four settings, in the course of one init, or with none, exactly when it was not torn by a crash between its settings or a forgetful init without being mended since |
| CosmosBootstrap.TornSync | internal/adapters/cosmos_init.go:214-236 | a run with one crash between the settings reaches exec on a verified genesis with a part of state sync configured |
| CosmosBootstrap.WindowEscapes | internal/adapters/cosmos_init.go:196-201 | a run with one crash in the window reaches exec on the generated genesis |
| CosmosBootstrap.StartAdvances | internal/adapters/cosmos_init.go:194-262 | each step of a start comes nearer to its end or waits for init, the download or the unpacking, and only a download can leave it without what the next step needs |
| CosmosBootstrap.ReachesExec | internal/adapters/cosmos_init.go:194-262 | from any point a start that is not cut off and gets a matching download can go on to exec |
| CosmosBootstrap.AppSettled | internal/adapters/cosmos_init.go:194-262 | after the first exec no later start changes genesis, settings or app.toml |
| CosmosBootstrap.ExecMerged | internal/adapters/cosmos_init.go:261-262 | at every exec each override is in force wherever its entry occurs in app.toml, and every other assignment is as before the merge |
| BerachainBootstrap.ExecPinned | internal/adapters/berachain.go:103-128 | whatever was on disk, exec is only reached with genesis and KZG setup matching their pins; a matching config.toml was moved in place once and marked, exactly when this start's move of it did not fail |
| BerachainBootstrap.FetchedMatches | internal/adapters/berachain.go:107-121 | a fetched config.toml was moved in place by a step after which its hash is the pinned one |
| BerachainBootstrap.UnfetchedStart | internal/adapters/berachain.go:107-121 | a run in which that move fails reaches exec on a config.toml that does not match, without the marker |
| BerachainBootstrap.SettledStart | internal/adapters/berachain.go:117-121 | a start that finds the pinned files in place leaves them alone, and with the marker the whole volume |
| BerachainBootstrap.ReachesExec | internal/adapters/berachain.go:103-128 | from any point of a start on any volume: with matching downloads and no cut-off it goes on to exec, behind the marker |
| BlastBootstrap.MarkerMeansInitialised | internal/adapters/blast.go:88-105 | marker and exec only next to a database fully initialised from a genesis matching the pin |
| BlastBootstrap.MarkerFinal | internal/adapters/blast.go:88-105 | once the marker is there the volume's files never change again |
| BlastBootstrap.StartCompletes | internal/adapters/blast.go:88-105 | on any volume without the marker a start that gets the pinned genesis and is not cut off initialises the database from it and leaves only that and the marker; with the marker it changes nothing |
| ImageSet.Images.Acquire | cmd/chainsmoke/docker.go:116-123 | the locked part of acquire: one inspection per reference and run, one more user |
| ImageSet.Images.Release | cmd/chainsmoke/docker.go:133-141 | one user less; removal is asked for exactly when it was the last, images are not kept and the image was pulled by this run |
| ImageSetRuns.ImagesSafe | cmd/chainsmoke/docker.go:99-141 | every interleaving: a pulled image stays until its job releases it, preexisting ones stay |
| ImageSetRuns.HostRestored | cmd/chainsmoke/level1.go:164-189 | when all jobs are done the host's images are the initial ones minus those an inspection called absent |
| ImageSetRuns.Progress | cmd/chainsmoke/docker.go:116-141 | mutual exclusion, and some job can always move |
| ImageSetRuns.ContainersSafe | cmd/chainsmoke/level1.go:164-189 | every interleaving: the image of each container on the host is there, and a job releases no image before its containers are gone |
| ImageSetRuns.RunsEnd | cmd/chainsmoke/docker.go:116-141 | every run ends: at most eight steps for each image of each job and two for each job |
| ImageSetRuns.InterruptedInspectionLosesImage | cmd/chainsmoke/docker.go:118-120 | one failed inspection of an image that is there ends with the image removed |
| WorkerPool.RunInv | cmd/chainsmoke/docker.go:73-97 | in every reachable state at most n items are in flight and each result is that of its own item |
| WorkerPool.ResultsInOrder | cmd/chainsmoke/docker.go:73-97 | at the end the output is fn of the input in order and every item was counted |
| WorkerPool.NoDeadlockIff | cmd/chainsmoke/docker.go:75-84 | an unfinished pool can move exactly when n > 0 |
| WorkerPool.RunsEnd | cmd/chainsmoke/docker.go:73-97 | no run is longer than four steps an item |
| ShellQuote.ShellJoin | cmd/chainsmoke/level1.go:408-419 | a POSIX shell reads "docker " plus the joined line as "docker" and exactly the arguments, for all lists of strings |
| ShellQuote.LoggedApart | cmd/chainsmoke/level1.go:391-419 | different commands are logged differently |
| ShellQuote.BareIff | cmd/chainsmoke/level1.go:411-414 | an argument is left without quotes exactly when it is not empty and the shell reads each of its characters as itself |
| ShellQuote.ReadAsItself | cmd/chainsmoke/level1.go:412 | which characters these are |
| Mounts.MountPlanner.VolumeMount | cmd/chainsmoke/dockerrun.go:393-415 | source, target, subpath, read-only flag, volume, subdirectory and note of one pod volume mount |
| Mounts.MountPlanner.MountAll | cmd/chainsmoke/dockerrun.go:347-387 | the loop over a container's mounts: flags of its first mount per path, and everything they need |
| Mounts.MountPlanner.Mount | cmd/chainsmoke/dockerrun.go:358-383 | what one mount becomes: bind of the config, docker volume in a pod, scratch space otherwise |
| MountMeaning.FirstMountWins | cmd/chainsmoke/dockerrun.go:350-357 | at each path the container gets what the first mount of that path asks for |
| MountMeaning.MountsNoted | cmd/chainsmoke/dockerrun.go:347-415 | which notes a container's mounts leave: one for each path taken before, and what the others ask for |
| RunPlans.PlanSidecars | cmd/chainsmoke/dockerrun.go:180-219 | the sidecar loops: runs, notes and accumulated needs |
| RunPlans.BuildRunPlan | cmd/chainsmoke/dockerrun.go:148-228 | the whole plan as the function `PlanFor` of the pod, whose meaning `PodRuns`, `PodNotes` and `PodMountNotes` give |
| RunPlanPod.PodRuns | cmd/chainsmoke/dockerrun.go:148-228 | native sidecars are the init containers that restart and have an image, regular ones the containers besides main that have one, both in order, each with its own image, name, mounts, network and gating probe; no pod exactly without any |
| RunPlanPod.PlannedIff | cmd/chainsmoke/dockerrun.go:148-153 | there is a plan exactly for pods with a container called node |
| RunPlanPod.PodNotes | cmd/chainsmoke/dockerrun.go:159-219 | which notes there are about containers: the other init containers by name and in order, missing images, envFrom, probes that cannot be run |
| RunPlanPod.PodMountNotes | cmd/chainsmoke/dockerrun.go:180-223 | the notes on mounts are those of the containers that run |
| RunPlanMounts.PlanCovers | cmd/chainsmoke/dockerrun.go:282-301 | planned volumes and directories are exactly those some container mounts, each once |
| RunPlanMounts.SharedIff | cmd/chainsmoke/dockerrun.go:393-414 | with volume-subpath two mounts share a docker volume exactly when they name one pod volume |
| RunPlanMounts.OlderSharedIff | cmd/chainsmoke/dockerrun.go:403-406 | without it they share one exactly when they name one pod volume with subPaths that become one name, or one volume's name is the other's followed by a dash and the rest of what its subPath adds |
| RunPlanMounts.OlderEnginesCollide | cmd/chainsmoke/dockerrun.go:403-406 | two pod volumes, and two parts of one pod volume, that become one docker volume |
| Mounts.VolumeNameAllowed | cmd/chainsmoke/dockerrun.go:417-418 | docker accepts the renamed subPath, and the renaming changes just what docker would refuse |
| Mounts.VolumeNameRuns | cmd/chainsmoke/dockerrun.go:417-418 | each run of characters docker refuses becomes one dash, all else stays |
| RunPlanFiles.BindsBacked | cmd/chainsmoke/dockerrun.go:360-372 | whatever is bound from the host is planned as a file or is the config directory; the config file holds the config exactly when the last config mount does not spell its name differently |
| RunPlanFiles.FilesNeeded | cmd/chainsmoke/dockerrun.go:360-372 | no file is planned that no config mount asks for |
| RunPlanFiles.ConfigEmptied | cmd/chainsmoke/dockerrun.go:362-369 | a pod whose second config mount empties the config file |
| RunPlanMounts.PathsMountedOnce | cmd/chainsmoke/dockerrun.go:350-357 | a container mounts each of its paths exactly once |
| RunPlanHost.PlanRunsIff | cmd/chainsmoke/level1.go:199-223 | on a clean host all commands succeed in order, and end in the stated host state, if and only if sidecar names are distinct and none is "pod" |
| RunPlanStart.StartOthers | cmd/chainsmoke/level1.go:217-223 | the loop that starts the regular sidecars and notes those docker refuses |
| RunPlanStart.PodStartsIff | cmd/chainsmoke/level1.go:199-223 | on a clean host the start is given up exactly when native sidecar names clash or one is "pod"; otherwise just the regular sidecars whose name is taken are left out, and everything else of the plan is up |
| RunPlanStart.PodSidecarClashes | cmd/chainsmoke/level1.go:199-214 | a sidecar called "pod" takes the holder's name and the start is given up |
| RunPlanHost.ContainersOf | cmd/chainsmoke/dockerrun.go:121-134 | the teardown loops, native sidecars backwards |
| RunPlanHost.TeardownMatches | cmd/chainsmoke/dockerrun.go:118-134 | teardown lists exactly the started containers and the holder, the holder last, without repeats exactly when names are apart |
| RunPlanHost.NothingLeft | cmd/chainsmoke/level1.go:181-189 | wherever a start is cut off, whichever commands fail, and whatever was on the host: removing the listed containers and volumes leaves none of the plan's and all others as they were |
| RunPlanHost.StartedJoin | cmd/chainsmoke/dockerrun.go:173-195 | every container of a multi-container pod joins the holder's network |
| RunPlanContents.NoContainerLost | cmd/chainsmoke/dockerrun.go:148-228 | as multisets: the pod's containers are the started ones plus those named in notes; the plan fails exactly without a main container |
| RunPlanContents.Images | cmd/chainsmoke/dockerrun.go:103-116 | the loop that collects images |
| RunPlanContents.ImagesCover | cmd/chainsmoke/dockerrun.go:101-116 | images are those of all started containers and busybox, each once, main first |
| Expansion.Expand | cmd/chainsmoke/dockerrun.go:491-523 | the index loop equals the recursive reading of the token grammar |
| Expansion.SourceOfTokens | cmd/chainsmoke/dockerrun.go:491-523 | tokens spell the text they were read from |
| Expansion.TokensOfSource | cmd/chainsmoke/dockerrun.go:491-523 | a token list is read back from its text exactly when it is well formed |
| Expansion.TokensAppend | cmd/chainsmoke/dockerrun.go:489-523 | a part that ends with a finished token reads the same whatever follows |
| Expansion.NeverReadAgain | cmd/chainsmoke/dockerrun.go:511-517 | substituted values are never scanned for references |
| Expansion.ReferenceStands | cmd/chainsmoke/dockerrun.go:506-518 | a reference is replaced by its own piece, whatever stands before and behind it |
| Expansion.UnknownStays | cmd/chainsmoke/dockerrun.go:512-517 | a reference to a name without a value stays as written |
| Expansion.UnclosedStays | cmd/chainsmoke/dockerrun.go:506-510 | a reference that is never closed stays as written |
| Expansion.DoubledStays | cmd/chainsmoke/dockerrun.go:489-504 | expanding a string with every dollar doubled gives the string |
| Environment.ResolveEnv | cmd/chainsmoke/dockerrun.go:424-448 | one pair a declared name: the name, an equals sign and its value, in the order of `Order` |
| Environment.OrderNames | cmd/chainsmoke/dockerrun.go:438-447 | the names are distinct and exactly the declared ones |
| Environment.FirstOccurrenceOrder | cmd/chainsmoke/dockerrun.go:438-440 | names come in the order of their first declarations |
| Environment.LastDeclarationWins | cmd/chainsmoke/dockerrun.go:431-441 | a name's value is that of its last declaration: a literal expanded with the earlier declarations alone, or the value taken from a source |
| Versions.FindNewest | internal/registry/semver.go:58-71 | the loop for the newest tag |
| Versions.NewestMember | internal/registry/semver.go:58-71 | the result is a greatest parsable element, empty when there is none |
| Versions.Precedence | internal/registry/semver.go:29-40 | newer by major, then minor, then patch version, then release over pre-release; of two different versions just one is newer |
| Versions.MajorBumpLeavesLine | internal/registry/semver.go:42-56 | a newer version is a major bump exactly when it leaves the release line, that is changes the major version or before 1.0 the minor one |
| Versions.PickLatest | cmd/versioncheck/main.go:227-279 | the map and slice loops equal `PickSpec` |
| Versions.ByVersionInverts | cmd/versioncheck/main.go:246-255 | a version's tag carries that version, so tags are found through versions and back |
| Versions.PickNewest | cmd/versioncheck/main.go:222-268 | newer exactly when an update exists; latest is then a best one; major exactly when it leaves the release line |
| Versions.PickSameMajor | cmd/versioncheck/main.go:269-277 | behind a major, sameMajor is a best update inside the line, and set whenever there is one |
| ImageTable.FilterNewer | cmd/versioncheck/main.go:284-297 | the selection loop, result by result |
| ImageTable.TargetMeaning | cmd/versioncheck/main.go:281-297 | what is applied carries a version that the policy calls stable and that is newest among the strictly newer ones, in the same line unless majors are allowed; something is applied exactly when there is one, so nothing without an answer |
| ImageTable.PinRead | cmd/versioncheck/main.go:146-148 | the tag an item is compared with: behind the last colon of its client's image or else of its chain's |
| ImageTable.TargetSettles | cmd/versioncheck/main.go:227-297 | the applied tag has no further target among the same tags |
| ImageTable.ReplaceThenParse | cmd/versioncheck/main.go:405-418 | the tag written is the tag read back exactly when it holds no colon |
| ImageTable.ReplaceKeepsRepository | cmd/versioncheck/main.go:412-418 | the result is the old repository with the new tag exactly when the last colon is a tag's, not a port's or a digest's, and without a colon when there is no digest |
| ImageTable.ReplaceLosesRepository | cmd/versioncheck/main.go:412-418 | a registry port and a digest that are taken for tags |
| ImageTable.ApplyUpdates | cmd/versioncheck/main.go:339-361 | the update loop over the parsed table |
| ImageTable.ApplyMoves | cmd/versioncheck/main.go:350-358 | an entry changes by its own item's target and by nothing else |
| ImageTable.RunSettlesIff | cmd/versioncheck/main.go:281-361 | a second run selects nothing exactly when the registry lists no update, of the allowed kind, over the tag that an item compared through another's entry meets there |
| ImageTable.AllOwnedSettle | cmd/versioncheck/main.go:281-361 | with an entry for every item one run settles everything |
| ImageTable.TableSettles | cmd/versioncheck/main.go:339-361 | if every item that has an entry is compared through it, as with keys in lower case, a second run leaves the table as the first one did |
| ImageTable.TableSettlesInTwo | cmd/versioncheck/main.go:339-361 | for any keys and items a third run leaves the table as the second one did |
| ImageTable.SettledInTwo | cmd/versioncheck/main.go:339-361 | so any number of runs beyond two leaves the table there |
| ImageTable.SelectedForEver | cmd/versioncheck/main.go:281-361 | with keys in lower case, what the second run selects every later run selects again, and none changes the table |
| ImageTable.FallbackNeverMoves | cmd/versioncheck/main.go:351-357 | an item without an entry of its own makes no difference to what a run writes |
| ImageTable.FallbackStuck | cmd/versioncheck/main.go:111-126 | a chain's item and one of its clients, which every run selects and none writes |
| VersionsFile.ParseVersionsGen | cmd/versioncheck/main.go:447-498 | the line loop with its flags equals the state machine `Read` |
| VersionsFile.BuildEntries | cmd/versioncheck/main.go:687-729 | the entries written depend on the table only, not on the order its maps are walked in |
| VersionsLines.EntryMatches | cmd/versioncheck/main.go:439-443 | a written client line matches with its key and image, for any padding |
| VersionsLines.MatchEntryIff | cmd/versioncheck/main.go:439-443 | for any line: which lines are read as an entry, with which key and value |
| VersionsLines.ClosingLines | cmd/versioncheck/main.go:463-495 | for any line: which end a chain, end the reading or start the map |
| VersionsRoundTrip.WrittenThenRead | cmd/versioncheck/main.go:445-498 | reading a written table gives the table minus empty chains and confusing clients, for every padding |
| VersionsRoundTrip.RoundTripIff | cmd/versioncheck/main.go:634-753 | the round trip is exact for just the tables that have neither |
| VersionsRoundTrip.LostEntries | cmd/versioncheck/main.go:463-489 | two written files, one with an empty chain and one with a confusing client, that read back without them |
| TagCache.FetchedOnce | cmd/versioncheck/main.go:177-212 | under every schedule a policy's tags are fetched at most once and at most n workers are active |
| TagCache.SameAnswer | cmd/versioncheck/main.go:191-212 | all workers of a policy get one answer |
| TagCache.FinishedResults | cmd/versioncheck/main.go:128-170 | at the end each policy has been fetched exactly once and has an answer, and each item has exactly one result, with its policy's answer |
| TagCache.ReportIgnoresSchedule | cmd/versioncheck/main.go:170-174 | the sorted report is the same for every schedule with the same answers |
| TagCache.NoDeadlockIff | cmd/versioncheck/main.go:128-168 | waiting for a fetch and for a slot together never block all workers, exactly when there is a slot |
| TagCache.RunsEnd | cmd/versioncheck/main.go:134-170 | no run is longer than six steps an item |
| LogVerdict.ScanLog | cmd/chainsmoke/logmatch.go:64-86 | the classification loop equals the merge of its lines' scans |
| LogVerdict.ScanConcatenated | cmd/chainsmoke/logmatch.go:64-86 | scanning one log after another merges the scans |
| LogVerdict.ScanMeaning | cmd/chainsmoke/logmatch.go:54-86 | first disk-full line, first failure, count, first and last of the warnings |
| LogVerdict.VerdictIff | cmd/chainsmoke/logmatch.go:96-126 | each status by the classes of lines, in terms of the four patterns, and the container state |
| LogVerdict.ScanSeen | cmd/chainsmoke/logmatch.go:54-86 | by the patterns: which trimmed line of the log each field of the scan is, and how many warnings there are |
| LogVerdict.VerdictDetail | cmd/chainsmoke/logmatch.go:96-126 | which line of the log each detail quotes, and when it is given |
| Identity.Checker.CheckEVMChainID | cmd/chainsmoke/identity.go:172-200 | one finding per check, net_version asked exactly after a zero chain id |
| Identity.Checker.CheckIdentity | cmd/chainsmoke/identity.go:126-160 | the findings of all checks, whose meaning the next rows give |
| Identity.ChecksApart | cmd/chainsmoke/identity.go:126-160 | the findings are those of the checks that are due, each on its own |
| Identity.DataSays | cmd/chainsmoke/identity.go:211-216 | the finding about the data directory, below or from 64 KiB |
| Identity.ChainIdSays | cmd/chainsmoke/identity.go:172-200 | the one finding about the chain id, by what the node answers to eth_chainId and net_version |
| Identity.NetworkSays | cmd/chainsmoke/identity.go:147-160 | the one finding about the network, by what the node answers |
| Identity.FindingsIff | cmd/chainsmoke/identity.go:126-230 | there are failures exactly when an answer other than 0 differs from what is wanted or the data is too small, warnings exactly when a check that is due is unanswered |
| Identity.IdentityNeverHelps | cmd/chainsmoke/identity.go:232-250 | severity never drops; FAIL and PASS exactly characterised |
| Identity.FindingsShownOnce | cmd/chainsmoke/identity.go:235-250 | the run's detail is kept once and every finding shows exactly once in detail or notes |
| Identity.WhereShown | cmd/chainsmoke/identity.go:235-250 | the detail shows the failures; without one, a run that passed shows its warnings or else its facts; all the rest is noted, in order |
| Identity.FinalStatusIff | cmd/chainsmoke/level1.go:243-265 | when exactly a sample passes and when it fails, from log, state and answers |
| StageSync.EvmStages | internal/adapters/evm.go:101-120 | least positive and greatest block of the stages besides the two of Polygon, current at most highest |
| StageSync.EvmIgnoresOrder | internal/adapters/evm.go:101-120 | the answer is the same for any order of the stages |
| StageSync.EthStages | internal/adapters/ethereum.go:319-346 | the bottleneck loop and post-sync rule equal `EthCurrent` |
| StageSync.EthMeaning | internal/adapters/ethereum.go:307-346 | highest when only post-sync stages are at the bottom, the minimum when none is |
| StageSync.EthOrderMattersIff | internal/adapters/ethereum.go:324-346 | reordering can change the answer exactly when both kinds are at the bottom below the highest block |
| StageSync.OrderMatters | internal/adapters/ethereum.go:324-346 | two listings of the same stages, reported at block 5 and at block 9 |
| StageSync.ProgressMeaning | internal/adapters/rpc.go:229-239 | 100 times current over highest below the tip, full exactly at the tip, zero exactly when unknown, never falling |
| TronSync.HealthCheck | internal/adapters/tron.go:278-314 | the lag is the greatest distance of a sync peer and never negative; syncing iff some sync peer is over 100 by either measure |
| TronSync.LagUnique | internal/adapters/tron.go:281-297 | the lag does not depend on the order of the peers |
| RpcRetry.CallWithRetry | internal/adapters/rpc.go:156-177 | at most maxRetries+1 calls, each but the last a transient failure whose wait was not cut short, the last of another kind or the last allowed; its outcome is returned; completed waits add up to 2(2^k-1) seconds |
| RpcRetry.CallsSettled | internal/adapters/rpc.go:156-177 | outcomes settle the number of calls; a success is returned exactly when one is reachable by retries |
| Overrides.ParseIff | cmd/chainsmoke/targets.go:51-66 | which strings are read as which override |
| Overrides.ShownThenParsed | cmd/chainsmoke/targets.go:51-86 | reading back a shown override gives it again, with the one exception |
| Overrides.BlankLost | cmd/chainsmoke/targets.go:51-86 | "a /=r" is shown as "a =r" and read back as another override |
| Overrides.ParsedParts | cmd/chainsmoke/targets.go:51-66 | what holds of the parts of an override that was read |
| Level0.LookupBackwards | cmd/chainsmoke/targets.go:97-105 | the last override that names the chain and the client or no client, none exactly when there is none |
| Level0.Level0Targets | cmd/chainsmoke/targets.go:117-150 | the rows of the extended table for selected chains, each once, by chain and then by client |
| Level0.RowsMeaning | cmd/chainsmoke/targets.go:114-150 | a row for exactly the selected pairs of table and named overrides, with the last matching override or the table's image |
| Level0.RunLevel0 | cmd/chainsmoke/level0.go:35-64 | each distinct image is inspected once and every row gets what inspecting it alone would give |

## Left out

- Docker, registries, HTTP, git, Kubernetes and the file system are oracles (answers as parameters) or the host and volume states of the machines; hashing, unpacking, regular expressions on log lines and tags, and JSON decoding are uninterpreted functions.
- internal/controller, internal/health, internal/dashboard, the admission webhook, resource and probe tables, flag parsing and generated code: finite lookups or plumbing around the parts above.
- The wall clock: timeouts, the pseudo block number, and how long probes and retries of image pulls wait. RunPlanStart takes every probe to succeed.
- In CosmosBootstrap every `tset` finds its key in config.toml; TomlSet says what becomes of a key that is not there.
- Texts of details, notes and reports; they are constructors that carry the quoted lines and names.
- awk reads files line by line, so a TOML value over several lines is read as lines here as well; a table header with the control character U+001C, which awk uses to join subscripts, is not modelled.
- `tset` values hold no `&` and no backslash, which awk would interpret, and its keys only letters, digits, dashes and underscores, as in every call of the script.
- app.toml changes only by the merge; a node that rewrites it while running is not modelled.
- Pre-release identifiers of a semantic version are one rank in the order; the parser of versions is a parameter of the policy.
- Other flags of `docker run` (user, groups, limits, labels, entrypoint) and the values of `valueFrom` sources are not part of the plan model; path joining is a function given as a parameter.
- Client and image strings in the generated table are printable ASCII without quote and backslash, which Go quotes unchanged; tabs of the template, gofmt's padding and its folding of empty literals are modelled, other layouts are not.
- ImageSetRuns.HostRestored: removal of an image no job uses always succeeds, that is, no foreign process uses the host's docker meanwhile; so does removal of a job's own containers.
- StageSync.ProgressMeaning: progress is computed in 64-bit floating point and modelled over the reals, without rounding.
- TronSync.HealthCheck: stated for non-negative block numbers, without 64-bit overflow, and with progress over the reals.
- StageSync.EvmStages: stage blocks are taken as parsed, non-negative and without 64-bit overflow.
